/**
 Publishing a verified branch, as the trace of commands it issues. The command runner and the
 evidence file are arbitrary: each answer may depend on everything that happened before.
 */
module Publish {
  import opened Wrappers
  import opened Names

  datatype Command =
    | CurrentBranch | RevParseHead | Status | Evaluate
    | Push(branch: string) | ListPrs(branch: string)
    | CreatePr(branch: string) | EditPr(number: int) | ReadyPr(number: int)
    | WatchChecks(number: int) | MergePr(number: int) | ViewPr(number: int)
    | ViewIssue(issue: int) | CloseIssue(issue: int)

  datatype PrInfo = PrInfo(number: Option<int>, url: Option<string>, headSha: string, closesIssue: bool, isDraft: bool)

  datatype RemoteState = OPEN | CLOSED | MERGED | ANOTHER

  // An exit code and one output, with the readings the script makes of it.
  datatype Reply = Reply(
    code: int,
    text: string,                   // stripped
    prs: Option<seq<PrInfo>>,       // as a list of pull requests; None when it does not parse
    prNumber: Option<int>,          // the number at the end of a pull-request URL
    state: Option<RemoteState>,     // the "state" of the parsed object; None when it does not parse
    mergedAt: bool)

  // `evaluation.json`: whether its state is PASS, and the HEAD it is about.
  datatype Evidence = Evidence(passed: bool, candidateHeadSha: Option<string>)

  datatype Event = Ran(command: Command, reply: Reply) | ReadEvidence(evidence: Option<Evidence>)

  type Trace = seq<Event>
  type Runner = (Trace, Command) -> Reply
  type Reader = Trace -> Option<Evidence>

  datatype Manifest = Manifest(issue: int)

  datatype Outcome = Failed | ReadyForReview(pr: int) | Completed(pr: int)

  // ----- what a trace must satisfy

  ghost predicate Succeeded(e: Event, c: Command) {
    e.Ran? && e.command == c && e.reply.code == 0
  }

  // Commands that change something outside the working copy.
  ghost predicate Publishes(e: Event) {
    e.Ran? && (e.command.Push? || e.command.CreatePr? || e.command.EditPr? || e.command.ReadyPr?
               || e.command.MergePr? || e.command.CloseIssue?)
  }

  // HEAD was read, then evaluate exited 0, then the evidence said PASS for that HEAD.
  ghost predicate ClearedAt(trace: Trace, head: string, h: nat, k: nat) {
    && h < k < |trace| - 1
    && Succeeded(trace[h], RevParseHead) && trace[h].reply.text == head
    && Succeeded(trace[k], Evaluate)
    && trace[k + 1] == ReadEvidence(Some(Evidence(true, Some(head))))
  }

  ghost predicate Cleared(trace: Trace, head: string) {
    exists h: nat, k: nat :: ClearedAt(trace, head, h, k)
  }

  ghost predicate Pushed(trace: Trace) {
    exists p :: 0 <= p < |trace| && IsPush(trace[p])
  }

  ghost predicate IsPush(e: Event) {
    e.Ran? && e.command.Push? && e.reply.code == 0
  }

  ghost predicate Gated(trace: Trace) {
    forall i :: 0 <= i < |trace| && Publishes(trace[i]) ==> exists head :: Cleared(trace[..i], head)
  }

  // Nothing is issued after a command that failed.
  ghost predicate FailStop(trace: Trace) {
    forall i :: 0 <= i < |trace| - 1 && trace[i].Ran? ==> trace[i].reply.code == 0
  }

  // A merge comes right after successful checks of the same pull request, and after a successful push.
  ghost predicate MergeGated(trace: Trace) {
    forall i :: 0 <= i < |trace| && trace[i].Ran? && trace[i].command.MergePr? ==>
      && i > 0 && Succeeded(trace[i - 1], WatchChecks(trace[i].command.number))
      && Pushed(trace[..i])
  }

  // The last answer to command `c` satisfies `ok`.
  ghost predicate LastReply(trace: Trace, c: Command, ok: Reply -> bool) {
    exists i :: 0 <= i < |trace| && Succeeded(trace[i], c) && ok(trace[i].reply)
                && forall j :: i < j < |trace| ==> !(trace[j].Ran? && trace[j].command == c)
  }

  ghost predicate IsMerged(r: Reply) {
    r.state == Some(MERGED) && r.mergedAt
  }

  ghost predicate IsClosed(r: Reply) {
    r.state == Some(CLOSED)
  }

  // The pull request was prepared by the events from `b` up to `end`, and its number is `number`: created, with the
  // number in the answer; or found, for this HEAD, and then edited and marked ready exactly if it needs to be.
  ghost predicate Prepared(trace: Trace, b: nat, end: nat, branch: string, head: string, number: int) {
    && b + 2 <= end <= |trace|
    && Succeeded(trace[b], Push(branch)) && Succeeded(trace[b + 1], ListPrs(branch)) && trace[b + 1].reply.prs.Some?
    && var prs := trace[b + 1].reply.prs.value;
       || (&& prs == [] && end == b + 3 && Succeeded(trace[b + 2], CreatePr(branch))
           && trace[b + 2].reply.prNumber == Some(number))
       || (&& |prs| == 1 && prs[0].number == Some(number) && prs[0].url.Some? && prs[0].headSha == head
           && end == b + 2 + (if prs[0].closesIssue then 0 else 1) + (if prs[0].isDraft then 1 else 0)
           && (!prs[0].closesIssue ==> Succeeded(trace[b + 2], EditPr(number)))
           && (prs[0].isDraft ==> Succeeded(trace[end - 1], ReadyPr(number))))
  }

  // The last event is a reason to give up: a command failed, or its answer does not allow to go on.
  ghost predicate Stuck(trace: Trace, issue: int, head: string) {
    && trace != []
    && var e := trace[|trace| - 1];
       if e.ReadEvidence? then e.evidence != Some(Evidence(true, Some(head)))
       else
         || e.reply.code != 0
         || (e.command.RevParseHead? && |trace| == 2 && trace[0].Ran?
             && !(trace[0].reply.text != "" && IsHex(e.reply.text, 40) && IsIssueBranch(trace[0].reply.text, issue)))
         || (e.command.Status? && e.reply.text != "")
         || (e.command.ListPrs?
             && !(e.reply.prs.Some? && |e.reply.prs.value| <= 1
                  && forall p :: p in e.reply.prs.value ==> p.number.Some? && p.url.Some? && p.headSha == head))
         || (e.command.CreatePr? && e.reply.prNumber.None?)
         || (e.command.ViewPr? && !(e.reply.state == Some(MERGED) && e.reply.mergedAt))
         || (e.command.ViewIssue? && e.reply.state != Some(CLOSED))
  }

  // ----- the script

  method Run(trace: Trace, c: Command, run: Runner) returns (trace': Trace, reply: Reply, ok: bool)
    ensures reply == run(trace, c)
    ensures trace' == trace + [Ran(c, reply)]
    ensures ok <==> reply.code == 0
  {
    reply := run(trace, c);
    trace' := trace + [Ran(c, reply)];
    ok := reply.code == 0;
  }

  predicate IsIssueBranch(branch: string, issue: int) {
    exists k :: 0 <= k <= |branch| && IsBranchKind(branch[..k])
                && LeadingNumber(branch[k..]).Some? && LeadingNumber(branch[k..]).value.0 == issue
                && "-" <= LeadingNumber(branch[k..]).value.1
  }

  // The branch starts with a kind, the number of the issue and a hyphen.
  lemma IssueBranchIff(branch: string, issue: int)
    ensures IsIssueBranch(branch, issue)
       <==> issue >= 1 && exists kind :: IsKind(kind) && kind + (Decimal(issue) + "-") <= branch
  {
    hide LeadingNumber, IsKind, IsBranchKind, Decimal;
    forall k | 0 <= k <= |branch| && IsBranchKind(branch[..k])
      && LeadingNumber(branch[k..]).Some? && LeadingNumber(branch[k..]).value.0 == issue
      && "-" <= LeadingNumber(branch[k..]).value.1
      ensures issue >= 1 && IsKind(branch[..k]) && branch[..k] + (Decimal(issue) + "-") <= branch
    {
      var rest := LeadingNumber(branch[k..]).value.1;
      LeadingNumberIff(branch[k..], issue, rest);
      KindIff(branch[..k]);
      assert branch == branch[..k] + (Decimal(issue) + rest);
    }
    if issue >= 1 {
      forall kind | IsKind(kind) && kind + (Decimal(issue) + "-") <= branch ensures IsIssueBranch(branch, issue) {
        var k := |kind|;
        var rest := branch[k + |Decimal(issue)|..];
        assert branch[..k] == kind && branch[k..] == Decimal(issue) + rest && rest[0] == '-';
        LeadingNumberIff(branch[k..], issue, rest);
        KindIff(kind);
      }
    }
  }

  ghost predicate AllSucceeded(trace: Trace) {
    forall i :: 0 <= i < |trace| && trace[i].Ran? ==> trace[i].reply.code == 0
  }

  // The HEAD that was read, and the branch.
  ghost function HeadRead(trace: Trace): string {
    if |trace| >= 2 && trace[1].Ran? then trace[1].reply.text else ""
  }

  ghost function BranchRead(trace: Trace): string {
    if |trace| >= 1 && trace[0].Ran? then trace[0].reply.text else ""
  }

  // Branch and HEAD.
  method Identify(manifest: Manifest, run: Runner) returns (trace: Trace, branch: string, head: string, ok: bool)
    ensures forall i :: 0 <= i < |trace| ==> !Publishes(trace[i])
    ensures FailStop(trace)
    ensures ok ==> AllSucceeded(trace) && IsHex(head, 40) && IsIssueBranch(branch, manifest.issue)
    ensures ok ==> |trace| == 2 && Succeeded(trace[0], CurrentBranch) && trace[0].reply.text == branch
    ensures ok ==> Succeeded(trace[1], RevParseHead) && trace[1].reply.text == head
    ensures !ok ==> Stuck(trace, manifest.issue, HeadRead(trace))
  {
    branch, head := "", "";
    var reply;
    trace, reply, ok := Run([], CurrentBranch, run);
    if !ok {
      return;
    }
    branch := reply.text;
    trace, reply, ok := Run(trace, RevParseHead, run);
    if !ok {
      return;
    }
    head := reply.text;
    ok := branch != "" && IsHex(head, 40) && IsIssueBranch(branch, manifest.issue);
  }

  // Clean worktree, evaluate, evidence.
  method Verify(manifest: Manifest, run: Runner, read: Reader)
    returns (trace: Trace, branch: string, head: string, ok: bool)
    ensures forall i :: 0 <= i < |trace| ==> !Publishes(trace[i])
    ensures FailStop(trace)
    ensures ok ==> AllSucceeded(trace) && Cleared(trace, head)
                   && IsHex(head, 40) && IsIssueBranch(branch, manifest.issue)
    ensures ok ==> |trace| == 5 && Succeeded(trace[0], CurrentBranch) && trace[0].reply.text == branch
    ensures ok ==> Succeeded(trace[1], RevParseHead) && trace[1].reply.text == head
    ensures ok ==> trace[2].Ran? && trace[2].command == Status && trace[2].reply.text == ""
    ensures !ok ==> Stuck(trace, manifest.issue, HeadRead(trace))
  {
    hide IsIssueBranch, IsHex;
    trace, branch, head, ok := Identify(manifest, run);
    if !ok {
      return;
    }
    var reply;
    trace, reply, ok := Run(trace, Status, run);
    ok := ok && reply.text == "";
    if !ok {
      return;
    }
    trace, reply, ok := Run(trace, Evaluate, run);
    if !ok {
      return;
    }
    var evidence := read(trace);
    trace := trace + [ReadEvidence(evidence)];
    ok := evidence == Some(Evidence(true, Some(head)));
    assert ok ==> ClearedAt(trace, head, 1, 3);
  }

  ghost predicate IsPrCommand(e: Event) {
    e.Ran? && (e.command.Push? || e.command.ListPrs? || e.command.CreatePr? || e.command.EditPr? || e.command.ReadyPr?)
  }

  method CreateOrPreparePr(trace: Trace, branch: string, head: string, run: Runner)
    returns (trace': Trace, number: int, ok: bool)
    requires AllSucceeded(trace)
    ensures |trace| < |trace'| && trace == trace'[..|trace|]
    ensures forall i :: |trace| <= i < |trace'| ==> IsPrCommand(trace'[i])
    ensures FailStop(trace')
    ensures trace'[|trace|].Ran? && trace'[|trace|].command == Push(branch)
    ensures ok ==> AllSucceeded(trace') && Prepared(trace', |trace|, |trace'|, branch, head, number)
    ensures !ok ==> forall issue :: Stuck(trace', issue, head)
  {
    number := 0;
    var reply;
    trace', reply, ok := Run(trace, Push(branch), run);
    if !ok {
      return;
    }
    trace', reply, ok := Run(trace', ListPrs(branch), run);
    ok := ok && reply.prs.Some? && |reply.prs.value| <= 1;
    if !ok {
      return;
    }
    if reply.prs.value == [] {
      trace', reply, ok := Run(trace', CreatePr(branch), run);
      ok := ok && reply.prNumber.Some?;
      if ok {
        number := reply.prNumber.value;
      }
      return;
    }
    var existing := reply.prs.value[0];
    ok := existing.number.Some? && existing.url.Some? && existing.headSha == head;
    if !ok {
      return;
    }
    number := existing.number.value;
    if !existing.closesIssue {
      trace', reply, ok := Run(trace', EditPr(number), run);
      if !ok {
        return;
      }
    }
    if existing.isDraft {
      trace', reply, ok := Run(trace', ReadyPr(number), run);
    }
  }

  ghost predicate IsMergeCommand(e: Event) {
    e.Ran? && (e.command.WatchChecks? || e.command.MergePr? || e.command.ViewPr? || e.command.ViewIssue?
               || e.command.CloseIssue?)
  }

  // From `b` on: checks passed, the merge was made, the pull request and the issue were looked at.
  ghost predicate MergedFrom(trace: Trace, b: nat, number: int, issue: int) {
    && b + 3 < |trace|
    && Succeeded(trace[b], WatchChecks(number)) && Succeeded(trace[b + 1], MergePr(number))
    && Succeeded(trace[b + 2], ViewPr(number)) && Succeeded(trace[b + 3], ViewIssue(issue))
    && (trace[b + 3].reply.state == Some(OPEN) ==>
          |trace| == b + 6 && Succeeded(trace[b + 4], CloseIssue(issue)) && Succeeded(trace[b + 5], ViewIssue(issue)))
  }

  method MergeAndVerify(trace: Trace, issue: int, number: int, run: Runner) returns (trace': Trace, ok: bool)
    requires AllSucceeded(trace)
    ensures |trace| < |trace'| && trace == trace'[..|trace|]
    ensures forall i :: |trace| <= i < |trace'| ==> IsMergeCommand(trace'[i])
    ensures FailStop(trace')
    // The commands in order: checks, merge, look at the pull request, then the issue.
    ensures trace'[|trace|].Ran? && trace'[|trace|].command == WatchChecks(number)
    ensures |trace'| > |trace| + 1 ==> trace'[|trace| + 1].Ran? && trace'[|trace| + 1].command == MergePr(number)
    ensures |trace'| > |trace| + 2 ==> trace'[|trace| + 2].Ran? && trace'[|trace| + 2].command == ViewPr(number)
    ensures forall i :: |trace| + 3 <= i < |trace'| ==>
              trace'[i].Ran? && (trace'[i].command == ViewIssue(issue) || trace'[i].command == CloseIssue(issue))
    ensures ok ==> MergedFrom(trace', |trace|, number, issue)
    ensures ok ==> AllSucceeded(trace')
    ensures ok ==> LastReply(trace', ViewPr(number), IsMerged) && LastReply(trace', ViewIssue(issue), IsClosed)
    ensures !ok ==> forall head :: Stuck(trace', issue, head)
  {
    var reply;
    trace', reply, ok := Run(trace, WatchChecks(number), run);
    if !ok {
      return;
    }
    trace', reply, ok := Run(trace', MergePr(number), run);
    if !ok {
      return;
    }
    trace', reply, ok := Run(trace', ViewPr(number), run);
    ok := ok && reply.state == Some(MERGED) && reply.mergedAt;
    if !ok {
      return;
    }
    ghost var viewed := trace';
    assert Succeeded(trace'[|viewed| - 1], ViewPr(number)) && IsMerged(trace'[|viewed| - 1].reply);
    trace', ok := ConfirmIssue(trace', issue, run);
    assert trace'[|viewed| - 1] == viewed[|viewed| - 1];
    assert trace'[..|viewed|] == viewed;
    assert trace == trace'[..|trace|];
  }

  // The issue must be closed; an open one is closed and looked at again.
  method ConfirmIssue(trace: Trace, issue: int, run: Runner) returns (trace': Trace, ok: bool)
    requires AllSucceeded(trace)
    ensures |trace| < |trace'| && trace == trace'[..|trace|]
    ensures forall i :: |trace| <= i < |trace'| ==>
              trace'[i].Ran? && trace'[i].command in {ViewIssue(issue), CloseIssue(issue)}
    ensures FailStop(trace')
    // One look, or a look, a closing and a second look, the latter exactly if the issue is open.
    ensures trace'[|trace|].Ran? && trace'[|trace|].command == ViewIssue(issue)
    ensures |trace'| > |trace| + 1 <==>
              trace'[|trace|].reply.code == 0 && trace'[|trace|].reply.state == Some(OPEN)
    ensures |trace'| > |trace| + 1 ==> trace'[|trace| + 1].Ran? && trace'[|trace| + 1].command == CloseIssue(issue)
    ensures |trace'| > |trace| + 2 ==> trace'[|trace| + 2].Ran? && trace'[|trace| + 2].command == ViewIssue(issue)
    ensures |trace'| <= |trace| + 3
    ensures ok ==> AllSucceeded(trace')
    ensures ok ==> LastReply(trace', ViewIssue(issue), IsClosed)
    ensures !ok ==> forall head :: Stuck(trace', issue, head)
  {
    var reply;
    trace', reply, ok := Run(trace, ViewIssue(issue), run);
    ok := ok && reply.state.Some?;
    if !ok {
      return;
    }
    if reply.state == Some(OPEN) {
      trace', reply, ok := Run(trace', CloseIssue(issue), run);
      if !ok {
        return;
      }
      trace', reply, ok := Run(trace', ViewIssue(issue), run);
      if !ok {
        return;
      }
    }
    ok := reply.state == Some(CLOSED);
    assert ok ==> Succeeded(trace'[|trace'| - 1], ViewIssue(issue)) && IsClosed(trace'[|trace'| - 1].reply);
  }

  // A merge phase that starts after a successful push.
  lemma MergesAfter(prepared: Trace, trace: Trace, p: nat, number: int)
    requires p < |prepared| < |trace| && prepared == trace[..|prepared|] && IsPush(prepared[p])
    requires forall i :: 0 <= i < |prepared| ==> !(prepared[i].Ran? && prepared[i].command.MergePr?)
    requires FailStop(trace) && trace[|prepared|].Ran? && trace[|prepared|].command == WatchChecks(number)
    requires forall i :: |prepared| <= i < |trace| && trace[i].Ran? && trace[i].command.MergePr? ==>
               i == |prepared| + 1 && trace[i].command.number == number
    ensures MergeGated(trace) && Pushed(trace)
  {
    assert forall i :: 0 <= i < |prepared| ==> trace[i] == prepared[i];
    forall i | 0 <= i < |trace| && trace[i].Ran? && trace[i].command.MergePr?
      ensures i > 0 && Succeeded(trace[i - 1], WatchChecks(trace[i].command.number)) && Pushed(trace[..i])
    {
      assert trace[..i][p] == trace[p];
    }
  }

  lemma GatedAfter(start: Trace, trace: Trace, head: string)
    requires Gated(start) && Cleared(start, head) && |start| <= |trace| && start == trace[..|start|]
    ensures Gated(trace)
  {
    forall i | 0 <= i < |trace| && Publishes(trace[i]) ensures exists head :: Cleared(trace[..i], head) {
      if i < |start| {
        assert trace[i] == start[i] && trace[..i] == start[..i];
      } else {
        ClearedLater(start, trace[..i], head);
      }
    }
  }

  lemma ClearedLater(start: Trace, trace: Trace, head: string)
    requires Cleared(start, head) && |start| <= |trace| && start == trace[..|start|]
    ensures Cleared(trace, head)
  {
    var h: nat, k: nat :| ClearedAt(start, head, h, k);
    assert trace[h] == start[h] && trace[k] == start[k] && trace[k + 1] == start[k + 1];
    assert ClearedAt(trace, head, h, k);
  }

  // No pull request has been merged and no issue closed.
  ghost predicate Unmerged(trace: Trace) {
    forall i :: 0 <= i < |trace| && trace[i].Ran? ==> !trace[i].command.MergePr? && !trace[i].command.CloseIssue?
  }

  lemma PrPhase(cleared: Trace, trace: Trace, head: string)
    requires Gated(cleared) && Unmerged(cleared) && Cleared(cleared, head)
    requires |cleared| < |trace| && cleared == trace[..|cleared|]
    requires forall i :: |cleared| <= i < |trace| ==> IsPrCommand(trace[i])
    ensures Gated(trace) && Unmerged(trace) && MergeGated(trace) && Cleared(trace, head)
  {
    GatedAfter(cleared, trace, head);
    ClearedLater(cleared, trace, head);
    assert forall i :: 0 <= i < |cleared| ==> trace[i] == cleared[i];
  }

  method PublishBranch(cleared: Trace, branch: string, head: string, run: Runner)
    returns (trace: Trace, number: int, ok: bool)
    requires Gated(cleared) && Unmerged(cleared) && AllSucceeded(cleared) && Cleared(cleared, head)
    ensures |cleared| < |trace| && cleared == trace[..|cleared|]
    ensures Gated(trace) && FailStop(trace) && Unmerged(trace) && MergeGated(trace) && Cleared(trace, head)
    ensures ok ==> AllSucceeded(trace) && Prepared(trace, |cleared|, |trace|, branch, head, number)
    ensures !ok ==> forall issue :: Stuck(trace, issue, head)
  {
    trace, number, ok := CreateOrPreparePr(cleared, branch, head, run);
    PrPhase(cleared, trace, head);
  }

  // What was prepared stays prepared when the trace goes on.
  lemma PreparedKept(trace: Trace, trace': Trace, b: nat, end: nat, branch: string, head: string, number: int)
    requires Prepared(trace, b, end, branch, head, number) && |trace| <= |trace'| && trace == trace'[..|trace|]
    ensures Prepared(trace', b, end, branch, head, number)
  {
    assert forall i :: 0 <= i < |trace| ==> trace'[i] == trace[i];
  }

  lemma PreparedPushes(trace: Trace, b: nat, end: nat, branch: string, head: string, number: int)
    requires Prepared(trace, b, end, branch, head, number)
    ensures b < |trace| - 1 && IsPush(trace[b])
  {
  }

  lemma NothingPublished(trace: Trace)
    requires forall i :: 0 <= i < |trace| ==> !Publishes(trace[i])
    ensures Gated(trace) && MergeGated(trace) && Unmerged(trace)
  {
  }

  method MergeBranch(prepared: Trace, issue: int, number: int, head: string, run: Runner)
    returns (trace: Trace, ok: bool)
    requires Gated(prepared) && Unmerged(prepared) && AllSucceeded(prepared) && Cleared(prepared, head)
    requires exists p :: 0 <= p < |prepared| - 1 && IsPush(prepared[p])
    ensures |prepared| < |trace| && prepared == trace[..|prepared|]
    ensures Gated(trace) && FailStop(trace) && MergeGated(trace) && Cleared(trace, head) && Pushed(trace)
    ensures forall i :: 0 <= i < |trace| && trace[i].Ran? && trace[i].command.MergePr? ==>
              i == |prepared| + 1 && trace[i].command.number == number
    ensures ok ==> AllSucceeded(trace) && MergedFrom(trace, |prepared|, number, issue)
    ensures ok ==> LastReply(trace, ViewPr(number), IsMerged) && LastReply(trace, ViewIssue(issue), IsClosed)
    ensures !ok ==> Stuck(trace, issue, head)
  {
    hide Stuck, LastReply, Cleared, Gated, FailStop, IsIssueBranch, IsHex;
    trace, ok := MergeAndVerify(prepared, issue, number, run);
    ghost var p :| 0 <= p < |prepared| - 1 && IsPush(prepared[p]);
    MergesAfter(prepared, trace, p, number);
    GatedAfter(prepared, trace, head);
    ClearedLater(prepared, trace, head);
    assert forall i :: 0 <= i < |prepared| ==> trace[i] == prepared[i];
  }

  // The five events before the pull request are followed by its preparation, up to `end`.
  ghost predicate PreparedIn(trace: Trace, end: nat, number: int) {
    Prepared(trace, 5, end, BranchRead(trace), HeadRead(trace), number)
  }

  // `manifest` is None when it cannot be loaded.
  method Finalize(manifest: Option<Manifest>, merge: bool, run: Runner, read: Reader)
    returns (outcome: Outcome, trace: Trace)
    ensures Gated(trace)
    ensures FailStop(trace)
    ensures MergeGated(trace)
    ensures !merge ==> Unmerged(trace)
    ensures outcome.ReadyForReview? ==> !merge && AllSucceeded(trace) && PreparedIn(trace, |trace|, outcome.pr)
    ensures outcome.Completed? ==>
              && manifest.Some? && merge && AllSucceeded(trace)
              && LastReply(trace, ViewPr(outcome.pr), IsMerged)
              && LastReply(trace, ViewIssue(manifest.value.issue), IsClosed)
              && exists end :: PreparedIn(trace, end, outcome.pr)
                   && MergedFrom(trace, end, outcome.pr, manifest.value.issue)
    // Only the pull request that was prepared is merged.
    ensures forall i :: 0 <= i < |trace| && trace[i].Ran? && trace[i].command.MergePr? ==>
              i >= 1 && PreparedIn(trace, i - 1, trace[i].command.number)
    ensures outcome != Failed ==> Pushed(trace) && exists head :: Cleared(trace, head)
    // It gives up only for a reason.
    ensures outcome == Failed ==> manifest.None? || Stuck(trace, manifest.value.issue, HeadRead(trace))
  {
    hide Stuck, LastReply, Cleared, Gated, MergeGated, Prepared, IsIssueBranch, IsHex;
    NothingPublished([]);
    trace := [];
    if manifest.None? {
      return Failed, trace;
    }
    var branch, head, ok;
    trace, branch, head, ok := Verify(manifest.value, run, read);
    NothingPublished(trace);
    if !ok {
      return Failed, trace;
    }
    ghost var verified := trace;
    var number;
    trace, number, ok := PublishBranch(trace, branch, head, run);
    assert trace[0] == verified[0] && trace[1] == verified[1];
    if !ok {
      return Failed, trace;
    }
    PreparedPushes(trace, 5, |trace|, branch, head, number);
    if !merge {
      return ReadyForReview(number), trace;
    }
    ghost var prepared := trace;
    trace, ok := MergeBranch(trace, manifest.value.issue, number, head, run);
    assert trace[0] == prepared[0] && trace[1] == prepared[1];
    PreparedKept(prepared, trace, 5, |prepared|, branch, head, number);
    assert PreparedIn(trace, |prepared|, number);
    outcome := if ok then Completed(number) else Failed;
  }
}
