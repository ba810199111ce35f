/**
 `prepare` and `evaluate`: long procedures that look at a changing environment again and again and
 must say PASS only when everything they saw lines up.
 */
module Harness {
  import opened Wrappers
  import opened Checks
  import opened PathPatterns
  import opened Risks
  import opened PlanLock
  import opened GitPaths
  import opened Observations

  // ----- the procedure

  datatype Inspection = Inspection(
    checks: seq<CheckResult>,
    plan: Option<Plan>,
    context: Option<GitContext>,
    lock: Option<Lock>,
    classification: Option<Classification>,
    changed: set<string>,
    diffHash: Option<string>)

  function EvaluationOf(r: Inspection, checks: seq<CheckResult>): Evaluation {
    Evaluation(
      AggregateState(checks), r.context,
      if r.plan.Some? then Some(r.plan.value.planHash) else None,
      if r.plan.Some? then r.plan.value.declaredRisks else {},
      if r.classification.Some? then r.classification.value.detected else {},
      r.changed, r.diffHash, checks)
  }

  lemma AppendPass(checks: seq<CheckResult>, c: CheckResult)
    ensures AllPass(checks + [c]) <==> AllPass(checks) && c.state == PASS
  {
    assert c in checks + [c];
    assert forall d :: d in checks ==> d in checks + [c];
  }

  class Script {
    var evidence: Evidence

    constructor (evidence: Evidence)
      ensures this.evidence == evidence
    {
      this.evidence := evidence;
    }

    // Clean worktree, policy, plan and git context; `error` is the exception, if any.
    static method LoadPlanAndContext(s: Start)
      returns (error: Option<CheckResult>, plan: Option<Plan>, context: Option<GitContext>)
      ensures error.None? <==> s.dirty == Seen({}) && s.policy.Seen? && s.plan.Seen? && s.context.Seen?
      ensures error.None? ==> plan == Some(s.plan.value) && context == Some(s.context.value)
      ensures error.Some? ==> error.value.state != PASS && StartReported(s, [error.value])
      ensures plan == if s.dirty == Seen({}) && s.policy.Seen? && s.plan.Seen? then Some(s.plan.value) else None
      ensures context == if Looked(s) then Some(s.context.value) else None
    {
      hide LockMatches;
      plan, context := None, None;
      if !s.dirty.Seen? {
        return Some(Caught(s.dirty)), plan, context;
      }
      if s.dirty.value != {} {
        return Some(CheckResult("git.clean", REPLAN_REQUIRED)), plan, context;
      }
      if !s.policy.Seen? {
        return Some(Caught(s.policy)), plan, context;
      }
      if !s.plan.Seen? {
        return Some(Caught(s.plan)), plan, context;
      }
      plan := Some(s.plan.value);
      if !s.context.Seen? {
        return Some(Caught(s.context)), plan, context;
      }
      context := Some(s.context.value);
      error := None;
    }

    // The plan lock against plan and context.
    static method CheckLock(s: Start, plan: Plan, context: GitContext)
      returns (error: Option<CheckResult>, lock: Option<Lock>)
      requires Looked(s) && plan == s.plan.value && context == s.context.value
      ensures error.None? <==> s.lockPath.Seen? && s.lock.Seen? && LockMatches(s.lock.value, plan, context)
      ensures lock == if LockRead(s) then Some(s.lock.value) else None
      ensures error.Some? ==> error.value.state != PASS && StartReported(s, [error.value])
    {
      hide LockMatches;
      if !s.lockPath.Seen? {
        return Some(Caught(s.lockPath)), None;
      }
      if !s.lock.Seen? {
        return Some(Caught(s.lock)), None;
      }
      lock := Some(s.lock.value);
      error := if LockMatches(s.lock.value, plan, context) then None else Some(LOCK_ERROR);
    }

    // Migrations and scope.
    static method CheckScope(s: Start) returns (error: Option<CheckResult>, checks: seq<CheckResult>)
      requires Identified(s)
      ensures error.None? <==> MigrationsFine(s) && InScope(s)
      ensures error.None? ==> checks == INLINE_PASSES[1..3]
      ensures error.Some? ==>
                error.value.state != PASS && ScopeReported(s, [INLINE_PASSES[0]] + checks + [error.value])
    {
      hide LockMatches;
      checks := [];
      if !s.migrations.Seen? {
        return Some(Caught(s.migrations)), checks;
      }
      MigrationVerdicts(s.migrations.value, s.changed.value);
      ScopeRespected(s.changed.value, s.plan.value);
      var verdict := MigrationCheck(s.migrations.value, s.changed.value);
      if verdict == Unreported {
        return Some(CheckResult("git.diff", FAIL)), checks;
      }
      if verdict == Modified {
        return Some(CheckResult("migration.immutable", FAIL)), checks;
      }
      checks := [CheckResult("migration.immutable", PASS)];
      if ScopeViolations(s.changed.value, s.plan.value) != {} {
        return Some(CheckResult("scope.allowed-paths", REPLAN_REQUIRED)), checks;
      }
      checks := checks + [CheckResult("scope.allowed-paths", PASS)];
      error := None;
    }

    // Risk classification and declaration, protected paths, required ids.
    static method CheckRisks(s: Start)
      returns (error: Option<CheckResult>, checks: seq<CheckResult>, classification: Classification,
               requested: Option<seq<string>>)
      requires Identified(s)
      ensures error.None? <==> RisksDeclared(s)
      ensures error.None? ==> checks == INLINE_PASSES[3..] && requested.Some?
                              && IsRequest(requested, s.plan.value.declaredRisks, s.policy.value)
      ensures error.Some? ==>
                error.value.state != PASS && RisksReported(s, INLINE_PASSES[..3] + checks + [error.value])
      ensures forall risk :: risk in classification.detected <==>
                IsDetected(risk, s.changed.value, s.policy.value, s.plan.value.relativePath)
    {
      ProtectionRespected(s.changed.value, s.plan.value, s.policy.value);
      var plan, policy, changed := s.plan.value, s.policy.value, s.changed.value;
      checks, requested := [], None;
      classification := ClassifyRisks(changed, policy, plan.relativePath);
      if classification.unclassified != {} {
        var path :| path in classification.unclassified;
        assert IsUnclassified(path, changed, policy, plan.relativePath);
        return Some(CheckResult("risk.classification", REPLAN_REQUIRED)), checks, classification, None;
      }
      checks := [CheckResult("risk.classification", PASS)];
      var undeclared := classification.detected - plan.declaredRisks;
      if undeclared != {} {
        var risk :| risk in undeclared;
        assert IsDetected(risk, changed, policy, plan.relativePath);
        return Some(CheckResult("risk.declaration", REPLAN_REQUIRED)), checks, classification, None;
      }
      forall risk | IsDetected(risk, changed, policy, plan.relativePath) ensures risk in plan.declaredRisks {
        assert risk in classification.detected && risk !in undeclared;
      }
      checks := checks + [CheckResult("risk.declaration", PASS)];
      if UndeclaredProtected(changed, plan, policy) != {} {
        return Some(CheckResult("trust-root.contract", REPLAN_REQUIRED)), checks, classification, None;
      }
      checks := checks + [CheckResult("trust-root.contract", PASS)];
      requested := RequiredCheckIds(plan, classification.detected, policy);
      assert plan.declaredRisks + classification.detected == plan.declaredRisks by {
        assert forall risk :: risk in classification.detected ==> risk !in undeclared;
      }
      error := if requested.Some? then None else Some(CheckResult("harness.internal", FAIL));
    }

    // The body of the first try block; `error` is the exception that ends it.
    method InspectBody(s: Start) returns (error: Option<CheckResult>, r: Inspection)
      modifies this
      ensures error.Some? && error.value.state == PASS <==> RunnerCalled(s) && PassRaised(s.runner)
      ensures error.Some? && error.value.state == PASS ==>
                r.checks == INLINE_PASSES && error.value == CaughtReply(s.runner)
      ensures error.None? <==> RunnerCalled(s) && s.runner.Returned?
      ensures error.None? ==>
                if RunnerComplete(s.runner.value, s.plan.value.declaredRisks, s.policy.value)
                then r.checks == INLINE_PASSES + RunnerResults(s)
                else RUNNER_ERROR in r.checks
      ensures StartReported(s, if error.Some? then r.checks + [error.value] else r.checks)
      ensures r.plan == if s.dirty == Seen({}) && s.policy.Seen? && s.plan.Seen? then Some(s.plan.value) else None
      ensures r.context == if Looked(s) then Some(s.context.value) else None
      ensures r.lock == if LockRead(s) then Some(s.lock.value) else None
      ensures r.changed == ChangedSeen(s)
      ensures DetectedSeen(s, if r.classification.Some? then r.classification.value.detected else {})
      ensures r.diffHash.Some? <==> Identified(s)
      ensures Identified(s) ==>
                && r.plan == Some(s.plan.value) && r.context == Some(s.context.value) && r.lock == Some(s.lock.value)
                && r.changed == s.changed.value && r.diffHash == Some(s.diffHash.value)
      ensures evidence == AfterRunner(s, RunnerCalled(s), old(evidence))
    {
      hide LockMatches, RisksDeclared, RunnerComplete, RunnerResults, MigrationsFine, InScope, ProtectedDeclared;
      hide RisksReported, ScopeReported, RunnerReported;
      r := Inspection([], None, None, None, None, {}, None);
      var plan, context;
      error, plan, context := LoadPlanAndContext(s);
      r := r.(plan := plan, context := context);
      if error.Some? {
        return;
      }
      var lock;
      error, lock := CheckLock(s, plan.value, context.value);
      r := r.(lock := lock);
      if error.Some? {
        return;
      }
      r := r.(checks := [CheckResult("plan.lock", PASS)]);
      if !s.changed.Seen? {
        return Some(Caught(s.changed)), r;
      }
      r := r.(changed := s.changed.value);
      if !s.diffHash.Seen? {
        return Some(Caught(s.diffHash)), r;
      }
      r := r.(diffHash := Some(s.diffHash.value));
      error, r := Judge(s, r);
    }

    // What follows the diff hash in the first try block.
    method Judge(s: Start, r0: Inspection) returns (error: Option<CheckResult>, r: Inspection)
      requires Identified(s) && r0.checks == [INLINE_PASSES[0]] && r0.classification.None?
      modifies this
      ensures error.None? <==> InPolicy(s) && s.runner.Returned?
      ensures error.None? ==>
                if RunnerComplete(s.runner.value, s.plan.value.declaredRisks, s.policy.value)
                then r.checks == INLINE_PASSES + RunnerResults(s)
                else RUNNER_ERROR in r.checks
      ensures ScopeReported(s, if error.Some? then r.checks + [error.value] else r.checks)
      ensures MigrationsFine(s) && InScope(s) ==>
                RisksReported(s, if error.Some? then r.checks + [error.value] else r.checks)
      ensures InPolicy(s) ==> RunnerReported(s, if error.Some? then r.checks + [error.value] else r.checks)
      ensures r.classification.Some? <==> MigrationsFine(s) && InScope(s)
      ensures r.classification.Some? ==> forall risk :: risk in r.classification.value.detected <==>
                IsDetected(risk, s.changed.value, s.policy.value, s.plan.value.relativePath)
      ensures r == r0.(checks := r.checks, classification := r.classification)
      ensures error.Some? && error.value.state == PASS <==> InPolicy(s) && PassRaised(s.runner)
      ensures error.Some? && error.value.state == PASS ==>
                r.checks == INLINE_PASSES && error.value == CaughtReply(s.runner)
      ensures evidence == AfterRunner(s, InPolicy(s), old(evidence))
    {
      hide ScopeReported, RisksReported, MigrationsFine, InScope, RisksDeclared, FirstResults;
      r := r0;
      var scope, risks, classification, requested;
      error, scope := CheckScope(s);
      r := r.(checks := r.checks + scope);
      if error.Some? {
        return;
      }
      error, risks, classification, requested := CheckRisks(s);
      assert r.checks == INLINE_PASSES[..3];
      r := r.(checks := r.checks + risks, classification := Some(classification));
      if error.Some? {
        FineReported(s, r.checks + [error.value]);
        return;
      }
      assert r.checks == INLINE_PASSES by {
        assert r.checks == INLINE_PASSES[..1] + INLINE_PASSES[1..3] + INLINE_PASSES[3..];
      }
      if s.runnerWrites.Some? {
        evidence := s.runnerWrites.value;
      }
      if !s.runner.Returned? {
        FineReported(s, r.checks + [CaughtReply(s.runner)]);
        return Some(CaughtReply(s.runner)), r;
      }
      var results, runnerError := ValidateCheckRunnerResults(s.runner.value, requested.value);
      AcceptedIsComplete(s.runner.value, requested.value, s.plan.value.declaredRisks, s.policy.value);
      r := r.(checks := r.checks + results);
      if runnerError.Some? {
        r := r.(checks := r.checks + [runnerError.value]);
      }
      FineReported(s, r.checks);
    }

    // The first try block of evaluate with its handlers.
    method Inspect(s: Start) returns (r: Inspection)
      modifies this
      ensures AllPass(r.checks) <==> StartPasses(s)
      ensures StartPasses(s) ==> r.checks == INLINE_PASSES + RunnerResults(s)
      ensures StartReported(s, r.checks)
      ensures r.plan == if s.dirty == Seen({}) && s.policy.Seen? && s.plan.Seen? then Some(s.plan.value) else None
      ensures r.context == if Looked(s) then Some(s.context.value) else None
      ensures r.lock == if LockRead(s) then Some(s.lock.value) else None
      ensures r.changed == ChangedSeen(s)
      ensures DetectedSeen(s, if r.classification.Some? then r.classification.value.detected else {})
      ensures r.diffHash.Some? <==> Identified(s)
      ensures Identified(s) ==>
                && r.plan == Some(s.plan.value) && r.context == Some(s.context.value) && r.lock == Some(s.lock.value)
                && r.changed == s.changed.value && r.diffHash == Some(s.diffHash.value)
      ensures evidence == AfterRunner(s, RunnerCalled(s), old(evidence))
    {
      hide StartReported, LockMatches;
      var error;
      error, r := InspectBody(s);
      if error.Some? {
        AppendPass(r.checks, error.value);
        InlinePassesPass();
        r := r.(checks := r.checks + [error.value]);
      } else if RunnerComplete(s.runner.value, s.plan.value.declaredRisks, s.policy.value) {
        InlinePassesPass();
        PassConcat(INLINE_PASSES, Converted(s.runner.value.value));
      }
    }

    // `_freshness_check`
    static method Freshness(e: End, plan: Plan, context: GitContext, changed: set<string>, diffHash: string)
      returns (check: CheckResult, plan': Option<Plan>, context': Option<GitContext>)
      ensures check.state == PASS <==> Fresh(e, plan, context, changed, diffHash)
      ensures IsFreshness(check, e, plan, context, changed, diffHash)
      ensures plan' == (if Readable(e) then Some(e.plan.value) else None)
      ensures context' == (if Readable(e) then Some(e.context.value) else None)
    {
      plan', context' := None, None;
      if !e.dirty.Seen? {
        return Stale(e.dirty), None, None;
      }
      if e.dirty.value != {} {
        return CheckResult("git.clean", REPLAN_REQUIRED), None, None;
      }
      if !e.policy.Seen? {
        return Stale(e.policy), None, None;
      }
      if !e.plan.Seen? {
        return Stale(e.plan), None, None;
      }
      if !e.context.Seen? {
        return Stale(e.context), None, None;
      }
      if !e.changed.Seen? {
        return Stale(e.changed), None, None;
      }
      if !e.diffHash.Seen? {
        return Stale(e.diffHash), None, None;
      }
      plan', context' := Some(e.plan.value), Some(e.context.value);
      var same :=
        && context.baseTipSha == context'.value.baseTipSha
        && context.mergeBaseSha == context'.value.mergeBaseSha
        && context.candidateHeadSha == context'.value.candidateHeadSha
        && context.testedRevisionSha == context'.value.testedRevisionSha
        && plan.relativePath == plan'.value.relativePath
        && plan.planHash == plan'.value.planHash
        && changed == e.changed.value
        && diffHash == e.diffHash.value;
      check := CheckResult("evidence.freshness", if same then PASS else REPLAN_REQUIRED);
    }

    // evaluate: PASS if and only if everything it saw lines up, or the runner raised a violation with state PASS
    // and everything else lines up.
    method Evaluate(w: World) returns (e: Evaluation)
      modifies this
      ensures e.state == PASS <==> Passes(w)
      ensures e.state == PASS ==>
                && e.checks == INLINE_PASSES + RunnerResults(w.start) + [CheckResult("evidence.freshness", PASS)]
                && e.context == Some(w.start.context.value) && e.changedPaths == w.start.changed.value
                && evidence == Evidence(Some(e), Object(PlanLockPayload(w.start.lock.value)))
      // What is reported: the first fault of the start, every fault of the end, and the worst state of all checks.
      ensures e.state == AggregateState(e.checks)
      ensures !w.root.Seen? ==> e.checks == [Caught(w.root)]
      ensures w.root.Seen? && !w.stale.Seen? ==> e.checks == [Caught(w.stale)]
      ensures Began(w) ==>
                && StartReported(w.start, e.checks) && EndReported(w.start, w.end, e.checks)
                && FinishReported(RestoresLock(w.start, w.end), w.finish, e.checks)
      // The fields, on every outcome: what was seen before the first fault, nothing else.
      ensures e.planHash == if PlanSeen(w) then Some(w.start.plan.value.planHash) else None
      ensures e.declaredRisks == if PlanSeen(w) then w.start.plan.value.declaredRisks else {}
      ensures e.context == if Began(w) && Looked(w.start) then Some(w.start.context.value) else None
      ensures e.changedPaths == if Began(w) then ChangedSeen(w.start) else {}
      ensures e.diffHash == if Began(w) && Identified(w.start) then Some(w.start.diffHash.value) else None
      ensures if Began(w) then DetectedSeen(w.start, e.detectedRisks) else e.detectedRisks == {}
      // The files, on every outcome. The lock is written only if it matches the ending plan and context.
      ensures !Began(w) ==> evidence == old(evidence)
      ensures Began(w) ==>
                var left := AfterRunner(w.start, RunnerCalled(w.start), old(evidence).(evaluation := None));
                && evidence.lock == (if WritesLock(w) then Object(PlanLockPayload(w.start.lock.value)) else left.lock)
                && evidence.evaluation == (if WritesEvaluation(w) then Some(e) else left.evaluation)
      // Fail closed: unless the runner itself leaves an evaluation, the file holds this evaluation or nothing.
      ensures w.root.Seen? && w.stale.Seen? && evidence.evaluation.Some?
              && (w.start.runnerWrites.None? || w.start.runnerWrites.value.evaluation.None?) ==>
                evidence.evaluation.value == e
    {
      var none := Inspection([], None, None, None, None, {}, None);
      if !w.root.Seen? {
        AggregateIsWorst([Caught(w.root)]);
        assert !AllPass([Caught(w.root)]) by { assert Caught(w.root) in [Caught(w.root)]; }
        return EvaluationOf(none, [Caught(w.root)]);
      }
      if !w.stale.Seen? {
        AggregateIsWorst([Caught(w.stale)]);
        assert !AllPass([Caught(w.stale)]) by { assert Caught(w.stale) in [Caught(w.stale)]; }
        return EvaluationOf(none, [Caught(w.stale)]);
      }
      hide StartReported, EndReported, FinishReported, DetectedSeen, ChangedSeen, LockMatches, StartLinesUp, InPolicy;
      hide AllPass, RunnerResults, AggregateState, PlanLockPayload, RunnerCalled, AfterRunner;
      evidence := evidence.(evaluation := None);
      var r := Inspect(w.start);
      var checks, restore := Conclude(r, w);
      e := Write(r, checks, restore, w.finish);
      AggregateIsWorst(e.checks);
      ReportedKept(w.start, r.checks, e.checks);
      EndKept(w.start, w.end, checks, e.checks);
    }

    // The evidence paths are looked at once more, then the lock and the evaluation are written.
    method Write(r: Inspection, checks: seq<CheckResult>, restore: bool, f: Finish) returns (e: Evaluation)
      requires restore ==> r.lock.Some?
      modifies this
      ensures e == EvaluationOf(r, e.checks) && checks <= e.checks
      ensures FinishReported(restore, f, e.checks)
      ensures AllPass(e.checks) <==>
                && AllPass(checks) && f.evaluationPath == Seen(true) && f.evaluationWritten
                && (restore ==> f.lockPath == Seen(true) && f.lockWritten)
      ensures AllPass(e.checks) ==> e.checks == checks
      ensures evidence.lock
           == if restore && f.evaluationPath == Seen(true) && f.lockPath == Seen(true) && f.lockWritten
              then Object(PlanLockPayload(r.lock.value)) else old(evidence).lock
      ensures evidence.evaluation
           == if f.evaluationPath == Seen(true) && f.evaluationWritten
                 && (restore ==> f.lockPath == Seen(true) && f.lockWritten)
              then Some(e) else old(evidence).evaluation
    {
      var paths, canWrite := Recheck(checks, restore, f);
      e := EvaluationOf(r, paths);
      if canWrite {
        var written := true;
        if restore {
          if f.lockWritten {
            evidence := evidence.(lock := Object(PlanLockPayload(r.lock.value)));
          } else {
            written := false;
          }
        }
        if written && f.evaluationWritten {
          evidence := evidence.(evaluation := Some(e));
        } else {
          var failed := paths + [CheckResult("evidence.write", FAIL)];
          AppendPass(paths, CheckResult("evidence.write", FAIL));
          e := EvaluationOf(r, failed);
        }
      }
    }

    // The freshness check and the decision to restore the plan lock.
    static method Conclude(r: Inspection, w: World) returns (checks: seq<CheckResult>, restore: bool)
      requires AllPass(r.checks) <==> StartPasses(w.start)
      requires r.diffHash.Some? <==> Identified(w.start)
      requires r.lock == if LockRead(w.start) then Some(w.start.lock.value) else None
      requires Identified(w.start) ==>
                 && r.plan == Some(w.start.plan.value) && r.context == Some(w.start.context.value)
                 && r.lock == Some(w.start.lock.value)
                 && r.changed == w.start.changed.value && r.diffHash == Some(w.start.diffHash.value)
      ensures AllPass(checks) <==>
                && StartPasses(w.start)
                && Fresh(w.end, w.start.plan.value, w.start.context.value, w.start.changed.value,
                         w.start.diffHash.value)
                && LockMatches(w.start.lock.value, w.end.plan.value, w.end.context.value)
      ensures AllPass(checks) ==> restore && checks == r.checks + [CheckResult("evidence.freshness", PASS)]
      ensures restore <==> RestoresLock(w.start, w.end)
      ensures r.lock.Some? && !restore ==> !AllPass(checks)
      ensures r.checks <= checks && EndReported(w.start, w.end, checks)
      ensures |checks| == |r.checks| + (if Identified(w.start) then 1 else 0)
                                     + (if LockRead(w.start) && !restore then 1 else 0)
    {
      checks, restore := r.checks, false;
      var plan': Option<Plan>, context': Option<GitContext> := None, None;
      if r.plan.Some? && r.context.Some? && r.diffHash.Some? {
        var freshness;
        freshness, plan', context' := Freshness(w.end, r.plan.value, r.context.value, r.changed, r.diffHash.value);
        AppendPass(checks, freshness);
        checks := checks + [freshness];
      }
      if r.lock.Some? {
        if plan'.None? || context'.None? {
          AppendPass(checks, CheckResult("plan.lock.restore", BLOCKED));
          checks := checks + [CheckResult("plan.lock.restore", BLOCKED)];
        } else if !LockMatches(r.lock.value, plan'.value, context'.value) {
          AppendPass(checks, CheckResult("plan.lock.restore", REPLAN_REQUIRED));
          checks := checks + [CheckResult("plan.lock.restore", REPLAN_REQUIRED)];
        } else {
          restore := true;
        }
      }
    }

    // The evidence paths are looked at once more before anything is written.
    static method Recheck(checks: seq<CheckResult>, restore: bool, f: Finish)
      returns (checks': seq<CheckResult>, canWrite: bool)
      ensures canWrite <==> f.evaluationPath == Seen(true) && (restore ==> f.lockPath == Seen(true))
      ensures canWrite ==> checks' == checks
      ensures !canWrite ==> !AllPass(checks')
      ensures checks <= checks'
      ensures f.evaluationPath != Seen(true) ==> checks' == checks + [PathCheck(f.evaluationPath)]
      ensures f.evaluationPath == Seen(true) && restore && f.lockPath != Seen(true) ==>
                checks' == checks + [PathCheck(f.lockPath)]
    {
      checks', canWrite := checks, true;
      if !f.evaluationPath.Seen? || !f.evaluationPath.value {
        var c := PathCheck(f.evaluationPath);
        AppendPass(checks, c);
        return checks + [c], false;
      }
      if restore && (!f.lockPath.Seen? || !f.lockPath.value) {
        var c := PathCheck(f.lockPath);
        AppendPass(checks, c);
        return checks + [c], false;
      }
    }
  }

  lemma PassConcat(a: seq<CheckResult>, b: seq<CheckResult>)
    ensures AllPass(a + b) <==> AllPass(a) && AllPass(b)
  {
    assert forall c :: c in a + b <==> c in a || c in b;
  }

  lemma InlinePassesPass()
    ensures AllPass(INLINE_PASSES)
  {
  }

  // Accepting the answer to a request is having every check the risks ask for.
  lemma AcceptedIsComplete(raw: Option<seq<Candidate>>, requested: seq<string>, risks: set<string>, policy: RiskPolicy)
    requires IsRequest(Some(requested), risks, policy)
    ensures Accepted(raw, requested) <==> RunnerComplete(raw, risks, policy)
  {
    assert requested == [requested[0], requested[1]] + requested[2..];
    assert "gradle.test" in requested;
    forall id ensures id in RequiredIds(requested) <==>
        id == "harness.unit" || id == "gradle.test" || id in ENVIRONMENT_IDS || IsRiskCheck(id, risks, policy)
    {
      assert id in requested <==> id == requested[0] || id == requested[1] || id in requested[2..];
    }
  }

  // ----- no risk escapes

  // The path is allowed and classified, declared if it is protected, and every risk of every rule that matches it
  // is declared.
  ghost predicate Declared(plan: Plan, policy: RiskPolicy, path: string) {
    && MatchesAny(plan.allowedPaths, path)
    && (exists rule :: rule in policy.rules && MatchesAny(rule.patterns, path))
    && (MatchesAny(policy.protectedPatterns, path) ==> path in plan.contractPaths)
    && forall rule, risk :: rule in policy.rules && MatchesAny(rule.patterns, path) && risk in rule.risks ==>
         risk in plan.declaredRisks && risk in policy.riskChecks
  }

  // Moreover every check of each such risk is among the results, with PASS.
  ghost predicate Accounted(plan: Plan, policy: RiskPolicy, results: seq<CheckResult>, path: string) {
    && Declared(plan, policy, path)
    && forall rule, risk :: rule in policy.rules && MatchesAny(rule.patterns, path) && risk in rule.risks ==>
         forall id :: id in policy.riskChecks[risk] ==> CheckResult(id, PASS) in results
  }

  // Without a violation of state PASS from the runner, the verdict is PASS exactly when everything lines up.
  lemma PassesIffLinesUp(w: World)
    ensures Passes(w) && !PassRaised(w.start.runner) <==> LinesUp(w)
  {
  }

  // When evaluate says PASS, every collected path except the plan is declared; it is accounted for as well if the
  // runner raised no violation of state PASS.
  lemma NoRiskEscapes(w: World, path: string)
    requires Passes(w) && path in w.start.changed.value && path != w.start.plan.value.relativePath
    ensures Declared(w.start.plan.value, w.start.policy.value, path)
    ensures !PassRaised(w.start.runner) ==>
              Accounted(w.start.plan.value, w.start.policy.value, INLINE_PASSES + RunnerResults(w.start), path)
  {
    var s := w.start;
    var plan, policy, changed := s.plan.value, s.policy.value, s.changed.value;
    assert path !in ScopeViolations(changed, plan);
    assert path !in UndeclaredProtected(changed, plan, policy);
    assert !IsUnclassified(path, changed, policy, plan.relativePath);
    forall rule, risk | rule in policy.rules && MatchesAny(rule.patterns, path) && risk in rule.risks
      ensures risk in plan.declaredRisks && risk in policy.riskChecks
      ensures !PassRaised(s.runner) ==> forall id :: id in policy.riskChecks[risk] ==>
                CheckResult(id, PASS) in INLINE_PASSES + RunnerResults(s)
    {
      assert IsDetected(risk, changed, policy, plan.relativePath);
      if !PassRaised(s.runner) {
        forall id | id in policy.riskChecks[risk] ensures CheckResult(id, PASS) in INLINE_PASSES + RunnerResults(s) {
          RiskCheckPresent(s, risk, id);
        }
      }
    }
  }

  // From the repository to the verdict: when evaluate looked at the streams of a repository and says PASS, every
  // path on which merge base and worktree differ is declared, and accounted for under the same condition,
  // untracked ignored files and the plan apart.
  lemma NoChangeEscapes(
    w: World, repo: Repo, committed: string, cached: string, unstaged: string, untracked: string, path: Path)
    requires ChangeStreams(repo, committed, cached, unstaged, untracked)
    requires w.start.changed.Seen?
             && Collected(committed, cached, unstaged, untracked) == Some(w.start.changed.value)
    requires Passes(w) && Changed(repo, path) && path != w.start.plan.value.relativePath
    ensures Declared(w.start.plan.value, w.start.policy.value, path)
    ensures !PassRaised(w.start.runner) ==>
              Accounted(w.start.plan.value, w.start.policy.value, INLINE_PASSES + RunnerResults(w.start), path)
  {
    hide Declared, Accounted, Changed, Collected, ChangeStreams, RunnerResults, InPolicy;
    CollectMissesNothing(repo, committed, cached, unstaged, untracked);
    NoRiskEscapes(w, path);
  }

  // Nor does a changed migration: on PASS every migration of the merge base is in the worktree, unchanged.
  lemma NoMigrationEscapes(w: World, repo: Repo, committed: string, cached: string, unstaged: string, path: Path)
    requires Passes(w) && MigrationStreams(repo, w.start.migrations.value, committed, cached, unstaged)
    requires path in repo.base && "src/main/resources/db/migration/" <= path
    ensures path in repo.worktree && repo.worktree[path] == repo.base[path]
  {
    PassedMigrationsAgree(repo, w.start.migrations.value, committed, cached, unstaged, w.start.changed.value, path);
  }

  // The condition is needed: wherever the runner is called and the end lines up, a runner that only raises a
  // violation of state PASS makes evaluate say PASS with one check of the runner's own naming.
  lemma RaisedPassPasses(w: World, id: string)
    requires w.root.Seen? && w.stale.Seen? && RunnerCalled(w.start) && EndLinesUp(w)
    ensures var w' := w.(start := w.start.(runner := Raised(id, PASS)));
      Passes(w') && !LinesUp(w') && RunnerResults(w'.start) == [CheckResult(id, PASS)]
  {
    var w' := w.(start := w.start.(runner := Raised(id, PASS)));
    assert Identified(w'.start) && InPolicy(w'.start);
  }

  // Such a world exists for every plan without declared risks, although not even the fixed checks have run.
  lemma ChecksCanBeSkipped(plan: Plan, context: GitContext) returns (w: World)
    requires plan.declaredRisks == {}
    ensures Passes(w) && !LinesUp(w) && w.start.plan == Seen(plan) && w.start.context == Seen(context)
    ensures forall c :: c in RunnerResults(w.start) ==> c.checkId != "harness.unit" && c.checkId != "gradle.test"
  {
    w := PassIsPossible(plan, context, {});
    RaisedPassPasses(w, "raised");
    w := w.(start := w.start.(runner := Raised("raised", PASS)));
  }

  lemma RiskCheckPresent(s: Start, risk: string, id: string)
    requires StartLinesUp(s) && risk in s.plan.value.declaredRisks
    requires risk in s.policy.value.riskChecks && id in s.policy.value.riskChecks[risk]
    ensures CheckResult(id, PASS) in INLINE_PASSES + RunnerResults(s)
  {
    var results := RunnerResults(s);
    if id in INLINE_CHECK_IDS {
      assert INLINE_PASSES[2].checkId == id || INLINE_PASSES[3].checkId == id || INLINE_PASSES[4].checkId == id;
      assert CheckResult(id, PASS) in INLINE_PASSES;
    } else {
      assert id in Ids(results);
      var c :| c in results && c.checkId == id;
      assert c == CheckResult(id, PASS);
    }
  }

  // ----- the built-in runner

  // A declared risk with a malformed check id rules out PASS for every runner that raises no violation of state PASS.
  lemma MalformedIdNeverPasses(w: World, risk: string, id: string)
    requires w.start.plan.Seen? && w.start.policy.Seen?
    requires risk in w.start.plan.value.declaredRisks && risk in w.start.policy.value.riskChecks
    requires id in w.start.policy.value.riskChecks[risk] && !WellFormedId(id)
    ensures Passes(w) ==> PassRaised(w.start.runner)
  {
    if LinesUp(w) {
      FixedIds(w.start.policy.value);
      InlineIdsWellFormed(id);
      ConvertedIdsWellFormed(w.start.runner.value.value);
      assert IsRiskCheck(id, w.start.plan.value.declaredRisks, w.start.policy.value);
    }
  }

  lemma InlineIdsWellFormed(id: string)
    ensures id in INLINE_CHECK_IDS ==> WellFormedId(id)
  {
  }

  // Exactly when the built-in runner, asked for what the risks need, answers completely: no check id of a risk is
  // malformed or names an environment check.
  lemma BuiltInRunnerCompleteIff(
    requested: seq<string>, risks: set<string>, policy: RiskPolicy, execute: string -> State, p: Preflight)
    requires IsRequest(Some(requested), risks, policy)
    ensures RunnerComplete(Some(AsCandidates(AllResults(requested, execute, p))), risks, policy)
       <==> forall id :: IsRiskCheck(id, risks, policy) ==> WellFormedId(id) && id !in ENVIRONMENT_IDS
  {
    hide WellFormedId, ENVIRONMENT_IDS, AllResults, RunnerComplete, Accepted, IsRiskCheck;
    BuiltInRunnerAccepted(requested, execute, p);
    AcceptedIsComplete(Some(AsCandidates(AllResults(requested, execute, p))), requested, risks, policy);
    RequestParts(requested, risks, policy);
  }

  lemma RequestParts(requested: seq<string>, risks: set<string>, policy: RiskPolicy)
    requires IsRequest(Some(requested), risks, policy)
    ensures Distinct(requested)
    ensures Doubled(requested) <==> exists id :: IsRiskCheck(id, risks, policy) && id in ENVIRONMENT_IDS
    ensures (forall id :: id in requested ==> WellFormedId(id))
       <==> forall id :: IsRiskCheck(id, risks, policy) ==> WellFormedId(id)
  {
    var rest := requested[2..];
    assert requested == FIXED_IDS + rest;
    assert forall id :: id in requested <==> id == FIXED_IDS[0] || id == FIXED_IDS[1] || id in rest;
    assert forall id :: id in FIXED_IDS ==> WellFormedId(id) && id !in ENVIRONMENT_IDS by {
      FixedIds(policy);
    }
    forall i, j | 0 <= i < j < |requested| ensures requested[i] != requested[j] {
      if j >= 2 {
        assert requested[j] == rest[j - 2] && IsRiskCheck(rest[j - 2], risks, policy);
        if i >= 2 {
          assert requested[i] == rest[i - 2];
        }
      }
    }
  }

  // Exactly when evaluate gets past the built-in runner: the fixed commands and the environment succeed, and every
  // check of every declared risk has a command, which succeeds.
  lemma BuiltInRunnerLinesUpIff(s: Start, requested: seq<string>, execute: string -> State, p: Preflight)
    requires Identified(s) && InPolicy(s)
    requires IsRequest(Some(requested), s.plan.value.declaredRisks, s.policy.value)
    requires s.runner == Returned(Some(AsCandidates(AllResults(requested, execute, p))))
    ensures StartPasses(s)
       <==> && execute("harness.unit") == PASS && execute("gradle.test") == PASS
            && p == Preflight(PASS, PASS, PASS, PASS)
            && forall id :: IsRiskCheck(id, s.plan.value.declaredRisks, s.policy.value) ==>
                 HasCommand(id) && execute(id) == PASS
  {
    hide InPolicy, IsRiskCheck, WellFormedId, ENVIRONMENT_IDS, HasCommand, AllResults, RunnerComplete;
    var risks, policy := s.plan.value.declaredRisks, s.policy.value;
    var results := AllResults(requested, execute, p);
    BuiltInRunnerPasses(requested, execute, p);
    BuiltInRunnerCompleteIff(requested, risks, policy, execute, p);
    FixedIds(policy);
    RequestMembers(requested, risks, policy);
    forall id | HasCommand(id) ensures WellFormedId(id) && id !in ENVIRONMENT_IDS {
      CommandIdsFit(id);
    }
    if RunnerComplete(s.runner.value, risks, policy) {
      CompleteConverts(results, risks, policy);
    }
  }

  lemma CompleteConverts(results: seq<CheckResult>, risks: set<string>, policy: RiskPolicy)
    requires RunnerComplete(Some(AsCandidates(results)), risks, policy)
    ensures Converted(AsCandidates(results)) == results
  {
    ConvertedResults(results);
  }

  lemma RequestMembers(requested: seq<string>, risks: set<string>, policy: RiskPolicy)
    requires IsRequest(Some(requested), risks, policy)
    ensures forall id :: id in requested <==> id in FIXED_IDS || IsRiskCheck(id, risks, policy)
  {
    assert requested == FIXED_IDS + requested[2..];
  }

  // So with the built-in runner a declared risk that asks for an environment check rules out PASS as well.
  lemma EnvironmentIdNeverPasses(
    w: World, requested: seq<string>, execute: string -> State, p: Preflight, risk: string, id: string)
    requires w.start.plan.Seen? && w.start.policy.Seen?
    requires IsRequest(Some(requested), w.start.plan.value.declaredRisks, w.start.policy.value)
    requires w.start.runner == Returned(Some(AsCandidates(AllResults(requested, execute, p))))
    requires risk in w.start.plan.value.declaredRisks && risk in w.start.policy.value.riskChecks
    requires id in w.start.policy.value.riskChecks[risk] && id in ENVIRONMENT_IDS
    ensures !Passes(w)
  {
    hide InPolicy, WellFormedId, ENVIRONMENT_IDS, AllResults, RunnerComplete, IsRequest, INLINE_CHECK_IDS;
    EnvironmentIdsAreRiskChecks(id);
    BuiltInRunnerCompleteIff(requested, w.start.plan.value.declaredRisks, w.start.policy.value, execute, p);
    assert IsRiskCheck(id, w.start.plan.value.declaredRisks, w.start.policy.value);
  }

  lemma EnvironmentIdsAreRiskChecks(id: string)
    requires id in ENVIRONMENT_IDS
    ensures id !in INLINE_CHECK_IDS && id != "harness.unit" && id != "gradle.test"
  {
    EnvironmentIdsStartAlike(id);
  }

  // PASS can be reached with any changes in scope: the plan itself and paths its patterns allow may change, if every
  // path is classified, no risk is declared, and the built-in runner finds everything in order.
  lemma PassIsPossible(plan: Plan, context: GitContext, changed: set<string>) returns (w: World)
    requires plan.declaredRisks == {}
    requires forall path :: path in changed && path != plan.relativePath ==>
               exists pattern :: pattern in plan.allowedPaths && PathMatches(pattern, path)
    ensures LinesUp(w) && w.start.plan == Seen(plan) && w.start.context == Seen(context)
    ensures w.start.changed == Seen(changed)
  {
    var rule := RiskRule(plan.allowedPaths, {});
    var policy := RiskPolicy([rule], [], map[]);
    var raw := CleanRun(policy);
    var start := Start(Seen({}), Seen(policy), Seen(plan), Seen(context), Seen(()), Seen(MakePlanLock(plan, context)),
                       Seen(changed), Seen("hash"), Seen(Migrations({}, {})), Returned(raw), None);
    var end := End(Seen({}), Seen(policy), Seen(plan), Seen(context), Seen(changed), Seen("hash"));
    w := World(Seen(()), Seen(()), start, end, Finish(Seen(true), Seen(true), true, true));
    assert rule in policy.rules;
    assert Identified(start) && InPolicy(start);
  }

  lemma CleanRun(policy: RiskPolicy) returns (raw: Option<seq<Candidate>>)
    ensures RunnerComplete(raw, {}, policy) && AllPass(Converted(raw.value))
  {
    hide AllResults, Converted, AsCandidates, IsRequest, WellFormedId, RunnerComplete, HasCommand;
    var execute, p := (_: string) => PASS, Preflight(PASS, PASS, PASS, PASS);
    var results := AllResults(FIXED_IDS, execute, p);
    FixedIds(policy);
    BuiltInRunnerPasses(FIXED_IDS, execute, p);
    BuiltInRunnerAccepted(FIXED_IDS, execute, p);
    raw := Some(AsCandidates(results));
    AcceptedIsComplete(raw, FIXED_IDS, {}, policy);
    ConvertedResults(results);
  }

  lemma FixedIds(policy: RiskPolicy)
    ensures IsRequest(Some(FIXED_IDS), {}, policy)
    ensures Distinct(FIXED_IDS)
    ensures forall id :: id in FIXED_IDS ==> id !in ENVIRONMENT_IDS && WellFormedId(id) && HasCommand(id)
  {
  }

  // ----- prepare

  datatype Glance = Glance(policy: Obs<RiskPolicy>, plan: Obs<Plan>, context: Obs<GitContext>, dirty: Obs<set<string>>)

  datatype PrepareWorld = PrepareWorld(
    root: Obs<()>,
    stale: Obs<()>,
    before: Glance,
    preflight: Reply<Option<seq<Candidate>>>,
    preflightWrites: Option<Evidence>,
    after: Glance,
    lockPath: Obs<()>,
    lockWritten: bool)

  ghost predicate Settled(g: Glance) {
    g.policy.Seen? && g.plan.Seen? && g.context.Seen? && g.dirty.Seen? && g.dirty.value <= {g.plan.value.relativePath}
  }

  ghost predicate PreflightComplete(raw: Option<seq<Candidate>>) {
    && raw.Some?
    && (forall c :: c in raw.value ==> WellFormed(c))
    && DistinctIds(Converted(raw.value))
    && Ids(Converted(raw.value)) == ENVIRONMENT_IDS
  }

  ghost predicate PrepareLinesUp(w: PrepareWorld) {
    && w.root.Seen? && w.stale.Seen?
    && Settled(w.before)
    && w.preflight.Returned? && PreflightComplete(w.preflight.value) && AllPass(Converted(w.preflight.value.value))
    && Settled(w.after)
    && LockMatches(MakePlanLock(w.before.plan.value, w.before.context.value), w.after.plan.value, w.after.context.value)
    && w.lockPath.Seen? && w.lockWritten
  }

  ghost predicate PreflightCalled(w: PrepareWorld) {
    w.root.Seen? && w.stale.Seen? && Settled(w.before)
  }

  // Wherever the preflight is called, one that only raises a violation of state PASS makes prepare say PASS,
  // whatever the looks after it would have seen.
  lemma RaisedPassPrepares(w: PrepareWorld, id: string)
    requires PreflightCalled(w)
    ensures var w' := w.(preflight := Raised(id, PASS));
      PreflightCalled(w') && PassRaised(w'.preflight) && !PrepareLinesUp(w')
  {
  }

  // Such a world exists for every plan and context.
  lemma PreflightCanBeSkipped(plan: Plan, context: GitContext) returns (w: PrepareWorld)
    ensures PreflightCalled(w) && PassRaised(w.preflight) && !PrepareLinesUp(w)
    ensures w.before.plan == Seen(plan) && w.before.context == Seen(context) && w.preflightWrites.None?
  {
    var glance := Glance(Seen(RiskPolicy([], [], map[])), Seen(plan), Seen(context), Seen({}));
    w := PrepareWorld(Seen(()), Seen(()), glance, Raised("raised", PASS), None, glance, Seen(()), true);
  }

  // The first look that gave no value, or a dirty path other than the plan.
  ghost predicate IsLookFault(g: Glance, fault: CheckResult) {
    if !g.policy.Seen? then fault == Caught(g.policy)
    else if !g.plan.Seen? then fault == Caught(g.plan)
    else if !g.context.Seen? then fault == Caught(g.context)
    else if !g.dirty.Seen? then fault == Caught(g.dirty)
    else fault == CheckResult("git.clean", REPLAN_REQUIRED) && exists path ::
      path in g.dirty.value && path != g.plan.value.relativePath
  }

  ghost predicate IsFirstFailure(checks: seq<CheckResult>, state: State) {
    exists i :: 0 <= i < |checks| && checks[i].state == state && forall j :: 0 <= j < i ==> checks[j].state == PASS
  }

  ghost predicate IsPrepareFault(w: PrepareWorld, state: State) {
    if !w.root.Seen? then state == Caught(w.root).state
    else if !w.stale.Seen? then state == Caught(w.stale).state
    else if !Settled(w.before) then exists fault :: IsLookFault(w.before, fault) && state == fault.state
    else if !w.preflight.Returned? then state == CaughtReply(w.preflight).state
    else if !PreflightComplete(w.preflight.value) then state == FAIL
    else if !AllPass(Converted(w.preflight.value.value))
    then IsFirstFailure(Converted(w.preflight.value.value), state)
    else if !Settled(w.after) then exists fault :: IsLookFault(w.after, fault) && state == fault.state
    else if !(&& w.after.plan.value.issue == w.before.plan.value.issue
              && w.after.plan.value.relativePath == w.before.plan.value.relativePath
              && w.after.plan.value.planHash == w.before.plan.value.planHash
              && w.after.plan.value.targetBranch == w.before.plan.value.targetBranch
              && w.after.context.value.branch == w.before.context.value.branch
              && w.after.context.value.baseTipSha == w.before.context.value.baseTipSha
              && w.after.context.value.mergeBaseSha == w.before.context.value.mergeBaseSha)
    then state == REPLAN_REQUIRED
    else if !w.lockPath.Seen? then state == Caught(w.lockPath).state
    else state == FAIL && !w.lockWritten
  }

  class Preparation {
    var evidence: Evidence

    constructor (evidence: Evidence)
      ensures this.evidence == evidence
    {
      this.evidence := evidence;
    }

    static method Look(g: Glance) returns (error: Option<CheckResult>)
      ensures error.None? <==> Settled(g)
      ensures error.Some? ==> error.value.state != PASS && IsLookFault(g, error.value)
    {
      if !g.policy.Seen? {
        return Some(Caught(g.policy));
      }
      if !g.plan.Seen? {
        return Some(Caught(g.plan));
      }
      if !g.context.Seen? {
        return Some(Caught(g.context));
      }
      if !g.dirty.Seen? {
        return Some(Caught(g.dirty));
      }
      var unexpected := g.dirty.value - {g.plan.value.relativePath};
      if unexpected != {} {
        assert exists path :: path in unexpected;
        return Some(CheckResult("git.clean", REPLAN_REQUIRED));
      }
      assert forall path :: path in g.dirty.value ==> path !in unexpected;
      return None;
    }

    // `validate_preflight_results`, then the first environment check that did not pass.
    static method CheckPreflight(raw: Option<seq<Candidate>>) returns (error: Option<State>)
      ensures error.None? <==> PreflightComplete(raw) && AllPass(Converted(raw.value))
      ensures error.Some? ==> error.value != PASS
      ensures !PreflightComplete(raw) ==> error == Some(FAIL)
      ensures PreflightComplete(raw) && error.Some? ==> IsFirstFailure(Converted(raw.value), error.value)
    {
      if raw.None? || exists c :: c in raw.value && !WellFormed(c) {
        return Some(FAIL);
      }
      var checks := Converted(raw.value);
      if !DistinctIds(checks) || Ids(checks) != ENVIRONMENT_IDS {
        return Some(FAIL);
      }
      for i := 0 to |checks|
        invariant AllPass(checks[..i])
      {
        if checks[i].state != PASS {
          assert checks[i] in checks;
          assert forall j :: 0 <= j < i ==> checks[..i][j] == checks[j];
          return Some(checks[i].state);
        }
        assert checks[..i + 1] == checks[..i] + [checks[i]];
        AppendPass(checks[..i], checks[i]);
      }
      assert checks[..|checks|] == checks;
      return None;
    }

    // prepare: PASS exactly when everything lines up, and then the lock is written; or when the preflight was called
    // and raised a violation with state PASS, and then nothing is written.
    method Prepare(w: PrepareWorld) returns (state: State)
      modifies this
      ensures state == PASS <==> PrepareLinesUp(w) || (PreflightCalled(w) && PassRaised(w.preflight))
      ensures PrepareLinesUp(w) ==>
                && evidence.lock == Object(PlanLockPayload(MakePlanLock(w.after.plan.value, w.after.context.value)))
                && MakePlanLock(w.after.plan.value, w.after.context.value)
                   == MakePlanLock(w.before.plan.value, w.before.context.value)
      ensures PrepareLinesUp(w) && ParsedPlan(w.after.plan.value)
              && ResolvedContext(w.after.context.value, w.after.plan.value.issue) ==>
                LoadPlanLock(evidence.lock) == Ok(MakePlanLock(w.after.plan.value, w.after.context.value))
      // Otherwise the state is that of the first fault.
      ensures state != PASS ==> IsPrepareFault(w, state)
      // The files on every other outcome: no lock but one the preflight itself leaves.
      ensures !w.root.Seen? || !w.stale.Seen? ==> evidence == old(evidence)
      ensures w.root.Seen? && w.stale.Seen? && !PrepareLinesUp(w) ==>
                evidence == if PreflightCalled(w) && w.preflightWrites.Some? then w.preflightWrites.value
                            else old(evidence).(lock := Missing)
      ensures w.root.Seen? && w.stale.Seen? && !PrepareLinesUp(w)
              && (w.preflightWrites.None? || w.preflightWrites.value.lock.Missing?) ==>
                evidence.lock == Missing && LoadPlanLock(evidence.lock).Err?
    {
      if !w.root.Seen? {
        return Caught(w.root).state;
      }
      if !w.stale.Seen? {
        return Caught(w.stale).state;
      }
      evidence := evidence.(lock := Missing);
      var error := Look(w.before);
      if error.Some? {
        return error.value.state;
      }
      var snapshot := MakePlanLock(w.before.plan.value, w.before.context.value);
      if w.preflightWrites.Some? {
        evidence := w.preflightWrites.value;
      }
      if !w.preflight.Returned? {
        return CaughtReply(w.preflight).state;
      }
      var failed := CheckPreflight(w.preflight.value);
      if failed.Some? {
        return failed.value;
      }
      error := Look(w.after);
      if error.Some? {
        return error.value.state;
      }
      if !LockMatches(snapshot, w.after.plan.value, w.after.context.value) {
        return LOCK_ERROR.state;
      }
      if !w.lockPath.Seen? {
        return Caught(w.lockPath).state;
      }
      if !w.lockWritten {
        return FAIL;
      }
      var lock := MakePlanLock(w.after.plan.value, w.after.context.value);
      evidence := evidence.(lock := Object(PlanLockPayload(lock)));
      if ParsedPlan(w.after.plan.value) && ResolvedContext(w.after.context.value, w.after.plan.value.issue) {
        LockRoundTrip(w.after.plan.value, w.after.context.value);
      }
      return PASS;
    }
  }
}
