/** Check results: how they aggregate, what a check runner must return, and what the built-in one returns. */
module Checks {
  import opened Wrappers
  import opened Text

  datatype State = PASS | FAIL | BLOCKED | REPLAN_REQUIRED

  // Every violation the harness raises carries one of the other three states.
  type NonPass = s: State | s != PASS witness FAIL

  datatype CheckResult = CheckResult(checkId: string, state: State)

  function Priority(s: State): nat {
    match s
    case PASS => 0
    case BLOCKED => 1
    case FAIL => 2
    case REPLAN_REQUIRED => 3
  }

  // `max` by priority, PASS for no checks.
  function AggregateState(checks: seq<CheckResult>): State {
    if checks == [] then PASS
    else
      var rest := AggregateState(checks[..|checks| - 1]);
      var last := checks[|checks| - 1].state;
      if Priority(last) > Priority(rest) then last else rest
  }

  predicate AllPass(checks: seq<CheckResult>) {
    forall c :: c in checks ==> c.state == PASS
  }

  // The aggregate is the worst state present: PASS means that every single check passed.
  lemma {:induction false} AggregateIsWorst(checks: seq<CheckResult>)
    ensures AggregateState(checks) == PASS <==> AllPass(checks)
    ensures forall c :: c in checks ==> Priority(c.state) <= Priority(AggregateState(checks))
    ensures checks != [] ==> exists c :: c in checks && c.state == AggregateState(checks)
    // A check that asks for a new plan beats a failed one, and that a blocked one.
    ensures AggregateState(checks) == REPLAN_REQUIRED <==> exists c :: c in checks && c.state == REPLAN_REQUIRED
    ensures AggregateState(checks) == FAIL
       <==> (exists c :: c in checks && c.state == FAIL) && forall c :: c in checks ==> c.state != REPLAN_REQUIRED
    ensures AggregateState(checks) == BLOCKED
       <==> (exists c :: c in checks && c.state == BLOCKED)
            && forall c :: c in checks ==> c.state != REPLAN_REQUIRED && c.state != FAIL
  {
    if checks != [] {
      var init, last := checks[..|checks| - 1], checks[|checks| - 1];
      AggregateIsWorst(init);
      assert forall c :: c in checks <==> c in init || c == last;
      if Priority(last.state) <= Priority(AggregateState(init)) && init != [] {
        var c :| c in init && c.state == AggregateState(init);
        assert c in checks;
      } else {
        assert last in checks;
      }
    }
  }

  const ENVIRONMENT_IDS: set<string> :=
    {"environment.python", "environment.java", "environment.docker", "environment.java17-toolchain"}
  const DOMAIN_ORACLE_IDS: set<string> :=
    {"oracle.architecture", "oracle.api-contract", "oracle.migration-fresh", "oracle.migration-upgrade",
     "oracle.transaction", "oracle.cross-domain-concurrency", "oracle.async-isolation", "oracle.multi-instance"}

  // ----- what a runner returns

  // One element of the runner's answer: any object, with the fields the schema check looks at.
  datatype Candidate =
    | Foreign
    | Reported(checkId: Option<string>, state: Option<State>, reasonIsText: bool, commandIsText: bool,
               exitCodeFits: bool, durationFits: bool)

  predicate WellFormedId(id: string) {
    id != "" && Stripped(id) && !HasControl(id)
  }

  predicate WellFormed(c: Candidate) {
    && c.Reported?
    && c.checkId.Some? && WellFormedId(c.checkId.value)
    && c.state.Some? && c.reasonIsText && c.commandIsText && c.exitCodeFits && c.durationFits
  }

  // What the schema check asks of one element of the answer.
  lemma WellFormedMeans(c: Candidate)
    ensures WellFormed(c)
       <==> && c.Reported? && c.state.Some? && c.reasonIsText && c.commandIsText && c.exitCodeFits && c.durationFits
            && c.checkId.Some? && var id := c.checkId.value;
               && id != "" && !IsSpace(id[0]) && !IsSpace(id[|id| - 1])
               && forall x :: x in id ==> !IsControl(x)
  {
    hide IsSpace, IsControl;
    if c.Reported? && c.checkId.Some? {
      var id := c.checkId.value;
      assert HasControl(id) <==> exists x :: x in id && IsControl(x);
    }
  }

  function Converted(cs: seq<Candidate>): seq<CheckResult>
    requires forall c :: c in cs ==> WellFormed(c)
  {
    if cs == [] then []
    else
      var last := cs[|cs| - 1];
      assert WellFormed(last);
      Converted(cs[..|cs| - 1]) + [CheckResult(last.checkId.value, last.state.value)]
  }

  predicate DistinctIds(checks: seq<CheckResult>) {
    forall i, j :: 0 <= i < j < |checks| ==> checks[i].checkId != checks[j].checkId
  }

  function Ids(checks: seq<CheckResult>): set<string> {
    set c | c in checks :: c.checkId
  }

  function RequiredIds(requested: seq<string>): set<string> {
    (set id | id in requested) + if "gradle.test" in requested then ENVIRONMENT_IDS else {}
  }

  // `raw` is None when the answer cannot be iterated.
  ghost predicate Accepted(raw: Option<seq<Candidate>>, requested: seq<string>) {
    && raw.Some?
    && (forall c :: c in raw.value ==> WellFormed(c))
    && DistinctIds(Converted(raw.value))
    && Ids(Converted(raw.value)) == RequiredIds(requested)
  }

  // What is reported beside an error: the results before the first malformed one, or all of them.
  ghost predicate FirstResults(raw: Option<seq<Candidate>>, valid: seq<CheckResult>) {
    && (raw.None? ==> valid == [])
    && (raw.Some? && (forall c :: c in raw.value ==> WellFormed(c)) ==> valid == Converted(raw.value))
    && (raw.Some? && !(forall c :: c in raw.value ==> WellFormed(c)) ==>
          exists k :: 0 <= k < |raw.value| && !WellFormed(raw.value[k])
            && (forall c :: c in raw.value[..k] ==> WellFormed(c)) && valid == Converted(raw.value[..k]))
  }

  const RUNNER_ERROR: CheckResult := CheckResult("checks.runner", FAIL)

  // No error exactly when the results are well formed and enumerate the required ids without repetition.
  method ValidateCheckRunnerResults(raw: Option<seq<Candidate>>, requested: seq<string>)
    returns (valid: seq<CheckResult>, error: Option<CheckResult>)
    ensures error.None? <==> Accepted(raw, requested)
    ensures error.None? ==> valid == Converted(raw.value)
    ensures error.Some? ==> error.value == CheckResult("checks.runner", FAIL)
    ensures FirstResults(raw, valid)
  {
    valid := [];
    if raw.None? {
      return valid, Some(RUNNER_ERROR);
    }
    var candidates := raw.value;
    for i := 0 to |candidates|
      invariant forall c :: c in candidates[..i] ==> WellFormed(c)
      invariant valid == Converted(candidates[..i])
    {
      var candidate := candidates[i];
      if !WellFormed(candidate) {
        assert candidate in candidates;
        return valid, Some(RUNNER_ERROR);
      }
      assert candidates[..i + 1][..i] == candidates[..i];
      valid := valid + [CheckResult(candidate.checkId.value, candidate.state.value)];
    }
    assert candidates[..|candidates|] == candidates;
    if !DistinctIds(valid) {
      return valid, Some(RUNNER_ERROR);
    }
    var checkIds := Ids(valid);
    var requestedSet := set id | id in requested;
    var missing := RequiredIds(requested) - checkIds;
    if missing != {} {
      assert exists id :: id in missing;
      return valid, Some(RUNNER_ERROR);
    }
    var allowedExtras := if "gradle.test" in requested then ENVIRONMENT_IDS else {};
    var unknownExtras := checkIds - requestedSet - allowedExtras;
    if unknownExtras != {} {
      assert exists id :: id in unknownExtras;
      return valid, Some(RUNNER_ERROR);
    }
    assert checkIds == RequiredIds(requested) by {
      forall id ensures id in checkIds <==> id in RequiredIds(requested) {
        assert id !in missing && id !in unknownExtras;
      }
    }
    return valid, None;
  }

  // ----- the built-in runner

  // The four environment checks, in the order they are made.
  datatype Preflight = Preflight(python: State, java: State, docker: State, toolchain: State)

  function EnvironmentChecks(p: Preflight): seq<CheckResult> {
    [CheckResult("environment.python", p.python), CheckResult("environment.java", p.java),
     CheckResult("environment.docker", p.docker), CheckResult("environment.java17-toolchain", p.toolchain)]
  }

  // The results for one requested id; `execute` is what running its command gives.
  function ResultsFor(id: string, execute: string -> State, p: Preflight): seq<CheckResult> {
    if id == "harness.unit" then [CheckResult(id, execute(id))]
    else if id == "gradle.test" then
      EnvironmentChecks(p) + [CheckResult(id, if AllPass(EnvironmentChecks(p)) then execute(id) else BLOCKED)]
    else if id in DOMAIN_ORACLE_IDS then [CheckResult(id, execute(id))]
    else [CheckResult(id, BLOCKED)]
  }

  function AllResults(ids: seq<string>, execute: string -> State, p: Preflight): seq<CheckResult> {
    if ids == [] then []
    else AllResults(ids[..|ids| - 1], execute, p) + ResultsFor(ids[|ids| - 1], execute, p)
  }

  method RunRequiredChecks(checkIds: seq<string>, execute: string -> State, p: Preflight)
    returns (checks: seq<CheckResult>)
    ensures checks == AllResults(checkIds, execute, p)
  {
    checks := [];
    for i := 0 to |checkIds|
      invariant checks == AllResults(checkIds[..i], execute, p)
    {
      var id := checkIds[i];
      assert checkIds[..i + 1][..i] == checkIds[..i];
      if id == "harness.unit" {
        checks := checks + [CheckResult(id, execute(id))];
      } else if id == "gradle.test" {
        var environment := EnvironmentChecks(p);
        checks := checks + environment;
        if AllPass(environment) {
          checks := checks + [CheckResult(id, execute(id))];
        } else {
          checks := checks + [CheckResult(id, BLOCKED)];
        }
      } else if id in DOMAIN_ORACLE_IDS {
        checks := checks + [CheckResult(id, execute(id))];
      } else {
        checks := checks + [CheckResult(id, BLOCKED)];
      }
    }
    assert checkIds[..|checkIds|] == checkIds;
  }

  // What the built-in runner reports, id by id: the outcome of the command if the id has one, BLOCKED if it has none;
  // for `gradle.test` the four environment checks as well, and BLOCKED unless all of them pass.
  ghost predicate IsResultOf(c: CheckResult, id: string, execute: string -> State, p: Preflight) {
    if id == "gradle.test" then
      || c == CheckResult("environment.python", p.python) || c == CheckResult("environment.java", p.java)
      || c == CheckResult("environment.docker", p.docker)
      || c == CheckResult("environment.java17-toolchain", p.toolchain)
      || c == CheckResult("gradle.test", if p == Preflight(PASS, PASS, PASS, PASS) then execute(id) else BLOCKED)
    else
      c == CheckResult(id, if HasCommand(id) then execute(id) else BLOCKED)
  }

  lemma ResultsForAre(id: string, execute: string -> State, p: Preflight, c: CheckResult)
    ensures c in ResultsFor(id, execute, p) <==> IsResultOf(c, id, execute, p)
  {
    hide DOMAIN_ORACLE_IDS;
    if id == "gradle.test" {
      var e := EnvironmentChecks(p);
      assert AllPass(e) <==> p == Preflight(PASS, PASS, PASS, PASS) by {
        assert e[0] in e && e[1] in e && e[2] in e && e[3] in e;
      }
      assert c in ResultsFor(id, execute, p) <==> c in e || c == ResultsFor(id, execute, p)[4];
    }
  }

  lemma {:induction false} BuiltInResultsAre(ids: seq<string>, execute: string -> State, p: Preflight, c: CheckResult)
    ensures c in AllResults(ids, execute, p) <==> exists id :: id in ids && IsResultOf(c, id, execute, p)
  {
    if ids != [] {
      hide IsResultOf, ResultsFor;
      var init, last := ids[..|ids| - 1], ids[|ids| - 1];
      BuiltInResultsAre(init, execute, p, c);
      ResultsForAre(last, execute, p, c);
      assert forall id :: id in ids <==> id in init || id == last;
    }
  }

  // The ids with a command.
  lemma CommandIds(id: string)
    ensures HasCommand(id)
       <==> id in {"harness.unit", "gradle.test", "oracle.architecture", "oracle.api-contract",
                   "oracle.migration-fresh", "oracle.migration-upgrade", "oracle.transaction",
                   "oracle.cross-domain-concurrency", "oracle.async-isolation", "oracle.multi-instance"}
  {
  }

  predicate Distinct(ids: seq<string>) {
    forall i, j :: 0 <= i < j < |ids| ==> ids[i] != ids[j]
  }

  lemma ResultsForIds(id: string, execute: string -> State, p: Preflight)
    ensures DistinctIds(ResultsFor(id, execute, p))
    ensures Ids(ResultsFor(id, execute, p)) == {id} + if id == "gradle.test" then ENVIRONMENT_IDS else {}
  {
    var results := ResultsFor(id, execute, p);
    if id == "gradle.test" {
      var e := EnvironmentChecks(p);
      assert results == [e[0], e[1], e[2], e[3], results[4]];
      assert forall x :: x in Ids(results) <==>
        x == e[0].checkId || x == e[1].checkId || x == e[2].checkId || x == e[3].checkId || x == id;
    } else {
      assert |results| == 1 && results[0] in results;
      assert forall c :: c in results ==> c == results[0];
    }
  }

  lemma IdsConcat(a: seq<CheckResult>, b: seq<CheckResult>)
    ensures Ids(a + b) == Ids(a) + Ids(b)
    ensures DistinctIds(a + b) <==> DistinctIds(a) && DistinctIds(b) && Ids(a) !! Ids(b)
  {
    var ab := a + b;
    assert forall c :: c in ab <==> c in a || c in b;
    assert forall c :: c in a ==> c.checkId in Ids(a);
    assert forall c :: c in b ==> c.checkId in Ids(b);
    assert forall i :: 0 <= i < |a| ==> ab[i] == a[i];
    assert forall j :: 0 <= j < |b| ==> ab[|a| + j] == b[j];
    if DistinctIds(a) && DistinctIds(b) && Ids(a) !! Ids(b) {
      forall i, j | 0 <= i < j < |ab| ensures ab[i].checkId != ab[j].checkId {
        if i < |a| <= j {
          assert a[i] in a && b[j - |a|] in b;
        }
      }
    }
    if id :| id in Ids(a) && id in Ids(b) {
      SharedIdRepeats(a, b, id);
    }
  }

  lemma SharedIdRepeats(a: seq<CheckResult>, b: seq<CheckResult>, id: string)
    requires id in Ids(a) && id in Ids(b)
    ensures !DistinctIds(a + b)
  {
    var i :| 0 <= i < |a| && a[i].checkId == id;
    var j :| 0 <= j < |b| && b[j].checkId == id;
    assert (a + b)[i] == a[i] && (a + b)[|a| + j] == b[j];
  }

  // An environment check is requested beside `gradle.test`, which makes all four of them.
  predicate Doubled(ids: seq<string>) {
    "gradle.test" in ids && exists id :: id in ids && id in ENVIRONMENT_IDS
  }

  // The built-in runner reports every required id, and repeats one only for a repeated or doubled request.
  lemma {:induction false} BuiltInIds(ids: seq<string>, execute: string -> State, p: Preflight)
    ensures Ids(AllResults(ids, execute, p)) == RequiredIds(ids)
    ensures DistinctIds(AllResults(ids, execute, p)) <==> Distinct(ids) && !Doubled(ids)
  {
    if ids != [] {
      var init, last := ids[..|ids| - 1], ids[|ids| - 1];
      BuiltInIds(init, execute, p);
      ResultsForIds(last, execute, p);
      IdsConcat(AllResults(init, execute, p), ResultsFor(last, execute, p));
      LastRequest(ids);
    }
  }

  lemma LastRequest(ids: seq<string>)
    requires ids != []
    ensures var init, last := ids[..|ids| - 1], ids[|ids| - 1];
      var brought := {last} + if last == "gradle.test" then ENVIRONMENT_IDS else {};
      && RequiredIds(ids) == RequiredIds(init) + brought
      && (Distinct(ids) && !Doubled(ids) <==> Distinct(init) && !Doubled(init) && RequiredIds(init) !! brought)
  {
    var init, last := ids[..|ids| - 1], ids[|ids| - 1];
    assert ids == init + [last];
    assert forall id :: id in ids <==> id in init || id == last;
    assert Distinct(ids) <==> Distinct(init) && last !in init by {
      if last in init {
        var i :| 0 <= i < |init| && init[i] == last;
        assert ids[i] == ids[|ids| - 1];
      }
    }
  }

  function AsCandidates(checks: seq<CheckResult>): (cs: seq<Candidate>)
    ensures |cs| == |checks|
    ensures forall i :: 0 <= i < |checks| ==>
              cs[i] == Reported(Some(checks[i].checkId), Some(checks[i].state), true, true, true, true)
  {
    if checks == [] then []
    else
      var last := checks[|checks| - 1];
      AsCandidates(checks[..|checks| - 1]) + [Reported(Some(last.checkId), Some(last.state), true, true, true, true)]
  }

  lemma {:induction false} ConvertedBack(checks: seq<CheckResult>)
    requires forall c :: c in checks ==> WellFormedId(c.checkId)
    ensures forall c :: c in AsCandidates(checks) ==> WellFormed(c)
    ensures Converted(AsCandidates(checks)) == checks
  {
    var cs := AsCandidates(checks);
    forall c | c in cs ensures WellFormed(c) {
      var i :| 0 <= i < |cs| && cs[i] == c;
      assert checks[i] in checks;
    }
    if checks != [] {
      var init := checks[..|checks| - 1];
      ConvertedBack(init);
      assert cs[..|cs| - 1] == AsCandidates(init);
    }
  }

  lemma EnvironmentIdsWellFormed(id: string)
    requires id in ENVIRONMENT_IDS
    ensures WellFormedId(id)
  {
  }

  // Every result in an accepted answer has a well-formed id, so no malformed id can be satisfied by any runner.
  lemma {:induction false} ConvertedIdsWellFormed(cs: seq<Candidate>)
    requires forall c :: c in cs ==> WellFormed(c)
    ensures forall id :: id in Ids(Converted(cs)) ==> WellFormedId(id)
  {
    if cs != [] {
      var init, last := cs[..|cs| - 1], cs[|cs| - 1];
      ConvertedIdsWellFormed(init);
      assert WellFormed(last);
      var result := CheckResult(last.checkId.value, last.state.value);
      assert Converted(cs) == Converted(init) + [result];
      forall id | id in Ids(Converted(cs)) ensures WellFormedId(id) {
        assert id in Ids(Converted(init)) || id == result.checkId;
      }
    }
  }

  lemma ConvertedResults(results: seq<CheckResult>)
    requires forall c :: c in AsCandidates(results) ==> WellFormed(c)
    ensures forall c :: c in results ==> WellFormedId(c.checkId)
    ensures Converted(AsCandidates(results)) == results
  {
    forall c | c in results ensures WellFormedId(c.checkId) {
      var i :| 0 <= i < |results| && results[i] == c;
      assert AsCandidates(results)[i] in AsCandidates(results);
    }
    ConvertedBack(results);
  }

  lemma BuiltInResultsFit(ids: seq<string>, execute: string -> State, p: Preflight)
    requires forall id :: id in ids ==> WellFormedId(id)
    ensures forall c :: c in AllResults(ids, execute, p) ==> WellFormedId(c.checkId)
  {
    hide WellFormedId, ENVIRONMENT_IDS, AllResults;
    BuiltInIds(ids, execute, p);
    forall c | c in AllResults(ids, execute, p) ensures WellFormedId(c.checkId) {
      assert c.checkId in Ids(AllResults(ids, execute, p));
      if c.checkId in ENVIRONMENT_IDS {
        EnvironmentIdsWellFormed(c.checkId);
      }
    }
  }

  // A request that is neither repeated, doubled nor malformed is answered acceptably ...
  lemma BuiltInAnswerFits(ids: seq<string>, execute: string -> State, p: Preflight)
    requires Distinct(ids) && !Doubled(ids) && forall id :: id in ids ==> WellFormedId(id)
    ensures Accepted(Some(AsCandidates(AllResults(ids, execute, p))), ids)
  {
    hide WellFormedId, WellFormed, ENVIRONMENT_IDS, Doubled, Distinct, AllResults, AsCandidates, Converted;
    BuiltInIds(ids, execute, p);
    BuiltInResultsFit(ids, execute, p);
    ConvertedBack(AllResults(ids, execute, p));
  }

  // ... and only such a request is.
  lemma BuiltInAnswerFitsOnly(ids: seq<string>, execute: string -> State, p: Preflight)
    requires Accepted(Some(AsCandidates(AllResults(ids, execute, p))), ids)
    ensures Distinct(ids) && !Doubled(ids) && forall id :: id in ids ==> WellFormedId(id)
  {
    hide WellFormedId, WellFormed, ENVIRONMENT_IDS, Doubled, Distinct, AllResults, AsCandidates, Converted;
    var checks := AllResults(ids, execute, p);
    BuiltInIds(ids, execute, p);
    ConvertedResults(checks);
    forall id | id in ids ensures WellFormedId(id) {
      var c := ResultOf(ids, id, execute, p);
      assert WellFormedId(c.checkId);
    }
  }

  lemma {:induction false} ResultOf(ids: seq<string>, id: string, execute: string -> State, p: Preflight)
    returns (c: CheckResult)
    requires id in ids
    ensures c in AllResults(ids, execute, p) && c.checkId == id
  {
    var init, last := ids[..|ids| - 1], ids[|ids| - 1];
    if id == last {
      var results := ResultsFor(id, execute, p);
      c := results[|results| - 1];
      assert c in results;
    } else {
      c := ResultOf(init, id, execute, p);
    }
  }

  // Exactly when the built-in runner's answer is accepted: no id is repeated, malformed, or an environment check
  // requested beside `gradle.test`.
  lemma BuiltInRunnerAccepted(ids: seq<string>, execute: string -> State, p: Preflight)
    ensures Accepted(Some(AsCandidates(AllResults(ids, execute, p))), ids)
       <==> Distinct(ids) && !Doubled(ids) && forall id :: id in ids ==> WellFormedId(id)
  {
    hide *;
    if Distinct(ids) && !Doubled(ids) && forall id :: id in ids ==> WellFormedId(id) {
      BuiltInAnswerFits(ids, execute, p);
    }
    if Accepted(Some(AsCandidates(AllResults(ids, execute, p))), ids) {
      BuiltInAnswerFitsOnly(ids, execute, p);
    }
  }

  // One request of each failing kind.
  lemma ControlIdRefused(execute: string -> State, p: Preflight) returns (ids: seq<string>)
    ensures FIXED_IDS < ids && Distinct(ids) && !Doubled(ids)
    ensures !Accepted(Some(AsCandidates(AllResults(ids, execute, p))), ids)
  {
    hide Accepted, AllResults, AsCandidates;
    ids := FIXED_IDS + ["a\U{07}b"];
    BuiltInRunnerAccepted(ids, execute, p);
    assert ids[2][1] == '\U{07}' && ids[2] in ids;
  }

  lemma EnvironmentIdRefused(execute: string -> State, p: Preflight) returns (ids: seq<string>)
    ensures FIXED_IDS < ids && Distinct(ids) && forall id :: id in ids ==> WellFormedId(id)
    ensures !Accepted(Some(AsCandidates(AllResults(ids, execute, p))), ids)
  {
    hide Accepted, AllResults, AsCandidates;
    ids := FIXED_IDS + ["environment.java"];
    BuiltInRunnerAccepted(ids, execute, p);
    assert ids[2] in ids;
    EnvironmentIdsWellFormed(ids[2]);
  }

  // The ids requested for every plan.
  const FIXED_IDS: seq<string> := ["harness.unit", "gradle.test"]

  predicate HasCommand(id: string) {
    id == "harness.unit" || id == "gradle.test" || id in DOMAIN_ORACLE_IDS
  }

  lemma ShortOracleIds(id: string)
    requires id in DOMAIN_ORACLE_IDS && |id| <= 21
    ensures WellFormedId(id)
  {
  }

  lemma LongOracleIds(id: string)
    requires id in DOMAIN_ORACLE_IDS && |id| > 21
    ensures WellFormedId(id)
  {
  }

  lemma OracleIdsStartAlike(id: string)
    requires id in DOMAIN_ORACLE_IDS
    ensures |id| > 0 && id[0] == 'o'
  {
  }

  lemma EnvironmentIdsStartAlike(id: string)
    requires id in ENVIRONMENT_IDS
    ensures |id| > 0 && id[0] == 'e'
  {
  }

  // Every id with a command is well formed and not an environment id.
  lemma CommandIdsFit(id: string)
    requires HasCommand(id)
    ensures WellFormedId(id) && id !in ENVIRONMENT_IDS
  {
    hide DOMAIN_ORACLE_IDS, ENVIRONMENT_IDS;
    if id in DOMAIN_ORACLE_IDS {
      OracleIdsStartAlike(id);
      if |id| <= 21 { ShortOracleIds(id); } else { LongOracleIds(id); }
    }
    if id in ENVIRONMENT_IDS {
      EnvironmentIdsStartAlike(id);
    }
  }

  lemma ResultsForPass(id: string, execute: string -> State, p: Preflight)
    ensures AllPass(ResultsFor(id, execute, p)) <==>
              HasCommand(id) && execute(id) == PASS && (id == "gradle.test" ==> p == Preflight(PASS, PASS, PASS, PASS))
  {
    var results := ResultsFor(id, execute, p);
    if id == "gradle.test" {
      assert results[0] in results && results[1] in results && results[2] in results && results[3] in results;
      assert results[4] in results;
      assert forall c :: c in results <==> c in EnvironmentChecks(p) || c == results[4];
    } else {
      assert results[0] in results;
    }
  }

  // The built-in runner passes exactly when every requested check has a command that succeeds,
  // and the four environment checks pass if `gradle.test` is requested.
  lemma {:induction false} BuiltInRunnerPasses(ids: seq<string>, execute: string -> State, p: Preflight)
    ensures AllPass(AllResults(ids, execute, p)) <==>
              && (forall id :: id in ids ==> HasCommand(id) && execute(id) == PASS)
              && ("gradle.test" in ids ==> p == Preflight(PASS, PASS, PASS, PASS))
  {
    if ids != [] {
      var init, last := ids[..|ids| - 1], ids[|ids| - 1];
      BuiltInRunnerPasses(init, execute, p);
      ResultsForPass(last, execute, p);
      var a, b := AllResults(init, execute, p), ResultsFor(last, execute, p);
      assert forall c :: c in a + b <==> c in a || c in b;
      assert forall id :: id in ids <==> id in init || id == last;
    }
  }
}
