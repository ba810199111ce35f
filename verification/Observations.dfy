/**
 What `prepare` and `evaluate` see of a changing environment, when it lines up, and what they must report.

 Every look at the environment is an arbitrary observation: the value it returned, the violation it
 raised, or any other exception. The looks are the harness's own code, whose violations never carry
 the state PASS. The check runner and the preflight are handed in by the caller and may raise any.
 */
module Observations {
  import opened Wrappers
  import opened Checks
  import opened PathPatterns
  import opened Risks
  import opened PlanLock
  import opened GitPaths

  datatype Obs<+T> = Seen(value: T) | Refused(checkId: string, state: NonPass) | Broke

  // The outcome of calling something the caller supplied.
  datatype Reply<+T> = Returned(value: T) | Raised(checkId: string, state: State) | Crashed

  // The callee raised a violation whose state is PASS.
  predicate PassRaised<T>(r: Reply<T>) {
    r.Raised? && r.state == PASS
  }

  function CaughtReply<T>(r: Reply<T>): (c: CheckResult)
    requires !r.Returned?
    ensures c.state == PASS <==> PassRaised(r)
    ensures r.Raised? ==> c.checkId == r.checkId && c.state == r.state
    ensures r.Crashed? ==> c == CheckResult("harness.internal", FAIL)
  {
    if r.Raised? then CheckResult(r.checkId, r.state) else CheckResult("harness.internal", FAIL)
  }

  // The check appended by the exception handlers.
  function Caught<T>(o: Obs<T>): (c: CheckResult)
    requires !o.Seen?
    ensures c.state != PASS
    ensures o.Refused? ==> c.checkId == o.checkId && c.state == o.state
    ensures o.Broke? ==> c == CheckResult("harness.internal", FAIL)
  {
    if o.Refused? then CheckResult(o.checkId, o.state) else CheckResult("harness.internal", FAIL)
  }

  // ----- what evaluate sees

  datatype Evaluation = Evaluation(
    state: State,
    context: Option<GitContext>,
    planHash: Option<string>,
    declaredRisks: set<string>,
    detectedRisks: set<string>,
    changedPaths: set<string>,
    diffHash: Option<string>,
    checks: seq<CheckResult>)

  datatype Evidence = Evidence(evaluation: Option<Evaluation>, lock: File)

  datatype Start = Start(
    dirty: Obs<set<string>>,
    policy: Obs<RiskPolicy>,
    plan: Obs<Plan>,
    context: Obs<GitContext>,
    lockPath: Obs<()>,
    lock: Obs<Lock>,                      // what load_plan_lock made of the file
    changed: Obs<set<string>>,
    diffHash: Obs<string>,
    migrations: Obs<Migrations>,
    runner: Reply<Option<seq<Candidate>>>,
    runnerWrites: Option<Evidence>)       // what the runner leaves in the evidence files, if it touches them

  datatype End = End(
    dirty: Obs<set<string>>,
    policy: Obs<RiskPolicy>,
    plan: Obs<Plan>,
    context: Obs<GitContext>,
    changed: Obs<set<string>>,
    diffHash: Obs<string>)

  datatype Finish = Finish(
    evaluationPath: Obs<bool>,            // the path is still the one seen at the start
    lockPath: Obs<bool>,
    lockWritten: bool,
    evaluationWritten: bool)

  datatype World = World(root: Obs<()>, stale: Obs<()>, start: Start, end: End, finish: Finish)

  // ----- when everything lines up

  const INLINE_PASSES: seq<CheckResult> :=
    [CheckResult("plan.lock", PASS), CheckResult("migration.immutable", PASS), CheckResult("scope.allowed-paths", PASS),
     CheckResult("risk.classification", PASS), CheckResult("risk.declaration", PASS),
     CheckResult("trust-root.contract", PASS)]

  // The runner answered with every check the risks ask for, the fixed ones, and nothing else.
  ghost predicate RunnerComplete(raw: Option<seq<Candidate>>, risks: set<string>, policy: RiskPolicy) {
    && raw.Some?
    && (forall c :: c in raw.value ==> WellFormed(c))
    && DistinctIds(Converted(raw.value))
    && forall id :: id in Ids(Converted(raw.value)) <==>
         id == "harness.unit" || id == "gradle.test" || id in ENVIRONMENT_IDS || IsRiskCheck(id, risks, policy)
  }

  ghost predicate Identified(s: Start) {
    && s.dirty == Seen({}) && s.policy.Seen? && s.plan.Seen? && s.context.Seen? && s.lockPath.Seen?
    && s.lock.Seen? && LockMatches(s.lock.value, s.plan.value, s.context.value)
    && s.changed.Seen? && s.diffHash.Seen?
  }

  // Every mutated migration is among the changed paths and none is a migration of the merge base.
  ghost predicate MigrationsFine(s: Start)
    requires Identified(s)
  {
    s.migrations.Seen? && forall p :: p in s.migrations.value.mutated ==>
      p in s.changed.value && p !in s.migrations.value.base
  }

  // Every changed path except the plan matches an allowed pattern.
  ghost predicate InScope(s: Start)
    requires Identified(s)
  {
    forall path :: path in s.changed.value && path != s.plan.value.relativePath ==>
      exists pattern :: pattern in s.plan.value.allowedPaths && PathMatches(pattern, path)
  }

  // Every changed path except the plan that matches a protected pattern is declared.
  ghost predicate ProtectedDeclared(s: Start)
    requires Identified(s)
  {
    forall path, pattern ::
      path in s.changed.value && path != s.plan.value.relativePath
      && pattern in s.policy.value.protectedPatterns && PathMatches(pattern, path)
      ==> path in s.plan.value.contractPaths
  }

  // Every path is classified, every detected risk and protected path declared, and every declared risk has checks.
  ghost predicate RisksDeclared(s: Start)
    requires Identified(s)
  {
    var plan, policy, changed := s.plan.value, s.policy.value, s.changed.value;
    && (forall path :: !IsUnclassified(path, changed, policy, plan.relativePath))
    && (forall risk :: IsDetected(risk, changed, policy, plan.relativePath) ==> risk in plan.declaredRisks)
    && ProtectedDeclared(s)
    && plan.declaredRisks <= policy.riskChecks.Keys
  }

  ghost predicate InPolicy(s: Start)
    requires Identified(s)
  {
    MigrationsFine(s) && InScope(s) && RisksDeclared(s)
  }

  ghost predicate StartLinesUp(s: Start) {
    && Identified(s) && InPolicy(s)
    && s.runner.Returned? && RunnerComplete(s.runner.value, s.plan.value.declaredRisks, s.policy.value)
    && AllPass(Converted(s.runner.value.value))
  }

  // The end sees a clean worktree and the same eight identities.
  ghost predicate Fresh(e: End, plan: Plan, context: GitContext, changed: set<string>, diffHash: string) {
    && e.dirty == Seen({}) && e.policy.Seen? && e.plan.Seen? && e.context.Seen?
    && e.context.value.baseTipSha == context.baseTipSha
    && e.context.value.mergeBaseSha == context.mergeBaseSha
    && e.context.value.candidateHeadSha == context.candidateHeadSha
    && e.context.value.testedRevisionSha == context.testedRevisionSha
    && e.plan.value.relativePath == plan.relativePath
    && e.plan.value.planHash == plan.planHash
    && e.changed == Seen(changed)
    && e.diffHash == Seen(diffHash)
  }

  // The end is fresh, the lock still matches, and the evidence is written.
  ghost predicate EndLinesUp(w: World)
    requires Identified(w.start)
  {
    && Fresh(w.end, w.start.plan.value, w.start.context.value, w.start.changed.value, w.start.diffHash.value)
    && LockMatches(w.start.lock.value, w.end.plan.value, w.end.context.value)
    && w.finish == Finish(Seen(true), Seen(true), true, true)
  }

  ghost predicate LinesUp(w: World) {
    w.root.Seen? && w.stale.Seen? && StartLinesUp(w.start) && EndLinesUp(w)
  }

  // ----- when evaluate says PASS

  // The check runner was called.
  ghost predicate RunnerCalled(s: Start) {
    Identified(s) && InPolicy(s)
  }

  // A violation with state PASS, raised by the runner, stands in for all its checks.
  ghost predicate StartPasses(s: Start) {
    StartLinesUp(s) || (RunnerCalled(s) && PassRaised(s.runner))
  }

  ghost predicate Passes(w: World) {
    w.root.Seen? && w.stale.Seen? && StartPasses(w.start) && EndLinesUp(w)
  }

  // The checks the runner contributes.
  ghost function RunnerResults(s: Start): seq<CheckResult> {
    if !s.runner.Returned? then [CaughtReply(s.runner)]
    else if s.runner.value.Some? && forall c :: c in s.runner.value.value ==> WellFormed(c)
    then Converted(s.runner.value.value)
    else []
  }

  // ----- what is left in the evidence files

  function AfterRunner(s: Start, called: bool, before: Evidence): Evidence {
    if called && s.runnerWrites.Some? then s.runnerWrites.value else before
  }

  // The end was clean and every look at it gave a value.
  ghost predicate Readable(e: End) {
    && e.dirty == Seen({}) && e.policy.Seen? && e.plan.Seen? && e.context.Seen?
    && e.changed.Seen? && e.diffHash.Seen?
  }

  // The lock read at the start still matches the plan and context read at the end.
  ghost predicate RestoresLock(s: Start, e: End) {
    Identified(s) && Readable(e) && LockMatches(s.lock.value, e.plan.value, e.context.value)
  }

  ghost predicate WritesLock(w: World) {
    && RestoresLock(w.start, w.end)
    && w.finish.evaluationPath == Seen(true) && w.finish.lockPath == Seen(true) && w.finish.lockWritten
  }

  ghost predicate WritesEvaluation(w: World) {
    && w.finish.evaluationPath == Seen(true) && w.finish.evaluationWritten
    && (RestoresLock(w.start, w.end) ==> w.finish.lockPath == Seen(true) && w.finish.lockWritten)
  }

  // ----- what is reported

  // The first `k` inline checks have passed and `c` is what ended the block.
  ghost predicate StopsAt(checks: seq<CheckResult>, k: nat, c: CheckResult) {
    k <= 6 && INLINE_PASSES[..k] + [c] <= checks
  }

  ghost predicate Looked(s: Start) {
    s.dirty == Seen({}) && s.policy.Seen? && s.plan.Seen? && s.context.Seen?
  }

  ghost predicate LockRead(s: Start) {
    Looked(s) && s.lockPath.Seen? && s.lock.Seen?
  }

  // The looks and the plan lock, up to the diff hash.
  ghost predicate IdentityReported(s: Start, checks: seq<CheckResult>) {
    && (!s.dirty.Seen? ==> StopsAt(checks, 0, Caught(s.dirty)))
    && (s.dirty.Seen? && s.dirty.value != {} ==> StopsAt(checks, 0, CheckResult("git.clean", REPLAN_REQUIRED)))
    && (s.dirty == Seen({}) && !s.policy.Seen? ==> StopsAt(checks, 0, Caught(s.policy)))
    && (s.dirty == Seen({}) && s.policy.Seen? && !s.plan.Seen? ==> StopsAt(checks, 0, Caught(s.plan)))
    && (s.dirty == Seen({}) && s.policy.Seen? && s.plan.Seen? && !s.context.Seen? ==>
          StopsAt(checks, 0, Caught(s.context)))
    && (Looked(s) && !s.lockPath.Seen? ==> StopsAt(checks, 0, Caught(s.lockPath)))
    && (Looked(s) && s.lockPath.Seen? && !s.lock.Seen? ==> StopsAt(checks, 0, Caught(s.lock)))
    && (LockRead(s) && !LockMatches(s.lock.value, s.plan.value, s.context.value) ==>
          StopsAt(checks, 0, CheckResult("plan.lock", REPLAN_REQUIRED)))
    && (LockRead(s) && LockMatches(s.lock.value, s.plan.value, s.context.value) ==>
          && (!s.changed.Seen? ==> StopsAt(checks, 1, Caught(s.changed)))
          && (s.changed.Seen? && !s.diffHash.Seen? ==> StopsAt(checks, 1, Caught(s.diffHash))))
  }

  // Migrations and scope.
  ghost predicate ScopeReported(s: Start, checks: seq<CheckResult>)
    requires Identified(s)
  {
    && (!s.migrations.Seen? ==> StopsAt(checks, 1, Caught(s.migrations)))
    && (s.migrations.Seen? ==>
          var m, changed := s.migrations.value, s.changed.value;
          && ((exists p :: p in m.mutated && p !in changed) ==> StopsAt(checks, 1, CheckResult("git.diff", FAIL)))
          && ((forall p :: p in m.mutated ==> p in changed) && (exists p :: p in m.mutated && p in m.base) ==>
                StopsAt(checks, 1, CheckResult("migration.immutable", FAIL))))
    && (MigrationsFine(s) && !InScope(s) ==>
          StopsAt(checks, 2, CheckResult("scope.allowed-paths", REPLAN_REQUIRED)))
  }

  // Risks and protected paths.
  ghost predicate RisksReported(s: Start, checks: seq<CheckResult>)
    requires Identified(s)
  {
    var plan, policy, changed := s.plan.value, s.policy.value, s.changed.value;
    var classified := forall path :: !IsUnclassified(path, changed, policy, plan.relativePath);
    var declared := forall risk :: IsDetected(risk, changed, policy, plan.relativePath) ==> risk in plan.declaredRisks;
    && (!classified ==> StopsAt(checks, 3, CheckResult("risk.classification", REPLAN_REQUIRED)))
    && (classified && !declared ==> StopsAt(checks, 4, CheckResult("risk.declaration", REPLAN_REQUIRED)))
    && (classified && declared && !ProtectedDeclared(s) ==>
          StopsAt(checks, 5, CheckResult("trust-root.contract", REPLAN_REQUIRED)))
    && (classified && declared && ProtectedDeclared(s) && !(plan.declaredRisks <= policy.riskChecks.Keys) ==>
          StopsAt(checks, 6, CheckResult("harness.internal", FAIL)))
  }

  // What the runner did. `valid` are the results it reports before an error.
  ghost predicate RunnerReported(s: Start, checks: seq<CheckResult>)
    requires Identified(s)
  {
    if !s.runner.Returned? then StopsAt(checks, 6, CaughtReply(s.runner))
    else if RunnerComplete(s.runner.value, s.plan.value.declaredRisks, s.policy.value)
    then INLINE_PASSES + RunnerResults(s) <= checks
    else exists valid ::
      FirstResults(s.runner.value, valid) && INLINE_PASSES + valid + [CheckResult("checks.runner", FAIL)] <= checks
  }

  lemma FineReported(s: Start, checks: seq<CheckResult>)
    requires Identified(s)
    ensures MigrationsFine(s) && InScope(s) ==> ScopeReported(s, checks)
    ensures RisksDeclared(s) ==> RisksReported(s, checks)
  {
    hide Identified;
  }

  // The first thing that goes wrong at the start is reported, after the inline checks that passed before it.
  ghost predicate StartReported(s: Start, checks: seq<CheckResult>) {
    && IdentityReported(s, checks)
    && (Identified(s) ==>
          && ScopeReported(s, checks)
          && (MigrationsFine(s) && InScope(s) ==> RisksReported(s, checks))
          && (InPolicy(s) ==> RunnerReported(s, checks)))
  }

  // The changed paths, once the lock is accepted and they are collected.
  ghost function ChangedSeen(s: Start): set<string> {
    if LockRead(s) && LockMatches(s.lock.value, s.plan.value, s.context.value) && s.changed.Seen?
    then s.changed.value else {}
  }

  // The detected risks, once migrations and scope are fine.
  ghost predicate DetectedSeen(s: Start, detected: set<string>) {
    forall risk :: risk in detected <==>
      && Identified(s) && MigrationsFine(s) && InScope(s)
      && IsDetected(risk, s.changed.value, s.policy.value, s.plan.value.relativePath)
  }

  lemma ReportedKept(s: Start, checks: seq<CheckResult>, checks': seq<CheckResult>)
    requires StartReported(s, checks) && checks <= checks'
    ensures StartReported(s, checks')
  {
    hide RisksDeclared, RunnerComplete, RunnerResults, MigrationsFine, InScope, ProtectedDeclared, LockMatches;
    assert forall k: nat, c :: StopsAt(checks, k, c) ==> StopsAt(checks', k, c);
    if RunnerCalled(s) {
      RunnerKept(s, checks, checks');
    }
  }

  lemma RunnerKept(s: Start, checks: seq<CheckResult>, checks': seq<CheckResult>)
    requires Identified(s) && RunnerReported(s, checks) && checks <= checks'
    ensures RunnerReported(s, checks')
  {
    hide Identified, RunnerComplete, RunnerResults, FirstResults;
  }

  // How the end of evaluate reports a path that is gone or changed.
  function PathCheck(o: Obs<bool>): (c: CheckResult)
    ensures c.state != PASS
    ensures o.Refused? ==> c.checkId == o.checkId && c.state == o.state
    ensures !o.Refused? ==> c == CheckResult("evidence.path", FAIL)
  {
    if o.Refused? then CheckResult(o.checkId, o.state) else CheckResult("evidence.path", FAIL)
  }

  const PLAN_IDENTITY_CHECKS: set<string> :=
    {"plan.path", "plan.schema", "plan.scope", "plan.contract-changes", "git.branch"}

  // How the end of evaluate reports an exception.
  function Stale<T>(o: Obs<T>): (c: CheckResult)
    requires !o.Seen?
    ensures c.state != PASS
    ensures o.Broke? ==> c == CheckResult("evidence.freshness", FAIL)
    ensures o.Refused? && o.checkId == "git.clean" ==> c.checkId == o.checkId && c.state == o.state
    ensures o.Refused? && o.checkId != "git.clean" ==>
              && c.checkId == "evidence.freshness"
              && c.state == if o.checkId in {"plan.path", "plan.schema", "plan.scope", "plan.contract-changes",
                                             "git.branch"} then REPLAN_REQUIRED else o.state
  {
    if o.Broke? then CheckResult("evidence.freshness", FAIL)
    else if o.checkId == "git.clean" then CheckResult(o.checkId, o.state)
    else CheckResult("evidence.freshness", if o.checkId in PLAN_IDENTITY_CHECKS then REPLAN_REQUIRED else o.state)
  }

  // What the second look at the identity gives.
  ghost predicate IsFreshness(
    check: CheckResult, e: End, plan: Plan, context: GitContext, changed: set<string>, diffHash: string)
  {
    && (!e.dirty.Seen? ==> check == Stale(e.dirty))
    && (e.dirty.Seen? && e.dirty.value != {} ==> check == CheckResult("git.clean", REPLAN_REQUIRED))
    && (e.dirty == Seen({}) ==>
          && (!e.policy.Seen? ==> check == Stale(e.policy))
          && (e.policy.Seen? && !e.plan.Seen? ==> check == Stale(e.plan))
          && (e.policy.Seen? && e.plan.Seen? && !e.context.Seen? ==> check == Stale(e.context))
          && (e.policy.Seen? && e.plan.Seen? && e.context.Seen? && !e.changed.Seen? ==> check == Stale(e.changed))
          && (e.policy.Seen? && e.plan.Seen? && e.context.Seen? && e.changed.Seen? && !e.diffHash.Seen? ==>
                check == Stale(e.diffHash)))
    && (Readable(e) && !Fresh(e, plan, context, changed, diffHash) ==>
          check == CheckResult("evidence.freshness", REPLAN_REQUIRED))
    && (Fresh(e, plan, context, changed, diffHash) ==> check == CheckResult("evidence.freshness", PASS))
  }

  // The end: freshness, the lock, the paths, the writing.
  ghost predicate EndReported(s: Start, e: End, checks: seq<CheckResult>) {
    && (Identified(s) ==>
          exists check :: check in checks
            && IsFreshness(check, e, s.plan.value, s.context.value, s.changed.value, s.diffHash.value))
    && (LockRead(s) && !(Identified(s) && Readable(e)) ==> CheckResult("plan.lock.restore", BLOCKED) in checks)
    && (Identified(s) && Readable(e) && !LockMatches(s.lock.value, e.plan.value, e.context.value) ==>
          CheckResult("plan.lock.restore", REPLAN_REQUIRED) in checks)
  }

  lemma EndKept(s: Start, e: End, checks: seq<CheckResult>, checks': seq<CheckResult>)
    requires EndReported(s, e, checks) && checks <= checks'
    ensures EndReported(s, e, checks')
  {
    hide IsFreshness, LockMatches;
  }

  // The stale evidence was removed and the first block began.
  predicate Began(w: World) {
    w.root.Seen? && w.stale.Seen?
  }

  predicate PlanSeen(w: World) {
    Began(w) && w.start.dirty == Seen({}) && w.start.policy.Seen? && w.start.plan.Seen?
  }

  ghost predicate FinishReported(restore: bool, f: Finish, checks: seq<CheckResult>) {
    && (f.evaluationPath != Seen(true) ==> PathCheck(f.evaluationPath) in checks)
    && (f.evaluationPath == Seen(true) && restore && f.lockPath != Seen(true) ==> PathCheck(f.lockPath) in checks)
    && (f.evaluationPath == Seen(true) && (restore ==> f.lockPath == Seen(true)) ==>
          (restore && !f.lockWritten) || !f.evaluationWritten ==> CheckResult("evidence.write", FAIL) in checks)
  }
}
