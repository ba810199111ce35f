/** The plan lock: what `prepare` freezes, how it is written, read back and compared. */
module PlanLock {
  import opened Wrappers
  import opened Names
  import opened Text
  import opened Checks
  import opened Risks

  datatype GitContext = GitContext(
    branch: string,
    baseTipSha: string,
    mergeBaseSha: string,
    candidateHeadSha: string,
    testedRevisionSha: string)

  datatype Lock = Lock(
    schemaVersion: int,
    issue: int,
    planPath: string,
    planHash: string,
    targetBranch: string,
    branch: string,
    baseTipSha: string,
    mergeBaseSha: string)

  datatype Json = Number(n: int) | Text(s: string) | Other

  // The fields of a lock object, and any other name that may occur in one.
  datatype Field =
    | SchemaVersion | Issue | PlanPath | PlanHash | TargetBranch | Branch | BaseTipSha | MergeBaseSha
    | Unknown(name: string)

  type Payload = map<Field, Json>

  // What reading the lock file finds.
  datatype File = Missing | Garbled | Object(payload: Payload)

  // ----- what `parse_plan` and `resolve_local_git_context` guarantee of the values they return

  ghost predicate ParsedPlan(plan: Plan) {
    plan.issue >= 1 && plan.targetBranch == "main" && PlanPathMatchesIssue(plan.relativePath, plan.issue)
    && IsHex(plan.planHash, 64)
  }

  ghost predicate ResolvedContext(context: GitContext, issue: int) {
    && IsBranch(context.branch, issue)
    && IsHex(context.baseTipSha, 40) && IsHex(context.mergeBaseSha, 40) && IsHex(context.candidateHeadSha, 40)
    && context.testedRevisionSha == context.candidateHeadSha
  }

  // ----- writing and reading

  function MakePlanLock(plan: Plan, context: GitContext): Lock {
    Lock(1, plan.issue, plan.relativePath, plan.planHash, plan.targetBranch,
         context.branch, context.baseTipSha, context.mergeBaseSha)
  }

  function PlanLockPayload(lock: Lock): Payload {
    map[SchemaVersion := Number(lock.schemaVersion), Issue := Number(lock.issue), PlanPath := Text(lock.planPath),
        PlanHash := Text(lock.planHash), TargetBranch := Text(lock.targetBranch), Branch := Text(lock.branch),
        BaseTipSha := Text(lock.baseTipSha), MergeBaseSha := Text(lock.mergeBaseSha)]
  }

  const PLAN_LOCK_FIELDS: set<Field> :=
    {SchemaVersion, Issue, PlanPath, PlanHash, TargetBranch, Branch, BaseTipSha, MergeBaseSha}

  predicate LockString(s: string) {
    s != "" && Stripped(s) && !HasControl(s)
  }

  const LOCK_ERROR: CheckResult := CheckResult("plan.lock", REPLAN_REQUIRED)

  // The values of an object that has exactly the lock's fields, each of the right type.
  function ReadFields(p: Payload): Option<Lock> {
    if p.Keys != PLAN_LOCK_FIELDS then None
    else if !p[SchemaVersion].Number? || !p[Issue].Number? then None
    else if !p[PlanPath].Text? || !p[PlanHash].Text? || !p[TargetBranch].Text? then None
    else if !p[Branch].Text? || !p[BaseTipSha].Text? || !p[MergeBaseSha].Text? then None
    else Some(Lock(p[SchemaVersion].n, p[Issue].n, p[PlanPath].s, p[PlanHash].s, p[TargetBranch].s,
                   p[Branch].s, p[BaseTipSha].s, p[MergeBaseSha].s))
  }

  predicate CleanStrings(lock: Lock) {
    && LockString(lock.planPath) && LockString(lock.planHash) && LockString(lock.targetBranch)
    && LockString(lock.branch) && LockString(lock.baseTipSha) && LockString(lock.mergeBaseSha)
  }

  predicate Trusted(lock: Lock) {
    && lock.schemaVersion == 1 && lock.issue >= 1
    && CleanStrings(lock)
    && PlanPathMatchesIssue(lock.planPath, lock.issue)
    && lock.targetBranch == "main"
    && IsBranch(lock.branch, lock.issue)
    && IsHex(lock.planHash, 64) && IsHex(lock.baseTipSha, 40) && IsHex(lock.mergeBaseSha, 40)
  }

  function LoadPlanLock(file: File): Result<Lock, CheckResult> {
    if !file.Object? then Err(LOCK_ERROR)
    else match ReadFields(file.payload)
      case None => Err(LOCK_ERROR)
      case Some(lock) => if Trusted(lock) then Ok(lock) else Err(LOCK_ERROR)
  }

  // The seven comparisons of `validate_plan_lock`.
  predicate LockMatches(lock: Lock, plan: Plan, context: GitContext) {
    && lock.issue == plan.issue && lock.planPath == plan.relativePath && lock.planHash == plan.planHash
    && lock.targetBranch == plan.targetBranch && lock.branch == context.branch
    && lock.baseTipSha == context.baseTipSha && lock.mergeBaseSha == context.mergeBaseSha
  }

  // ----- a written lock can be read back

  // The characters that occur in plan paths, branches and hashes.
  predicate IsPlain(c: char) {
    IsLower(c) || IsDigit(c) || c == '-' || c == '/' || c == '.'
  }

  predicate AllPlain(s: string) {
    forall i :: 0 <= i < |s| ==> IsPlain(s[i])
  }

  lemma PlainIsLockString(s: string)
    requires s != "" && AllPlain(s)
    ensures LockString(s)
  {
    assert forall i :: 0 <= i < |s| ==> !IsSpace(s[i]) && !IsControl(s[i]);
  }

  lemma PlainConcat(a: string, b: string)
    requires AllPlain(a) && AllPlain(b)
    ensures AllPlain(a + b)
  {
  }

  lemma {:induction false} JoinPlain(words: seq<string>)
    requires |words| >= 1 && forall word :: word in words ==> AllPlain(word)
    ensures AllPlain(Join(words, '-'))
  {
    assert words[0] in words;
    if |words| > 1 {
      JoinPlain(words[1..]);
      PlainConcat(words[0] + ['-'], Join(words[1..], '-'));
    }
  }

  lemma SlugPlain(s: string)
    requires IsSlug(s)
    ensures AllPlain(s)
  {
    JoinSplit(s, '-');
    JoinPlain(Split(s, '-'));
  }

  lemma NumberedSlugPlain(s: string, issue: int, suffix: string)
    requires IsNumberedSlug(s, issue, suffix) && AllPlain(suffix)
    ensures AllPlain(s) && s != ""
  {
    var n := DigitRun(s);
    var rest := s[n..];
    var slug := rest[1..|rest| - |suffix|];
    SlugPlain(slug);
    assert rest == "-" + slug + suffix;
    PlainConcat("-" + slug, suffix);
    PlainConcat(s[..n], rest);
    assert s == s[..n] + rest;
  }

  lemma BranchPlain(branch: string, issue: int)
    requires IsBranch(branch, issue)
    ensures AllPlain(branch) && branch != ""
  {
    var k :| 0 <= k <= |branch| && IsBranchKind(branch[..k]) && IsNumberedSlug(branch[k..], issue, "");
    BranchPlainAt(branch, k, issue);
  }

  lemma BranchPlainAt(branch: string, k: nat, issue: int)
    requires k <= |branch| && IsBranchKind(branch[..k]) && IsNumberedSlug(branch[k..], issue, "")
    ensures AllPlain(branch) && branch != ""
  {
    NumberedSlugPlain(branch[k..], issue, "");
    KindPlain(branch[..k]);
    PlainConcat(branch[..k], branch[k..]);
    assert branch == branch[..k] + branch[k..];
  }

  lemma KindPlain(kind: string)
    requires IsBranchKind(kind)
    ensures AllPlain(kind)
  {
  }

  lemma DirectoriesPlain()
    ensures AllPlain(PLAN_DIRECTORY) && AllPlain(READABLE_DIRECTORY) && AllPlain(".json")
  {
  }

  lemma LegacyPathPlain(path: string, issue: int)
    requires IsLegacyPlanPath(path, issue)
    ensures AllPlain(path) && path != ""
  {
    var tail := path[|PLAN_DIRECTORY|..];
    var n := DigitRun(tail);
    DirectoriesPlain();
    PlainConcat(tail[..n], ".json");
    assert tail == tail[..n] + ".json";
    PlainConcat(PLAN_DIRECTORY, tail);
    assert path == PLAN_DIRECTORY + tail;
  }

  lemma ReadablePathPlain(path: string, issue: int)
    requires IsReadablePlanPath(path, issue)
    ensures AllPlain(path) && path != ""
  {
    hide IsNumberedSlug, AllPlain;
    var tail := path[|READABLE_DIRECTORY|..];
    DirectoriesPlain();
    NumberedSlugPlain(tail, issue, ".json");
    PlainConcat(READABLE_DIRECTORY, tail);
    assert path == READABLE_DIRECTORY + tail;
  }

  lemma PlanPathPlain(path: string, issue: int)
    requires PlanPathMatchesIssue(path, issue)
    ensures AllPlain(path) && path != ""
  {
    if IsLegacyPlanPath(path, issue) {
      LegacyPathPlain(path, issue);
    } else {
      ReadablePathPlain(path, issue);
    }
  }

  lemma HexPlain(s: string, length: nat)
    requires IsHex(s, length) && length > 0
    ensures LockString(s)
  {
    PlainIsLockString(s);
  }

  lemma FieldsRoundTrip(lock: Lock)
    ensures ReadFields(PlanLockPayload(lock)) == Some(lock)
  {
  }

  lemma FieldsPrinted(p: Payload)
    requires ReadFields(p).Some?
    ensures PlanLockPayload(ReadFields(p).value) == p
  {
  }

  lemma MadeLockTrusted(plan: Plan, context: GitContext)
    requires ParsedPlan(plan) && ResolvedContext(context, plan.issue)
    ensures Trusted(MakePlanLock(plan, context))
  {
    PathClean(plan.relativePath, plan.issue);
    BranchClean(context.branch, plan.issue);
    MainClean();
    HexPlain(plan.planHash, 64);
    HexPlain(context.baseTipSha, 40);
    HexPlain(context.mergeBaseSha, 40);
  }

  lemma PathClean(path: string, issue: int)
    requires PlanPathMatchesIssue(path, issue)
    ensures LockString(path)
  {
    PlanPathPlain(path, issue);
    PlainIsLockString(path);
  }

  lemma BranchClean(branch: string, issue: int)
    requires IsBranch(branch, issue)
    ensures LockString(branch)
  {
    BranchPlain(branch, issue);
    PlainIsLockString(branch);
  }

  lemma MainClean()
    ensures LockString("main")
  {
    assert AllPlain("main");
    PlainIsLockString("main");
  }

  // Every lock made from a parsed plan and a resolved context survives writing and reading.
  lemma LockRoundTrip(plan: Plan, context: GitContext)
    requires ParsedPlan(plan) && ResolvedContext(context, plan.issue)
    ensures LoadPlanLock(Object(PlanLockPayload(MakePlanLock(plan, context)))) == Ok(MakePlanLock(plan, context))
  {
    MadeLockTrusted(plan, context);
    FieldsRoundTrip(MakePlanLock(plan, context));
  }

  // Conversely, a file is accepted only if it is the print of the lock it is read as.
  lemma LoadedIsPrinted(file: File)
    requires LoadPlanLock(file).Ok?
    ensures file == Object(PlanLockPayload(LoadPlanLock(file).value))
  {
    FieldsPrinted(file.payload);
  }

  // A lock just made is accepted while the seven locked values are unchanged, and only then.
  lemma LockAcceptedIffUnchanged(plan: Plan, context: GitContext, plan': Plan, context': GitContext)
    requires ParsedPlan(plan) && ResolvedContext(context, plan.issue)
    ensures var loaded := LoadPlanLock(Object(PlanLockPayload(MakePlanLock(plan, context))));
      loaded.Ok? &&
      (LockMatches(loaded.value, plan', context') <==>
         && plan'.issue == plan.issue && plan'.relativePath == plan.relativePath && plan'.planHash == plan.planHash
         && plan'.targetBranch == plan.targetBranch && context'.branch == context.branch
         && context'.baseTipSha == context.baseTipSha && context'.mergeBaseSha == context.mergeBaseSha)
  {
    LockRoundTrip(plan, context);
  }

  // What is written, field by field.
  lemma WrittenFields(plan: Plan, context: GitContext)
    ensures PlanLockPayload(MakePlanLock(plan, context))
         == map[SchemaVersion := Number(1), Issue := Number(plan.issue), PlanPath := Text(plan.relativePath),
                PlanHash := Text(plan.planHash), TargetBranch := Text(plan.targetBranch),
                Branch := Text(context.branch), BaseTipSha := Text(context.baseTipSha),
                MergeBaseSha := Text(context.mergeBaseSha)]
  {
  }

  // A loaded lock matches a plan and a context exactly when the fields of its file are their values.
  lemma LoadedMatches(file: File, plan: Plan, context: GitContext)
    requires LoadPlanLock(file).Ok?
    ensures file.Object? && LockMatches(LoadPlanLock(file).value, plan, context)
       <==> file == Object(map[SchemaVersion := Number(1), Issue := Number(plan.issue),
                               PlanPath := Text(plan.relativePath), PlanHash := Text(plan.planHash),
                               TargetBranch := Text(plan.targetBranch), Branch := Text(context.branch),
                               BaseTipSha := Text(context.baseTipSha), MergeBaseSha := Text(context.mergeBaseSha)])
  {
    hide Trusted;
    LoadedIsPrinted(file);
    var lock := LoadPlanLock(file).value;
    LoadedVersion(file);
    if LockMatches(lock, plan, context) {
      assert lock == MakePlanLock(plan, context);
      WrittenFields(plan, context);
    } else {
      FieldsRoundTrip(lock);
    }
  }

  lemma LoadedVersion(file: File)
    requires LoadPlanLock(file).Ok?
    ensures LoadPlanLock(file).value.schemaVersion == 1
  {
  }

  // Exactly which files are loaded: those with the eight fields and no other, each of its type and form. The checks
  // for blanks and control characters refuse nothing beyond that. Every refusal asks for a new plan.
  lemma LoadedIff(file: File)
    ensures LoadPlanLock(file).Ok?
       <==> && file.Object?
            && file.payload.Keys
               == {SchemaVersion, Issue, PlanPath, PlanHash, TargetBranch, Branch, BaseTipSha, MergeBaseSha}
            && file.payload[SchemaVersion] == Number(1) && file.payload[Issue].Number?
            && file.payload[PlanPath].Text? && PlanPathMatchesIssue(file.payload[PlanPath].s, file.payload[Issue].n)
            && file.payload[TargetBranch] == Text("main")
            && file.payload[Branch].Text? && IsBranch(file.payload[Branch].s, file.payload[Issue].n)
            && IsHash(file.payload[PlanHash], 64)
            && IsHash(file.payload[BaseTipSha], 40) && IsHash(file.payload[MergeBaseSha], 40)
    ensures LoadPlanLock(file).Err? ==> LoadPlanLock(file) == Err(CheckResult("plan.lock", REPLAN_REQUIRED))
  {
    hide PlanPathMatchesIssue, IsBranch, LockString, IsHash, Trusted, IsHex;
    if file.Object? && ReadFields(file.payload).Some? {
      var lock := ReadFields(file.payload).value;
      TrustedIff(lock);
      HashIff(file.payload[PlanHash], 64);
      HashIff(file.payload[BaseTipSha], 40);
      HashIff(file.payload[MergeBaseSha], 40);
    } else {
      HashesAreTexts(file);
    }
  }

  ghost predicate IsHash(j: Json, length: nat) {
    j.Text? && |j.s| == length && forall c :: c in j.s ==> '0' <= c <= '9' || 'a' <= c <= 'f'
  }

  lemma HashIff(j: Json, length: nat)
    requires j.Text?
    ensures IsHash(j, length) <==> IsHex(j.s, length)
  {
    assert forall i :: 0 <= i < |j.s| ==> j.s[i] in j.s;
  }

  lemma HashesAreTexts(file: File)
    ensures forall j, length :: IsHash(j, length) ==> j.Text?
  {
  }

  lemma TrustedIff(lock: Lock)
    ensures Trusted(lock)
       <==> && lock.schemaVersion == 1 && PlanPathMatchesIssue(lock.planPath, lock.issue)
            && lock.targetBranch == "main" && IsBranch(lock.branch, lock.issue)
            && IsHex(lock.planHash, 64) && IsHex(lock.baseTipSha, 40) && IsHex(lock.mergeBaseSha, 40)
  {
    hide PlanPathMatchesIssue, IsBranch, LockString, IsHex;
    if PlanPathMatchesIssue(lock.planPath, lock.issue) {
      PathClean(lock.planPath, lock.issue);
      PlanPathIff(lock.planPath, lock.issue);
    }
    if IsBranch(lock.branch, lock.issue) {
      BranchClean(lock.branch, lock.issue);
    }
    if IsHex(lock.planHash, 64) { HexPlain(lock.planHash, 64); }
    if IsHex(lock.baseTipSha, 40) { HexPlain(lock.baseTipSha, 40); }
    if IsHex(lock.mergeBaseSha, 40) { HexPlain(lock.mergeBaseSha, 40); }
    MainClean();
  }

  // Plans and contexts of this kind exist.
  lemma SampleIsParsed() returns (plan: Plan, context: GitContext)
    ensures ParsedPlan(plan) && ResolvedContext(context, plan.issue)
  {
    hide PlanPathMatchesIssue, IsBranch;
    var path := SamplePath();
    var branch := SampleBranch();
    var sha := seq(40, _ => 'a');
    plan := Plan(7, "main", [], {}, {}, path, seq(64, _ => '0'));
    context := GitContext(branch, sha, sha, sha, sha);
  }

  lemma SamplePath() returns (path: string)
    ensures PlanPathMatchesIssue(path, 7)
  {
    var tail := "7.json";
    path := PLAN_DIRECTORY + tail;
    assert path[|PLAN_DIRECTORY|..] == tail;
    assert DigitRun(tail) == 1 && tail[..1] == "7" && tail[1..] == ".json" && Value("7") == 7;
  }

  lemma SampleBranch() returns (branch: string)
    ensures IsBranch(branch, 7)
  {
    branch := "fix/" + "7-x";
    assert branch[..4] == "fix/" && branch[4..] == "7-x";
    SampleSlug();
  }

  lemma SampleSlug()
    ensures IsNumberedSlug("7-x", 7, "")
  {
    var words: Words := ["x"];
    assert Decimal(7) == "7" && Join(words, '-') == "x";
    assert "7-x" == Decimal(7) + "-" + Join(words, '-') + "";
    PrintedSlug("7-x", 7, words, "");
  }
}
