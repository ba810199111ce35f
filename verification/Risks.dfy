/** From changed paths to risks, and from risks to the checks that must run. */
module Risks {
  import opened Wrappers
  import opened Text
  import opened PathPatterns

  datatype Plan = Plan(
    issue: int,
    targetBranch: string,
    allowedPaths: seq<string>,
    declaredRisks: set<string>,
    contractPaths: set<string>,       // the paths of the contractChanges declarations
    relativePath: string,
    planHash: string)

  datatype RiskRule = RiskRule(patterns: seq<string>, risks: set<string>)

  datatype RiskPolicy = RiskPolicy(
    rules: seq<RiskRule>,
    protectedPatterns: seq<string>,
    riskChecks: map<string, set<string>>)

  datatype Classification = Classification(detected: set<string>, unclassified: set<string>)

  predicate MatchesAny(patterns: seq<string>, path: string) {
    exists p :: p in patterns && PathMatches(p, path)
  }

  function ScopeViolations(changed: set<string>, plan: Plan): set<string> {
    set path | path in changed && path != plan.relativePath && !MatchesAny(plan.allowedPaths, path)
  }

  function UndeclaredProtected(changed: set<string>, plan: Plan, policy: RiskPolicy): set<string> {
    set path | path in changed && path != plan.relativePath
               && MatchesAny(policy.protectedPatterns, path) && path !in plan.contractPaths
  }

  // No path is out of scope exactly when every path but the plan itself is allowed.
  lemma ScopeRespected(changed: set<string>, plan: Plan)
    ensures ScopeViolations(changed, plan) == {}
       <==> forall path :: path in changed && path != plan.relativePath ==>
              exists pattern :: pattern in plan.allowedPaths && PathMatches(pattern, path)
  {
    assert forall path :: path in ScopeViolations(changed, plan) <==>
      path in changed && path != plan.relativePath && !MatchesAny(plan.allowedPaths, path);
  }

  // No protected path is undeclared exactly when every protected path but the plan itself is declared.
  lemma ProtectionRespected(changed: set<string>, plan: Plan, policy: RiskPolicy)
    ensures UndeclaredProtected(changed, plan, policy) == {}
       <==> forall path, pattern ::
              path in changed && path != plan.relativePath && pattern in policy.protectedPatterns
              && PathMatches(pattern, path)
              ==> path in plan.contractPaths
  {
    assert forall path :: path in UndeclaredProtected(changed, plan, policy) <==>
      path in changed && path != plan.relativePath
      && MatchesAny(policy.protectedPatterns, path) && path !in plan.contractPaths;
  }

  // `risk` comes from a changed path other than the plan.
  ghost predicate IsDetected(risk: string, changed: set<string>, policy: RiskPolicy, planPath: string) {
    exists path, rule :: path in changed && path != planPath && rule in policy.rules
                         && MatchesAny(rule.patterns, path) && risk in rule.risks
  }

  ghost predicate IsUnclassified(path: string, changed: set<string>, policy: RiskPolicy, planPath: string) {
    path in changed && path != planPath && forall rule :: rule in policy.rules ==> !MatchesAny(rule.patterns, path)
  }

  method ClassifyRisks(changed: set<string>, policy: RiskPolicy, planPath: string) returns (c: Classification)
    ensures forall risk :: risk in c.detected <==> IsDetected(risk, changed, policy, planPath)
    ensures forall path :: path in c.unclassified <==> IsUnclassified(path, changed, policy, planPath)
  {
    var detected, unclassified: set<string> := {}, {};
    var left := changed;
    while left != {}
      invariant left <= changed
      invariant forall risk :: risk in detected <==> IsDetected(risk, changed - left, policy, planPath)
      invariant forall path :: path in unclassified <==> IsUnclassified(path, changed - left, policy, planPath)
      decreases left
    {
      var path :| path in left;
      assert changed - (left - {path}) == (changed - left) + {path};
      left := left - {path};
      if path != planPath {
        var risks, matched := MatchRules(path, policy.rules);
        detected := detected + risks;
        if !matched {
          unclassified := unclassified + {path};
        }
      }
    }
    assert changed - left == changed;
    return Classification(detected, unclassified);
  }

  method MatchRules(path: string, rules: seq<RiskRule>) returns (risks: set<string>, matched: bool)
    ensures matched <==> exists rule :: rule in rules && MatchesAny(rule.patterns, path)
    ensures forall risk :: risk in risks <==>
              exists rule :: rule in rules && MatchesAny(rule.patterns, path) && risk in rule.risks
  {
    risks, matched := {}, false;
    for i := 0 to |rules|
      invariant matched <==> exists rule :: rule in rules[..i] && MatchesAny(rule.patterns, path)
      invariant forall risk :: risk in risks <==>
                  exists rule :: rule in rules[..i] && MatchesAny(rule.patterns, path) && risk in rule.risks
    {
      assert rules[..i + 1] == rules[..i] + [rules[i]];
      if MatchesAny(rules[i].patterns, path) {
        matched := true;
        risks := risks + rules[i].risks;
        assert rules[i] in rules[..i + 1];
      }
    }
    assert rules[..|rules|] == rules;
  }

  const INLINE_CHECK_IDS: set<string> := {"scope.allowed-paths", "risk.classification", "risk.declaration"}

  // The ids evaluate checks itself.
  lemma InlineIds(id: string)
    ensures id in INLINE_CHECK_IDS <==> id in {"scope.allowed-paths", "risk.classification", "risk.declaration"}
  {
  }

  // The ids wanted by the risks, the two fixed ones and the inline ones apart.
  ghost predicate IsRiskCheck(id: string, risks: set<string>, policy: RiskPolicy) {
    && id !in INLINE_CHECK_IDS && id != "harness.unit" && id != "gradle.test"
    && exists risk :: risk in risks && risk in policy.riskChecks && id in policy.riskChecks[risk]
  }

  // What must be requested for a set of risks; None is the KeyError of a risk without checks.
  ghost predicate IsRequest(ids: Option<seq<string>>, risks: set<string>, policy: RiskPolicy) {
    && (ids.None? <==> !(risks <= policy.riskChecks.Keys))
    && (ids.Some? ==>
          && |ids.value| >= 2 && ids.value[0] == "harness.unit" && ids.value[1] == "gradle.test"
          && Ascending(ids.value[2..])
          && forall id :: id in ids.value[2..] <==> IsRiskCheck(id, risks, policy))
  }

  method RequiredCheckIds(plan: Plan, detected: set<string>, policy: RiskPolicy) returns (ids: Option<seq<string>>)
    ensures IsRequest(ids, plan.declaredRisks + detected, policy)
  {
    var selected := {"harness.unit", "gradle.test"};
    var risks := plan.declaredRisks + detected;
    var left := risks;
    while left != {}
      invariant left <= risks
      invariant risks - left <= policy.riskChecks.Keys
      invariant forall id :: id in selected <==>
                  id == "harness.unit" || id == "gradle.test"
                  || exists risk :: risk in risks - left && id in policy.riskChecks[risk]
      decreases left
    {
      var risk :| risk in left;
      if risk !in policy.riskChecks {
        assert risk in risks;
        return None;
      }
      assert risks - (left - {risk}) == (risks - left) + {risk};
      left := left - {risk};
      selected := selected + policy.riskChecks[risk];
    }
    assert risks - left == risks;
    selected := selected - INLINE_CHECK_IDS - {"harness.unit", "gradle.test"};
    var rest := SortSet(selected);
    var all := ["harness.unit", "gradle.test"] + rest;
    assert all[2..] == rest;
    return Some(all);
  }
}
