/** The architecture oracle, from the package and import names already extracted from the sources. */
module Architecture {
  import opened Wrappers
  import opened Text
  import opened Cycles

  const PREFIX: string := "com.example.coffee."

  function Layer(name: string): string {
    if !(PREFIX <= name) then "external"
    else
      var tail := Split(name[|PREFIX|..], '.');
      if tail[0] == "domain" && |tail| >= 2 then "domain." + tail[1]
      else if tail[0] == "infra" && |tail| >= 2 then "infra." + tail[1]
      else tail[0]
  }

  // The layer of a package of the application is its first segment, or its first two below `domain` and `infra`.
  lemma LayerIsLeadingSegments(name: string)
    requires PREFIX <= name
    ensures var tail := Split(name[|PREFIX|..], '.');
      Split(Layer(name), '.')
      == if tail[0] in {"domain", "infra"} && |tail| >= 2 then tail[..2] else tail[..1]
  {
    hide Split;
    var tail := Split(name[|PREFIX|..], '.');
    SplitParts(name[|PREFIX|..], '.');
    SplitPlain(tail[0], '.');
    if tail[0] in {"domain", "infra"} && |tail| >= 2 {
      SplitPlain(tail[1], '.');
      SplitConcat(tail[0], '.', tail[1]);
      assert Layer(name) == tail[0] + ['.'] + tail[1];
      assert tail[..2] == [tail[0]] + [tail[1]];
    } else {
      assert tail[..1] == [tail[0]];
    }
  }

  predicate LayerMatches(actual: string, declared: string) {
    actual == declared || declared + "." <= actual
  }

  // A rule covers a layer and its sub-layers, never a layer whose name merely starts the same.
  lemma LayerMatchesSegments(actual: string, declared: string)
    ensures LayerMatches(actual, declared) <==> Split(declared, '.') <= Split(actual, '.')
  {
    assert declared + ['.'] == declared + ".";
    SegmentPrefix(declared, actual, '.');
  }

  datatype Source = Source(package: Option<string>, imports: seq<string>)

  datatype Verdict = Pass | NoSources | NoPackage | Forbidden | Cyclic(cycle: seq<string>)

  // A name of the application. Its packages below `external` are taken for foreign ones.
  predicate InApplication(name: string) {
    "com.example.coffee." <= name && Split(name[|"com.example.coffee."|..], '.')[0] != "external"
  }

  lemma ExternalIsForeign(name: string)
    ensures Layer(name) == "external" <==> !InApplication(name)
  {
    hide Split;
    if PREFIX <= name {
      var tail := Split(name[|PREFIX|..], '.');
      if |tail| >= 2 {
        assert ("domain." + tail[1])[0] == 'd' && ("infra." + tail[1])[0] == 'i' && "external"[0] == 'e';
      }
    }
  }

  // An import of one source breaks a rule: importing and imported layer are under the rule's two ends.
  ghost predicate Forbids(sources: seq<Source>, rules: seq<Edge>) {
    exists s, x, r ::
      && s in sources && s.package.Some? && x in s.imports && InApplication(x) && r in rules
      && LayerMatches(Layer(s.package.value), r.0) && LayerMatches(Layer(x), r.1)
  }

  // Edge from `a` to `b`: a source of layer `a` imports a name of layer `b` of the application.
  ghost predicate DependsOn(sources: seq<Source>, a: string, b: string) {
    exists s, x ::
      && s in sources && s.package.Some? && x in s.imports && InApplication(x)
      && a == Layer(s.package.value) && b == Layer(x)
  }

  // The layers depend on each other in no circle, dependencies of a layer on itself apart.
  ghost predicate NoLayerCycle(sources: seq<Source>) {
    forall walk: seq<string> ::
      |walk| >= 2 && (forall i :: 0 < i < |walk| ==> walk[i - 1] != walk[i] && DependsOn(sources, walk[i - 1], walk[i]))
      ==> walk[0] != walk[|walk| - 1]
  }

  method AddSource(source: Source, rules: seq<Edge>) returns (edges: seq<Edge>, broken: bool)
    requires source.package.Some?
    ensures forall a, b :: (a, b) in edges <==> DependsOn([source], a, b)
    ensures broken <==> Forbids([source], rules)
  {
    edges, broken := [], false;
    var sourceLayer := Layer(source.package.value);
    for i := 0 to |source.imports|
      invariant forall a, b :: (a, b) in edges <==> DependsOn([source.(imports := source.imports[..i])], a, b)
      invariant broken <==> Forbids([source.(imports := source.imports[..i])], rules)
    {
      var x := source.imports[i];
      var targetLayer := Layer(x);
      ExternalIsForeign(x);
      NextImport(source, i, rules);
      if targetLayer != "external" {
        var breaks := BreaksAny(sourceLayer, targetLayer, rules);
        edges := edges + [(sourceLayer, targetLayer)];
        broken := broken || breaks;
      }
    }
    assert source.(imports := source.imports[..|source.imports|]) == source;
  }

  method BreaksAny(source: string, target: string, rules: seq<Edge>) returns (broken: bool)
    ensures broken <==> exists r :: r in rules && LayerMatches(source, r.0) && LayerMatches(target, r.1)
  {
    broken := false;
    for k := 0 to |rules|
      invariant broken <==> exists r :: r in rules[..k] && LayerMatches(source, r.0) && LayerMatches(target, r.1)
    {
      assert rules[..k + 1] == rules[..k] + [rules[k]];
      if LayerMatches(source, rules[k].0) && LayerMatches(target, rules[k].1) {
        assert rules[k] in rules[..k + 1];
        broken := true;
      }
    }
    assert rules[..|rules|] == rules;
  }

  // What one more import adds to the dependencies and the broken rules.
  lemma NextImport(source: Source, i: nat, rules: seq<Edge>)
    requires source.package.Some? && i < |source.imports|
    ensures var x := source.imports[i];
      var before, after := source.(imports := source.imports[..i]), source.(imports := source.imports[..i + 1]);
      && (forall a, b :: DependsOn([after], a, b) <==>
            DependsOn([before], a, b) || (InApplication(x) && a == Layer(source.package.value) && b == Layer(x)))
      && (Forbids([after], rules) <==>
            || Forbids([before], rules)
            || (InApplication(x) && exists r ::
                  r in rules && LayerMatches(Layer(source.package.value), r.0) && LayerMatches(Layer(x), r.1)))
  {
    hide Layer, LayerMatches, InApplication;
    var x := source.imports[i];
    var before, after := source.(imports := source.imports[..i]), source.(imports := source.imports[..i + 1]);
    assert after.imports == before.imports + [x];
    assert x in after.imports && after in [after] && before in [before];
    assert forall s :: s in [after] ==> s == after;
    assert forall s :: s in [before] ==> s == before;
  }

  // The sources of two lists together.
  lemma SourcesConcat(xs: seq<Source>, ys: seq<Source>, rules: seq<Edge>)
    ensures forall a, b :: DependsOn(xs + ys, a, b) <==> DependsOn(xs, a, b) || DependsOn(ys, a, b)
    ensures Forbids(xs + ys, rules) <==> Forbids(xs, rules) || Forbids(ys, rules)
  {
    hide Layer, LayerMatches, InApplication;
    assert forall s :: s in xs + ys <==> s in xs || s in ys;
  }

  lemma AcyclicIsNoLayerCycle(sources: seq<Source>, edges: seq<Edge>)
    requires forall a, b :: (a, b) in edges <==> DependsOn(sources, a, b)
    ensures Acyclic(edges) <==> NoLayerCycle(sources)
  {
    hide DependsOn;
    forall walk: seq<string>
      ensures IsWalk(edges, walk)
         <==> |walk| >= 2
              && (forall i :: 0 < i < |walk| ==> walk[i - 1] != walk[i] && DependsOn(sources, walk[i - 1], walk[i]))
    {
    }
  }

  // PASS exactly when there are sources, each names its package, no import breaks a rule, and the layers do not
  // depend on each other in a circle. Otherwise the first of these that fails is the verdict.
  method ValidateArchitecture(sources: seq<Source>, rules: seq<Edge>) returns (v: Verdict)
    ensures v.Pass? <==> sources != [] && (forall s :: s in sources ==> s.package.Some?)
                         && !Forbids(sources, rules) && NoLayerCycle(sources)
    ensures v == NoSources <==> sources == []
    ensures v == NoPackage <==> exists s :: s in sources && s.package.None?
    ensures v == Forbidden <==> (forall s :: s in sources ==> s.package.Some?) && Forbids(sources, rules)
    ensures v.Cyclic? ==>
              && |v.cycle| >= 3 && v.cycle[0] == v.cycle[|v.cycle| - 1]
              && (forall i, j :: 0 <= i < j < |v.cycle| - 1 ==> v.cycle[i] != v.cycle[j])
              && forall i :: 0 < i < |v.cycle| ==> DependsOn(sources, v.cycle[i - 1], v.cycle[i])
  {
    if sources == [] {
      return NoSources;
    }
    var edges: seq<Edge> := [];
    var violated := false;
    for i := 0 to |sources|
      invariant forall s :: s in sources[..i] ==> s.package.Some?
      invariant forall a, b :: (a, b) in edges <==> DependsOn(sources[..i], a, b)
      invariant violated <==> Forbids(sources[..i], rules)
    {
      var source := sources[i];
      if source.package.None? {
        assert source in sources;
        return NoPackage;
      }
      var added, broken := AddSource(source, rules);
      assert sources[..i + 1] == sources[..i] + [source];
      SourcesConcat(sources[..i], [source], rules);
      edges := edges + added;
      violated := violated || broken;
    }
    assert sources[..|sources|] == sources;
    if violated {
      return Forbidden;
    }
    var cycle := FindCycle(edges);
    AcyclicIsNoLayerCycle(sources, edges);
    return if cycle.Some? then Cyclic(cycle.value) else Pass;
  }
}
