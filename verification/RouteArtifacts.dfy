/** From candidates and rendered targets to route artifacts and back: crates/app-live/src/discovery.rs,
    startup.rs and config.rs. JSON is taken to give back what it was given. */
module RouteArtifacts {
  import opened Options
  import opened Text
  import opened FilterMaps
  import opened OrderedKeys
  import opened PlanIdentity
  import opened StableSort
  import StrategyDigest

  datatype Validation = Adoptable | Deferred(reason: Bytes) | Rejected(reason: Bytes)

  datatype Candidate = Candidate(targetId: Bytes, familyId: Bytes, validation: Validation)

  datatype Content =
    | FullSetContent(basisDigest: Bytes)
    | NegRiskContent(familyId: Bytes, rendered: Option<FamilyTarget>, targetId: Bytes, validation: Validation)

  datatype RouteArtifact = RouteArtifact(route: Bytes, scope: Bytes, policyVersion: Bytes, digest: Bytes,
                                         content: Content)

  datatype RuntimeArtifact = RuntimeArtifact(scope: Bytes, policyVersion: Bytes, digest: Bytes, content: Content)

  /** What the repository takes from elsewhere: the JSON printer, and whether trimming a string of
      Unicode white space leaves nothing. */
  datatype Foreign = Foreign(json: Content -> Bytes, blank: Bytes -> bool)

  /** Trimming leaves what does not start with white space. */
  ghost predicate Trims(f: Foreign) {
    forall s :: !f.blank("target:" + s)
  }

  type Rendered = map<Bytes, FamilyTarget>

  function Digest(route: Bytes, scope: Bytes, version: Bytes, content: Content, f: Foreign): Bytes {
    StrategyDigest.SemanticDigest(
      StrategyDigest.DigestInput(route, scope, version, f.json(content), None, None, None, None, None, None))
  }

  function FullSetArtifact(basisDigest: Bytes, f: Foreign): RouteArtifact {
    var content, version := FullSetContent(basisDigest), "full-set-route-policy-v1";
    RouteArtifact("full-set", "default", version, Digest("full-set", "default", version, content, f), content)
  }

  /** `neg_risk_route_artifact`: a blank family falls back to a scope made from the target id. */
  function NegRiskArtifact(c: Candidate, target: Option<FamilyTarget>, f: Foreign): RouteArtifact {
    var scope := if f.blank(c.familyId) then "target:" + c.targetId else c.familyId;
    var content, version := NegRiskContent(c.familyId, target, c.targetId, c.validation), "neg-risk-route-policy-v1";
    RouteArtifact("neg-risk", scope, version, Digest("neg-risk", scope, version, content, f), content)
  }

  function Lookup(rendered: Rendered, family: Bytes): Option<FamilyTarget> {
    if family in rendered then Some(rendered[family]) else None
  }

  function ArtifactOf(rendered: Rendered, f: Foreign): Candidate -> RouteArtifact {
    (c: Candidate) => NegRiskArtifact(c, Lookup(rendered, c.familyId), f)
  }

  function Key(a: RouteArtifact): seq<Bytes> {
    [a.route, a.scope]
  }

  predicate ArtifactLeq(a: RouteArtifact, b: RouteArtifact) {
    KeyLeq(Key(a), Key(b))
  }

  /** `CandidateBridge::route_artifacts`. */
  function Render(candidates: seq<Candidate>, rendered: Rendered, basisDigest: Bytes, f: Foreign): seq<RouteArtifact> {
    Sort([FullSetArtifact(basisDigest, f)] + Map(ArtifactOf(rendered, f), candidates), ArtifactLeq)
  }

  // ----- Startup -----

  datatype StartupError = EmptyRouteArtifacts | InvalidRouteArtifacts(route: Bytes, scope: Bytes)

  /** `validate_live_route_scope`. */
  predicate ValidScope(a: RouteArtifact, f: Foreign) {
    (a.route == "full-set" && a.scope == "default") || (a.route == "neg-risk" && !f.blank(a.scope))
  }

  function ToRuntime(a: RouteArtifact): RuntimeArtifact {
    RuntimeArtifact(a.scope, a.policyVersion, a.digest, a.content)
  }

  function RuntimeFor(route: Bytes): RouteArtifact -> Option<RuntimeArtifact> {
    (a: RouteArtifact) => if a.route == route then Some(ToRuntime(a)) else None
  }

  /** The artifacts of a route, in order. */
  function OfRoute(artifacts: seq<RouteArtifact>, route: Bytes): seq<RuntimeArtifact> {
    FilterMap(RuntimeFor(route), artifacts)
  }

  type Grouped = map<Bytes, seq<RuntimeArtifact>>

  /** Each route holds its artifacts in the order they were listed. */
  ghost predicate Groups(grouped: Grouped, artifacts: seq<RouteArtifact>) {
    forall route :: (if route in grouped then grouped[route] else []) == OfRoute(artifacts, route)
  }

  /** `parse_route_artifacts`, after the payload is read: refuses an empty list and the first
      artifact whose scope its route does not allow. */
  method ParseRouteArtifacts(artifacts: seq<RouteArtifact>, f: Foreign) returns (r: Result<Grouped, StartupError>)
    ensures r.Ok? <==> artifacts != [] && forall i :: 0 <= i < |artifacts| ==> ValidScope(artifacts[i], f)
    ensures r.Ok? ==> Groups(r.value, artifacts)
    ensures r.Err? && artifacts != [] ==>
              exists i :: 0 <= i < |artifacts| && !ValidScope(artifacts[i], f)
                          && (forall j :: 0 <= j < i ==> ValidScope(artifacts[j], f))
                          && r.error == InvalidRouteArtifacts(artifacts[i].route, artifacts[i].scope)
  {
    if artifacts == [] {
      return Err(EmptyRouteArtifacts);
    }
    var grouped: Grouped := map[];
    for n := 0 to |artifacts|
      invariant forall i :: 0 <= i < n ==> ValidScope(artifacts[i], f)
      invariant Groups(grouped, artifacts[..n])
    {
      var artifact := artifacts[n];
      if !ValidScope(artifact, f) {
        return Err(InvalidRouteArtifacts(artifact.route, artifact.scope));
      }
      grouped := AddArtifact(grouped, artifact, artifacts[..n]);
      assert artifacts[..n + 1] == artifacts[..n] + [artifact];
    }
    assert artifacts[..|artifacts|] == artifacts;
    r := Ok(grouped);
  }

  method AddArtifact(grouped: Grouped, artifact: RouteArtifact, ghost before: seq<RouteArtifact>) returns (r: Grouped)
    requires Groups(grouped, before)
    ensures Groups(r, before + [artifact])
  {
    forall route ensures OfRoute(before + [artifact], route)
                      == OfRoute(before, route) + if artifact.route == route then [ToRuntime(artifact)] else [] {
      FilterMapPush(RuntimeFor(route), before, artifact);
    }
    var entry := if artifact.route in grouped then grouped[artifact.route] else [];
    r := grouped[artifact.route := entry + [ToRuntime(artifact)]];
  }

  function TargetOf(c: Content): Option<FamilyTarget> {
    if c.NegRiskContent? then c.rendered else None
  }

  function Carries(): RuntimeArtifact -> Option<FamilyTarget> {
    (a: RuntimeArtifact) => TargetOf(a.content)
  }

  /** The targets that a list of artifacts carries, in order. */
  function Carried(artifacts: seq<RuntimeArtifact>): seq<FamilyTarget> {
    FilterMap(Carries(), artifacts)
  }

  function FamilyOf(t: FamilyTarget): Bytes {
    t.familyId
  }

  /** The targets by their own family ids. */
  ghost predicate ByFamily(m: Rendered, targets: seq<FamilyTarget>) {
    && (forall i :: 0 <= i < |targets| ==> targets[i].familyId in m && m[targets[i].familyId] == targets[i])
    && (forall k :: k in m ==> exists i :: 0 <= i < |targets| && targets[i].familyId == k)
  }

  datatype ConfigError = DuplicateFamilyId(familyId: Bytes)

  /** `neg_risk_live_targets_from_route_artifacts`: rebuilds the target map unless two carried
      targets name one family. */
  method TargetsFromRouteArtifacts(grouped: Grouped) returns (r: Result<Rendered, ConfigError>)
    ensures var carried := Carried(if "neg-risk" in grouped then grouped["neg-risk"] else []);
            && (r.Ok? <==> Distinct(Map(FamilyOf, carried)))
            && (r.Ok? ==> ByFamily(r.value, carried))
  {
    r := RebuildTargets(if "neg-risk" in grouped then grouped["neg-risk"] else []);
  }

  method RebuildTargets(artifacts: seq<RuntimeArtifact>) returns (r: Result<Rendered, ConfigError>)
    ensures r.Ok? <==> Distinct(Map(FamilyOf, Carried(artifacts)))
    ensures r.Ok? ==> ByFamily(r.value, Carried(artifacts))
  {
    var targets: Rendered := map[];
    for n := 0 to |artifacts|
      invariant Distinct(Map(FamilyOf, Carried(artifacts[..n]))) && ByFamily(targets, Carried(artifacts[..n]))
    {
      var content := artifacts[n].content;
      CarriedTurn(artifacts, n);
      if content.NegRiskContent? && content.rendered.Some? {
        var target := content.rendered.value;
        CarriedPush(targets, Carried(artifacts[..n]), target);
        if target.familyId in targets {
          PrefixRepeats(Carried(artifacts[..n + 1]), Carried(artifacts));
          return Err(DuplicateFamilyId(target.familyId));
        }
        targets := targets[target.familyId := target];
      }
    }
    assert artifacts[..|artifacts|] == artifacts;
    r := Ok(targets);
  }

  lemma CarriedTurn(artifacts: seq<RuntimeArtifact>, n: nat)
    requires n < |artifacts|
    ensures var target := TargetOf(artifacts[n].content);
            Carried(artifacts[..n + 1])
            == if target.Some? then Carried(artifacts[..n]) + [target.value] else Carried(artifacts[..n])
    ensures Carried(artifacts[..n + 1]) <= Carried(artifacts)
  {
    assert artifacts[..n + 1] == artifacts[..n] + [artifacts[n]];
    FilterMapPush(Carries(), artifacts[..n], artifacts[n]);
    FilterMapPrefix(Carries(), artifacts, n + 1);
  }

  lemma CarriedPush(m: Rendered, before: seq<FamilyTarget>, target: FamilyTarget)
    requires ByFamily(m, before) && Distinct(Map(FamilyOf, before))
    ensures target.familyId in m <==> !Distinct(Map(FamilyOf, before + [target]))
    ensures target.familyId !in m ==> ByFamily(m[target.familyId := target], before + [target])
  {
    var after := before + [target];
    assert after[|before|] == target && forall i :: 0 <= i < |before| ==> after[i] == before[i];
    assert Map(FamilyOf, after) == Map(FamilyOf, before) + [target.familyId];
    LastDistinct(Map(FamilyOf, before), target.familyId);
    assert target.familyId in Map(FamilyOf, before) <==> target.familyId in m by {
      if target.familyId in m {
        var i :| 0 <= i < |before| && before[i].familyId == target.familyId;
        assert Map(FamilyOf, before)[i] == target.familyId;
      }
    }
  }

  lemma PrefixRepeats(a: seq<FamilyTarget>, b: seq<FamilyTarget>)
    requires a <= b && !Distinct(Map(FamilyOf, a))
    ensures !Distinct(Map(FamilyOf, b))
  {
    var i, j :| 0 <= i < j < |a| && Map(FamilyOf, a)[i] == Map(FamilyOf, a)[j];
    assert Map(FamilyOf, b)[i] == Map(FamilyOf, b)[j];
  }

  // ----- The round trip -----

  /** What the artifacts of a list carry under the neg-risk route. */
  function Collect(artifacts: seq<RouteArtifact>): seq<FamilyTarget> {
    Carried(OfRoute(artifacts, "neg-risk"))
  }

  function Collects(): RouteArtifact -> Option<FamilyTarget> {
    (a: RouteArtifact) => if a.route == "neg-risk" then TargetOf(a.content) else None
  }

  lemma CollectInOneStep(artifacts: seq<RouteArtifact>)
    ensures Collect(artifacts) == FilterMap(Collects(), artifacts)
  {
    FilterMapTwice(RuntimeFor("neg-risk"), Carries(), Collects(), artifacts);
  }

  function RenderedFor(rendered: Rendered): Candidate -> Option<FamilyTarget> {
    (c: Candidate) => Lookup(rendered, c.familyId)
  }

  /** The rendered targets of the candidates' families. */
  function Chosen(candidates: seq<Candidate>, rendered: Rendered): seq<FamilyTarget> {
    FilterMap(RenderedFor(rendered), candidates)
  }

  /** What Render's artifacts carry is what was rendered for the candidates. */
  lemma RenderCarries(candidates: seq<Candidate>, rendered: Rendered, basisDigest: Bytes, f: Foreign)
    ensures multiset(Collect(Render(candidates, rendered, basisDigest, f))) == multiset(Chosen(candidates, rendered))
  {
    var first, rest := [FullSetArtifact(basisDigest, f)], Map(ArtifactOf(rendered, f), candidates);
    SortPermutes(first + rest, ArtifactLeq);
    CollectInOneStep(Render(candidates, rendered, basisDigest, f));
    FilterMapMultiset(Collects(), Render(candidates, rendered, basisDigest, f), first + rest);
    FilterMapConcat(Collects(), first, rest);
    assert first[..0] == [] && FilterMap(Collects(), first) == [];
    FilterMapOfMap(ArtifactOf(rendered, f), Collects(), RenderedFor(rendered), candidates);
  }

  /** Whatever Render makes, startup accepts: a blank family never becomes a blank scope. */
  lemma RenderedScopesAreValid(candidates: seq<Candidate>, rendered: Rendered, basisDigest: Bytes, f: Foreign)
    requires Trims(f)
    ensures var a := Render(candidates, rendered, basisDigest, f);
            a != [] && forall i :: 0 <= i < |a| ==> ValidScope(a[i], f)
  {
    var unsorted := [FullSetArtifact(basisDigest, f)] + Map(ArtifactOf(rendered, f), candidates);
    var a := Render(candidates, rendered, basisDigest, f);
    SortMembers(unsorted, ArtifactLeq);
    forall i | 0 <= i < |a| ensures ValidScope(a[i], f) {
      assert a[i] in unsorted;
      var j :| 0 <= j < |unsorted| && unsorted[j] == a[i];
    }
  }

  predicate Wanted(candidates: seq<Candidate>, family: Bytes) {
    exists i :: 0 <= i < |candidates| && candidates[i].familyId == family
  }

  /** No family with a rendered target is a candidate twice. */
  ghost predicate RenderedOnce(candidates: seq<Candidate>, rendered: Rendered) {
    forall i, j :: 0 <= i < j < |candidates| && candidates[i].familyId in rendered ==>
      candidates[i].familyId != candidates[j].familyId
  }

  lemma ChosenMembers(candidates: seq<Candidate>, rendered: Rendered)
    requires forall k :: k in rendered ==> rendered[k].familyId == k
    ensures forall t :: t in Chosen(candidates, rendered) <==>
                        t.familyId in rendered && rendered[t.familyId] == t && Wanted(candidates, t.familyId)
  {
    FilterMapMembers(RenderedFor(rendered), candidates);
    forall t ensures t in Chosen(candidates, rendered) <==>
                     t.familyId in rendered && rendered[t.familyId] == t && Wanted(candidates, t.familyId) {
      if t.familyId in rendered && rendered[t.familyId] == t && Wanted(candidates, t.familyId) {
        var i :| 0 <= i < |candidates| && candidates[i].familyId == t.familyId;
        assert RenderedFor(rendered)(candidates[i]) == Some(t);
      }
    }
  }

  lemma ChosenHasFamily(candidates: seq<Candidate>, rendered: Rendered, family: Bytes)
    requires forall k :: k in rendered ==> rendered[k].familyId == k
    requires family in rendered
    ensures family in Map(FamilyOf, Chosen(candidates, rendered)) <==> Wanted(candidates, family)
  {
    ChosenMembers(candidates, rendered);
    var chosen := Chosen(candidates, rendered);
    if family in Map(FamilyOf, chosen) {
      var i :| 0 <= i < |chosen| && Map(FamilyOf, chosen)[i] == family;
      assert chosen[i] in chosen;
    }
    if Wanted(candidates, family) {
      assert rendered[family] in chosen;
      var i :| 0 <= i < |chosen| && chosen[i] == rendered[family];
      assert Map(FamilyOf, chosen)[i] == family;
    }
  }

  lemma {:induction false} ChosenDistinctIff(candidates: seq<Candidate>, rendered: Rendered)
    requires forall k :: k in rendered ==> rendered[k].familyId == k
    ensures Distinct(Map(FamilyOf, Chosen(candidates, rendered))) <==> RenderedOnce(candidates, rendered)
  {
    if candidates != [] {
      var n := |candidates| - 1;
      var front, last := candidates[..n], candidates[n].familyId;
      var before := Chosen(front, rendered);
      ChosenDistinctIff(front, rendered);
      OnceSplits(candidates, rendered);
      if last in rendered {
        ChosenHasFamily(front, rendered, last);
        assert Map(FamilyOf, before + [rendered[last]]) == Map(FamilyOf, before) + [last];
        LastDistinct(Map(FamilyOf, before), last);
      } else {
        assert Chosen(candidates, rendered) == before;
      }
    }
  }

  lemma LastDistinct(s: seq<Bytes>, x: Bytes)
    ensures Distinct(s + [x]) <==> Distinct(s) && x !in s
  {
    var t := s + [x];
    assert t[|s|] == x && forall i :: 0 <= i < |s| ==> t[i] == s[i];
    if Distinct(t) {
      assert forall i, j :: 0 <= i < j < |s| ==> t[i] != t[j];
      assert forall i :: 0 <= i < |s| ==> t[i] != t[|s|];
    }
  }

  lemma OnceSplits(candidates: seq<Candidate>, rendered: Rendered)
    requires candidates != []
    ensures var n := |candidates| - 1;
            RenderedOnce(candidates, rendered) <==>
            RenderedOnce(candidates[..n], rendered)
            && !(candidates[n].familyId in rendered && Wanted(candidates[..n], candidates[n].familyId))
  {
    var n := |candidates| - 1;
    var front := candidates[..n];
    assert forall i :: 0 <= i < n ==> front[i] == candidates[i];
    if RenderedOnce(candidates, rendered) {
      forall i | 0 <= i < n && front[i].familyId == candidates[n].familyId ensures candidates[n].familyId !in rendered {
        assert candidates[i].familyId == candidates[n].familyId;
      }
    }
  }

  /** The rendered targets of the candidate families, by family. */
  function Restricted(candidates: seq<Candidate>, rendered: Rendered): Rendered {
    map k | k in rendered && Wanted(candidates, k) :: rendered[k]
  }

  /** Rebuilding targets from rendered artifacts fails exactly when a family with a rendered target
      is a candidate twice. */
  lemma RoundTripSucceedsIff(candidates: seq<Candidate>, rendered: Rendered, basisDigest: Bytes, f: Foreign)
    requires forall k :: k in rendered ==> rendered[k].familyId == k
    ensures Distinct(Map(FamilyOf, Collect(Render(candidates, rendered, basisDigest, f))))
            <==> RenderedOnce(candidates, rendered)
  {
    var carried, chosen := Collect(Render(candidates, rendered, basisDigest, f)), Chosen(candidates, rendered);
    RenderCarries(candidates, rendered, basisDigest, f);
    ChosenDistinctIff(candidates, rendered);
    MapMultiset(FamilyOf, carried, chosen);
    if Distinct(Map(FamilyOf, carried)) {
      DistinctIgnoresOrder(Map(FamilyOf, carried), Map(FamilyOf, chosen));
    }
    if Distinct(Map(FamilyOf, chosen)) {
      DistinctIgnoresOrder(Map(FamilyOf, chosen), Map(FamilyOf, carried));
    }
  }

  /** Rendering artifacts, parsing them at startup and rebuilding the targets gives back exactly the
      rendered targets of the candidate families. */
  lemma RoundTrip(candidates: seq<Candidate>, rendered: Rendered, basisDigest: Bytes, f: Foreign, m: Rendered)
    requires forall k :: k in rendered ==> rendered[k].familyId == k
    requires ByFamily(m, Collect(Render(candidates, rendered, basisDigest, f)))
    ensures m == Restricted(candidates, rendered)
  {
    RenderCarries(candidates, rendered, basisDigest, f);
    ChosenMembers(candidates, rendered);
    RebuiltIs(m, Collect(Render(candidates, rendered, basisDigest, f)), Chosen(candidates, rendered), candidates,
              rendered);
  }

  lemma RebuiltIs(m: Rendered, carried: seq<FamilyTarget>, chosen: seq<FamilyTarget>, candidates: seq<Candidate>,
                  rendered: Rendered)
    requires ByFamily(m, carried) && multiset(carried) == multiset(chosen)
    requires forall k :: k in rendered ==> rendered[k].familyId == k
    requires forall t :: t in chosen <==>
               t.familyId in rendered && rendered[t.familyId] == t && Wanted(candidates, t.familyId)
    ensures m == Restricted(candidates, rendered)
  {
    var want := Restricted(candidates, rendered);
    forall k | k in m ensures k in want && m[k] == want[k] {
      var i :| 0 <= i < |carried| && carried[i].familyId == k;
      assert carried[i] in multiset(chosen);
    }
    forall k | k in want ensures k in m {
      assert rendered[k] in chosen;
      assert rendered[k] in multiset(carried);
      var i :| 0 <= i < |carried| && carried[i] == rendered[k];
    }
    assert m.Keys == want.Keys;
  }

  /** Candidates that name every rendered family restrict nothing. */
  lemma RestrictedToAll(candidates: seq<Candidate>, rendered: Rendered)
    requires forall k :: k in rendered ==> Wanted(candidates, k)
    ensures Restricted(candidates, rendered) == rendered
  {
    assert Restricted(candidates, rendered).Keys == rendered.Keys;
  }

  // ----- Targets without artifacts -----

  function CompatibilityArtifact(t: FamilyTarget): RuntimeArtifact {
    RuntimeArtifact(t.familyId, "neg-risk-route-policy-v1", t.familyId,
                    NegRiskContent(t.familyId, Some(t), "candidate-target-" + t.familyId, Adoptable))
  }

  /** The neg-risk part of `compatibility_route_artifacts_from_targets`, in key order. */
  ghost function CompatibilityArtifacts(targets: Rendered): seq<RuntimeArtifact> {
    var keys := Ascending(targets.Keys);
    seq(|keys|, i requires 0 <= i < |keys| => assert keys[i] in keys; CompatibilityArtifact(targets[keys[i]]))
  }

  lemma {:induction false} AllCarried(artifacts: seq<RuntimeArtifact>, carried: seq<FamilyTarget>)
    requires |artifacts| == |carried|
    requires forall i :: 0 <= i < |artifacts| ==> TargetOf(artifacts[i].content) == Some(carried[i])
    ensures Carried(artifacts) == carried
  {
    if artifacts != [] {
      var n := |artifacts| - 1;
      AllCarried(artifacts[..n], carried[..n]);
      assert carried == carried[..n] + [carried[n]];
    }
  }

  /** Targets under their own family ids survive the compatibility artifacts unchanged. */
  lemma CompatibilityRoundTrip(targets: Rendered)
    requires forall k :: k in targets ==> targets[k].familyId == k
    ensures var carried := Carried(CompatibilityArtifacts(targets));
            && Distinct(Map(FamilyOf, carried))
            && forall m :: ByFamily(m, carried) ==> m == targets
  {
    var keys := Ascending(targets.Keys);
    var artifacts := CompatibilityArtifacts(targets);
    var carried := seq(|keys|, i requires 0 <= i < |keys| => assert keys[i] in keys; targets[keys[i]]);
    AllCarried(artifacts, carried);
    forall i | 0 <= i < |keys| ensures carried[i].familyId == keys[i] {
      assert keys[i] in keys;
    }
    assert Map(FamilyOf, carried) == keys;
    forall m | ByFamily(m, carried) ensures m == targets {
      ValuesRebuild(m, carried, keys, targets);
    }
  }

  lemma ValuesRebuild(m: Rendered, carried: seq<FamilyTarget>, keys: seq<Bytes>, targets: Rendered)
    requires ByFamily(m, carried) && |carried| == |keys| && forall k :: k in keys <==> k in targets
    requires forall i :: 0 <= i < |keys| ==> carried[i].familyId == keys[i] && carried[i] == targets[keys[i]]
    ensures m == targets
  {
    forall k | k in targets ensures k in m && m[k] == targets[k] {
      var i :| 0 <= i < |keys| && keys[i] == k;
      assert carried[i].familyId == k;
    }
    forall k | k in m ensures k in targets {
      var i :| 0 <= i < |carried| && carried[i].familyId == k;
      assert keys[i] in keys;
    }
    assert m.Keys == targets.Keys;
  }
}
