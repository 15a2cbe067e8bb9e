/** Candidate notices: `process_notice`, validation and restriction of crates/app-live/src/discovery.rs,
    and the whole way from metadata rows to the targets a restarted process runs with. */
module Notices {
  import opened Options
  import opened Text
  import opened Discovery
  import opened StableSort
  import R = RouteArtifacts

  datatype DiscoveryRecord = DiscoveryRecord(familyId: Bytes, backfillCompleted: bool)

  datatype Restriction = Eligible | Advisory(reason: Bytes) | Restricted(reason: Bytes)

  datatype Notice = Notice(
    view: Option<seq<DiscoveryRecord>>, candidatesDirty: bool, restriction: Restriction,
    authoritative: bool, rendered: R.Rendered, basisDigest: Bytes)

  datatype CandidateSet = CandidateSet(targets: seq<R.Candidate>, adoptable: bool)

  datatype Summary = Summary(adoptable: nat, deferred: nat, excluded: nat) {
    function Disposition(): Bytes {
      if adoptable > 0 && deferred == 0 && excluded == 0 then "adoptable"
      else if excluded > 0 then "excluded"
      else "deferred"
    }
  }

  datatype NoticeError = NotReady | NoDiscoveryRecords | RequiresAdoptableRevision

  datatype Outcome = Outcome(
    disposition: Bytes, summary: Summary, candidate: Option<seq<R.RouteArtifact>>,
    adoptable: Option<seq<R.RouteArtifact>>)

  /** `validation_for_record`. */
  function ValidationFor(r: DiscoveryRecord, authoritative: bool, f: R.Foreign): R.Validation {
    if !authoritative && !r.backfillCompleted
    then R.Deferred("candidate generation deferred until discovery backfill completes")
    else if f.blank(r.familyId) then R.Rejected("candidate excluded by conservative discovery policy")
    else R.Adoptable
  }

  function CandidateFor(authoritative: bool, f: R.Foreign): DiscoveryRecord -> R.Candidate {
    (r: DiscoveryRecord) => R.Candidate("candidate-target-" + r.familyId, r.familyId,
                                        ValidationFor(r, authoritative, f))
  }

  predicate IsAdoptable(c: R.Candidate) {
    c.validation.Adoptable?
  }

  ghost predicate AllAdoptable(targets: seq<R.Candidate>) {
    forall i :: 0 <= i < |targets| ==> IsAdoptable(targets[i])
  }

  /** `ValidationSummary::from_targets`. */
  method Summarize(targets: seq<R.Candidate>) returns (s: Summary)
    ensures s.adoptable + s.deferred + s.excluded == |targets|
    ensures s.deferred == 0 && s.excluded == 0 <==> AllAdoptable(targets)
    ensures s.adoptable > 0 <==> exists i :: 0 <= i < |targets| && IsAdoptable(targets[i])
    ensures s.excluded > 0 <==> exists i :: 0 <= i < |targets| && targets[i].validation.Rejected?
  {
    s := Summary(0, 0, 0);
    for n := 0 to |targets|
      invariant s.adoptable + s.deferred + s.excluded == n
      invariant s.deferred == 0 && s.excluded == 0 <==> forall i :: 0 <= i < n ==> IsAdoptable(targets[i])
      invariant s.adoptable > 0 <==> exists i :: 0 <= i < n && IsAdoptable(targets[i])
      invariant s.excluded > 0 <==> exists i :: 0 <= i < n && targets[i].validation.Rejected?
    {
      match targets[n].validation
      case Adoptable => s := s.(adoptable := s.adoptable + 1);
      case Deferred(_) => s := s.(deferred := s.deferred + 1);
      case Rejected(_) => s := s.(excluded := s.excluded + 1);
    }
  }

  function Gated(c: R.Candidate, reason: Bytes): R.Candidate {
    if IsAdoptable(c) then c.(validation := R.Deferred(reason)) else c
  }

  /** `apply_candidate_restriction`: a hard gate defers every adoptable target and takes the
      adoptable revision away if there was one to defer. */
  method ApplyRestriction(set_: CandidateSet, restriction: Restriction) returns (r: CandidateSet)
    ensures !restriction.Restricted? ==> r == set_
    ensures restriction.Restricted? ==>
              && |r.targets| == |set_.targets|
              && (forall i :: 0 <= i < |r.targets| ==> r.targets[i] == Gated(set_.targets[i], restriction.reason))
              && (r.adoptable
                  <==> set_.adoptable && forall i :: 0 <= i < |set_.targets| ==> !IsAdoptable(set_.targets[i]))
  {
    if !restriction.Restricted? {
      return set_;
    }
    var targets, gated := set_.targets, false;
    for n := 0 to |targets|
      invariant |targets| == |set_.targets|
      invariant forall i :: 0 <= i < n ==> targets[i] == Gated(set_.targets[i], restriction.reason)
      invariant forall i :: n <= i < |targets| ==> targets[i] == set_.targets[i]
      invariant gated <==> exists i :: 0 <= i < n && IsAdoptable(set_.targets[i])
    {
      if IsAdoptable(targets[n]) {
        targets := targets[n := targets[n].(validation := R.Deferred(restriction.reason))];
        gated := true;
      }
    }
    r := CandidateSet(targets, set_.adoptable && !gated);
  }

  /** What a notice must be for its candidates to be adopted. */
  ghost predicate Adopts(n: Notice, f: R.Foreign) {
    && n.candidatesDirty && n.view.Some? && n.view.value != [] && !n.restriction.Restricted?
    && forall i :: 0 <= i < |n.view.value| ==>
         (n.authoritative || n.view.value[i].backfillCompleted) && !f.blank(n.view.value[i].familyId)
  }

  function Candidates(n: Notice, f: R.Foreign): seq<R.Candidate>
    requires n.view.Some?
  {
    Map(CandidateFor(n.authoritative, f), n.view.value)
  }

  lemma AdoptableIff(n: Notice, f: R.Foreign)
    requires n.view.Some?
    ensures AllAdoptable(Candidates(n, f)) <==>
            forall i :: 0 <= i < |n.view.value| ==>
              (n.authoritative || n.view.value[i].backfillCompleted) && !f.blank(n.view.value[i].familyId)
  {
    forall i | 0 <= i < |n.view.value|
      ensures IsAdoptable(Candidates(n, f)[i]) <==>
              (n.authoritative || n.view.value[i].backfillCompleted) && !f.blank(n.view.value[i].familyId)
    {
    }
  }

  /** Validation, restriction and the summary after it. */
  method Judge(targets: seq<R.Candidate>, restriction: Restriction) returns (candidates: CandidateSet, summary: Summary)
    requires targets != []
    ensures |candidates.targets| == |targets| && summary.adoptable + summary.deferred + summary.excluded == |targets|
    ensures summary.Disposition() == "adoptable" <==> !restriction.Restricted? && AllAdoptable(targets)
    ensures summary.Disposition() == "adoptable" ==> candidates == CandidateSet(targets, true)
  {
    var first := Summarize(targets);
    var before := CandidateSet(targets, first.Disposition() == "adoptable");
    candidates := ApplyRestriction(before, restriction);
    summary := Summarize(candidates.targets);
    if restriction.Restricted? {
      assert !IsAdoptable(candidates.targets[0]);
    } else {
      assert IsAdoptable(targets[0]) || !AllAdoptable(targets);
    }
  }

  /** `process_notice`: an adoptable rendering comes out exactly when the notice adopts, and the
      bridge's own refusal can never happen. */
  method ProcessNotice(n: Notice, f: R.Foreign) returns (r: Result<Outcome, NoticeError>)
    ensures r.Err? <==> n.candidatesDirty && (n.view.None? || n.view.value == [])
    ensures r.Err? ==> r.error == if n.view.None? then NotReady else NoDiscoveryRecords
    ensures r.Ok? ==> (r.value.adoptable.Some? <==> Adopts(n, f))
    ensures r.Ok? && r.value.adoptable.Some? ==>
              r.value.adoptable.value == R.Render(Candidates(n, f), n.rendered, n.basisDigest, f)
    ensures r.Ok? ==> if !n.candidatesDirty then r.value == Outcome("ignored", Summary(0, 0, 0), None, None)
                      else var s := r.value.summary; s.adoptable + s.deferred + s.excluded == |n.view.value|
  {
    if !n.candidatesDirty {
      return Ok(Outcome("ignored", Summary(0, 0, 0), None, None));
    }
    if n.view.None? {
      return Err(NotReady);
    }
    if n.view.value == [] {
      return Err(NoDiscoveryRecords);
    }
    AdoptableIff(n, f);
    var candidates, summary := Judge(Candidates(n, f), n.restriction);
    var candidate := R.Render(candidates.targets, n.rendered, n.basisDigest, f);
    if summary.Disposition() != "adoptable" {
      return Ok(Outcome(summary.Disposition(), summary, Some(candidate), None));
    }
    if !candidates.adoptable {
      return Err(RequiresAdoptableRevision);
    }
    r := Ok(Outcome("adoptable", summary, Some(candidate), Some(candidate)));
  }

  // ----- From rows to a restart -----

  datatype StartupFailure = ScopesRefused(error: R.StartupError) | TargetsRefused(cause: R.ConfigError)

  /** What a restart makes of adopted artifacts: parse them, then rebuild the targets. */
  method StartUp(artifacts: seq<R.RouteArtifact>, f: R.Foreign) returns (r: Result<R.Rendered, StartupFailure>)
    ensures (r.Err? && r.error.ScopesRefused?)
            <==> !(artifacts != [] && forall i :: 0 <= i < |artifacts| ==> R.ValidScope(artifacts[i], f))
    ensures !(r.Err? && r.error.ScopesRefused?) ==> (r.Ok? <==> Distinct(Map(R.FamilyOf, R.Collect(artifacts))))
    ensures r.Ok? ==> R.ByFamily(r.value, R.Collect(artifacts))
  {
    var grouped := R.ParseRouteArtifacts(artifacts, f);
    if grouped.Err? {
      return Err(ScopesRefused(grouped.error));
    }
    assert (if "neg-risk" in grouped.value then grouped.value["neg-risk"] else []) == R.OfRoute(artifacts, "neg-risk");
    var targets := R.TargetsFromRouteArtifacts(grouped.value);
    r := if targets.Ok? then Ok(targets.value) else Err(TargetsRefused(targets.error));
  }

  /** The notice's discovery records name every family of the rows, and none of them twice. */
  ghost predicate CoversOnce(n: Notice, rows: seq<MetadataRow>)
    requires n.view.Some?
  {
    && (forall i, j :: 0 <= i < j < |n.view.value| ==> n.view.value[i].familyId != n.view.value[j].familyId)
    && forall k :: k in Families(rows) ==> exists i :: 0 <= i < |n.view.value| && n.view.value[i].familyId == k
  }

  /** From discovered rows through a notice to a restart. If the notice carries the targets of the rows
      and its records name every family once, then whenever the notice is adopted the restart succeeds,
      and the process runs with exactly the targets that were discovered. */
  method DiscoverToStartup(rows: seq<MetadataRow>, n: Notice, f: R.Foreign)
    returns (processed: Result<Outcome, NoticeError>, started: Option<Result<R.Rendered, StartupFailure>>)
    requires R.Trims(f) && Renders(n.rendered, rows)
    ensures started.Some? <==> Adopts(n, f)
    ensures started.Some? ==> processed.Ok? && !(started.value.Err? && started.value.error.ScopesRefused?)
    ensures started.Some? ==> (started.value.Ok? <==> R.RenderedOnce(Candidates(n, f), n.rendered))
    ensures started.Some? && started.value.Ok? ==> started.value.value == R.Restricted(Candidates(n, f), n.rendered)
    ensures started.Some? && CoversOnce(n, rows) ==> started.value == Ok(n.rendered)
  {
    processed := ProcessNotice(n, f);
    started := None;
    if processed.Ok? && processed.value.adoptable.Some? {
      var artifacts := processed.value.adoptable.value;
      R.RenderedScopesAreValid(Candidates(n, f), n.rendered, n.basisDigest, f);
      var r := StartUp(artifacts, f);
      started := Some(r);
      R.RoundTripSucceedsIff(Candidates(n, f), n.rendered, n.basisDigest, f);
      if r.Ok? {
        R.RoundTrip(Candidates(n, f), n.rendered, n.basisDigest, f, r.value);
      }
      CoveredOnce(n, rows, f);
    }
  }

  lemma CoveredOnce(n: Notice, rows: seq<MetadataRow>, f: R.Foreign)
    requires n.view.Some? && Renders(n.rendered, rows)
    ensures CoversOnce(n, rows) ==>
              R.RenderedOnce(Candidates(n, f), n.rendered) && R.Restricted(Candidates(n, f), n.rendered) == n.rendered
  {
    var candidates := Candidates(n, f);
    assert forall i :: 0 <= i < |candidates| ==> candidates[i].familyId == n.view.value[i].familyId;
    if CoversOnce(n, rows) {
      forall k | k in n.rendered ensures R.Wanted(candidates, k) {
        var i :| 0 <= i < |n.view.value| && n.view.value[i].familyId == k;
        assert candidates[i].familyId == k;
      }
      R.RestrictedToAll(candidates, n.rendered);
    }
  }
}
