/** `SnapshotDispatchQueue` of crates/app-live/src/queues.rs: pending snapshot notices and their
    coalescing into at most two. */
module SnapshotQueue {
  import opened Options
  import opened Text
  import opened DirtyDomains

  datatype SnapshotNotice = SnapshotNotice(
    snapshotId: Bytes, stateVersion: nat, dirtyDomains: set<DirtyDomain>, fullsetReady: bool, negriskReady: bool)

  predicate Touches(notice: SnapshotNotice, domains: set<DirtyDomain>) {
    notice.dirtyDomains * domains != {}
  }

  /** r is the last of the newest notices that touch the domains. */
  ghost predicate IsLatest(notices: seq<SnapshotNotice>, domains: set<DirtyDomain>, r: Option<SnapshotNotice>) {
    match r
    case None => forall i :: 0 <= i < |notices| ==> !Touches(notices[i], domains)
    case Some(n) =>
      exists i :: 0 <= i < |notices| && notices[i] == n && Touches(n, domains)
                  && (forall j :: 0 <= j < |notices| && Touches(notices[j], domains) ==>
                        notices[j].stateVersion <= n.stateVersion
                        && (j > i ==> notices[j].stateVersion < n.stateVersion))
  }

  lemma LatestTurn(before: seq<SnapshotNotice>, domains: set<DirtyDomain>, r: Option<SnapshotNotice>,
                   notice: SnapshotNotice)
    requires IsLatest(before, domains, r)
    ensures IsLatest(before + [notice], domains,
                     if Touches(notice, domains) && (r.None? || r.value.stateVersion <= notice.stateVersion)
                     then Some(notice) else r)
  {
    var after := before + [notice];
    assert after[|before|] == notice && forall i :: 0 <= i < |before| ==> after[i] == before[i];
    if r.Some? {
      var i :| 0 <= i < |before| && before[i] == r.value && Touches(r.value, domains)
               && (forall j :: 0 <= j < |before| && Touches(before[j], domains) ==>
                     before[j].stateVersion <= r.value.stateVersion
                     && (j > i ==> before[j].stateVersion < r.value.stateVersion));
      assert after[i] == r.value;
    }
  }

  ghost predicate Ascending(notices: seq<SnapshotNotice>) {
    forall i, j :: 0 <= i < j < |notices| ==> notices[i].stateVersion < notices[j].stateVersion
  }

  /** The newest full-set notice is dropped exactly when the newest neg-risk notice has its version
      and is another notice. */
  ghost predicate Shadowed(fullset: Option<SnapshotNotice>, negrisk: Option<SnapshotNotice>) {
    fullset.Some? && negrisk.Some? && fullset.value.stateVersion == negrisk.value.stateVersion && fullset != negrisk
  }

  ghost predicate Coalesces(r: seq<SnapshotNotice>, fullset: Option<SnapshotNotice>, negrisk: Option<SnapshotNotice>) {
    && Ascending(r)
    && forall n :: n in r <==> (negrisk == Some(n) || (fullset == Some(n) && !Shadowed(fullset, negrisk)))
  }

  class SnapshotDispatchQueue {
    var notices: seq<SnapshotNotice>

    constructor ()
      ensures notices == []
    {
      notices := [];
    }

    method Push(notice: SnapshotNotice)
      modifies this
      ensures notices == old(notices) + [notice]
    {
      notices := notices + [notice];
    }

    /** `filter(..).max_by_key(state_version)`. */
    method Latest(domains: set<DirtyDomain>) returns (r: Option<SnapshotNotice>)
      ensures IsLatest(notices, domains, r)
    {
      r := None;
      for n := 0 to |notices|
        invariant IsLatest(notices[..n], domains, r)
      {
        LatestTurn(notices[..n], domains, r, notices[n]);
        assert notices[..n + 1] == notices[..n] + [notices[n]];
        if Touches(notices[n], domains) && (r.None? || r.value.stateVersion <= notices[n].stateVersion) {
          r := Some(notices[n]);
        }
      }
      assert notices[..|notices|] == notices;
    }

    /** At most two notices, ascending: the newest full-set and the newest neg-risk one, unless the
        second overwrites the first. */
    method Coalesced() returns (r: seq<SnapshotNotice>)
      ensures exists fullset, negrisk ::
                && IsLatest(notices, FULLSET_DOMAINS, fullset) && IsLatest(notices, NEGRISK_DOMAINS, negrisk)
                && Coalesces(r, fullset, negrisk)
    {
      var fullset := Latest(FULLSET_DOMAINS);
      var negrisk := Latest(NEGRISK_DOMAINS);
      r := [];
      if fullset.Some? {
        InsertKeepsAscending(r, fullset.value);
        r := Insert(r, fullset.value);
      }
      if negrisk.Some? {
        InsertKeepsAscending(r, negrisk.value);
        r := Insert(r, negrisk.value);
      }
      assert Coalesces(r, fullset, negrisk);
    }
  }

  /** `BTreeMap::insert` by state version, on the map's values in key order. */
  function Insert(coalesced: seq<SnapshotNotice>, notice: SnapshotNotice): seq<SnapshotNotice> {
    if coalesced == [] || notice.stateVersion < coalesced[0].stateVersion then [notice] + coalesced
    else if notice.stateVersion == coalesced[0].stateVersion then [notice] + coalesced[1..]
    else [coalesced[0]] + Insert(coalesced[1..], notice)
  }

  lemma FirstOrRest(coalesced: seq<SnapshotNotice>)
    requires coalesced != [] && Ascending(coalesced)
    ensures Ascending(coalesced[1..])
    ensures forall n :: n in coalesced <==> n == coalesced[0] || n in coalesced[1..]
    ensures forall n :: n in coalesced[1..] ==> coalesced[0].stateVersion < n.stateVersion
  {
    var rest := coalesced[1..];
    assert coalesced == [coalesced[0]] + rest;
    forall n | n in rest ensures coalesced[0].stateVersion < n.stateVersion {
      var i :| 0 <= i < |rest| && rest[i] == n;
      assert coalesced[i + 1] == n;
    }
  }

  lemma {:induction false} InsertReplaces(coalesced: seq<SnapshotNotice>, notice: SnapshotNotice)
    requires Ascending(coalesced)
    ensures forall n :: n in Insert(coalesced, notice) <==>
              n == notice || (n in coalesced && n.stateVersion != notice.stateVersion)
  {
    if coalesced != [] {
      FirstOrRest(coalesced);
      if notice.stateVersion > coalesced[0].stateVersion {
        InsertReplaces(coalesced[1..], notice);
      }
    }
  }

  lemma AscendingPush(first: SnapshotNotice, rest: seq<SnapshotNotice>)
    requires Ascending(rest) && forall n :: n in rest ==> first.stateVersion < n.stateVersion
    ensures Ascending([first] + rest)
  {
    var all := [first] + rest;
    forall i, j | 0 <= i < j < |all| ensures all[i].stateVersion < all[j].stateVersion {
      assert all[j] == rest[j - 1] && rest[j - 1] in rest;
      assert i > 0 ==> all[i] == rest[i - 1];
    }
  }

  lemma {:induction false} InsertAscends(coalesced: seq<SnapshotNotice>, notice: SnapshotNotice)
    requires Ascending(coalesced)
    ensures Ascending(Insert(coalesced, notice))
  {
    if coalesced != [] {
      FirstOrRest(coalesced);
      if notice.stateVersion > coalesced[0].stateVersion {
        InsertAscends(coalesced[1..], notice);
        InsertReplaces(coalesced[1..], notice);
        AscendingPush(coalesced[0], Insert(coalesced[1..], notice));
      } else {
        AscendingPush(notice, if notice.stateVersion == coalesced[0].stateVersion then coalesced[1..] else coalesced);
      }
    }
  }

  lemma InsertKeepsAscending(coalesced: seq<SnapshotNotice>, notice: SnapshotNotice)
    requires Ascending(coalesced)
    ensures var r := Insert(coalesced, notice);
            && Ascending(r)
            && forall n :: n in r <==> n == notice || (n in coalesced && n.stateVersion != notice.stateVersion)
  {
    InsertAscends(coalesced, notice);
    InsertReplaces(coalesced, notice);
  }

  /** When notices of one version are one notice, coalescing keeps both newest notices. */
  lemma DistinctVersionsKeepBoth(notices: seq<SnapshotNotice>, fullset: Option<SnapshotNotice>,
                                 negrisk: Option<SnapshotNotice>)
    requires IsLatest(notices, FULLSET_DOMAINS, fullset) && IsLatest(notices, NEGRISK_DOMAINS, negrisk)
    requires forall i, j ::
               0 <= i < |notices| && 0 <= j < |notices| && notices[i].stateVersion == notices[j].stateVersion ==>
               notices[i] == notices[j]
    ensures !Shadowed(fullset, negrisk)
  {
  }

  /** Without that, a full-set notice can be lost. */
  lemma SameVersionLosesFullset(version: nat, r: seq<SnapshotNotice>, fullset: Option<SnapshotNotice>,
                                negrisk: Option<SnapshotNotice>)
    requires var f := SnapshotNotice("f", version, FULLSET_DOMAINS, true, false);
             var n := SnapshotNotice("n", version, NEGRISK_DOMAINS, false, true);
             IsLatest([f, n], FULLSET_DOMAINS, fullset) && IsLatest([f, n], NEGRISK_DOMAINS, negrisk)
             && Coalesces(r, fullset, negrisk)
    ensures r == [SnapshotNotice("n", version, NEGRISK_DOMAINS, false, true)]
  {
    var f := SnapshotNotice("f", version, FULLSET_DOMAINS, true, false);
    var n := SnapshotNotice("n", version, NEGRISK_DOMAINS, false, true);
    assert Runtime in f.dirtyDomains * FULLSET_DOMAINS && NegRiskFamilies in n.dirtyDomains * NEGRISK_DOMAINS;
    assert f.dirtyDomains * NEGRISK_DOMAINS == {} && n.dirtyDomains * FULLSET_DOMAINS == {};
    assert [f, n][0] == f && [f, n][1] == n;
    assert fullset == Some(f) && negrisk == Some(n);
    assert n in r;
    forall i | 0 <= i < |r| ensures r[i] == n {
      assert r[i] in r;
    }
    assert |r| > 1 ==> r[0].stateVersion < r[1].stateVersion;
  }
}
