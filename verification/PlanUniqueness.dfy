/** Which plan ids name one plan: crates/execution/src/plans.rs. The printer writes ids between ':' and
    '|' without quoting them. */
module PlanUniqueness {
  import opened Options
  import opened Text
  import opened Decimals
  import opened StableSort
  import opened PlanIdentity

  // ----- Ids without a colon -----

  predicate ColonFree(m: Member) {
    ':' !in m.conditionId && ':' !in m.tokenId
  }

  predicate ColonFreePlan(plan: ExecutionPlan) {
    plan.NegRiskSubmitFamily? ==> ':' !in plan.familyId && forall m :: m in plan.members ==> ColonFree(m)
  }

  lemma PrintJoins(m: Member)
    ensures PrintMember(m)
            == m.conditionId + ":" + (m.tokenId + ":" + (ShowNormal(m.price) + ":" + ShowNormal(m.quantity)))
  {
    var fields := Fields(m);
    assert Join(fields[3..], ":") == fields[3];
    assert Join(fields[2..], ":") == fields[2] + ":" + Join(fields[3..], ":");
    assert Join(fields[1..], ":") == fields[1] + ":" + Join(fields[2..], ":");
  }

  function Prints(members: seq<Member>): Bytes {
    Join(Map(PrintMember, members), "|")
  }

  lemma PrintsFirst(members: seq<Member>)
    requires members != []
    ensures |members| == 1 ==> Prints(members) == PrintMember(members[0])
    ensures |members| > 1 ==> Prints(members) == PrintMember(members[0]) + ("|" + Prints(members[1..]))
  {
    var all := Map(PrintMember, members);
    assert all[1..] == Map(PrintMember, members[1..]);
  }

  lemma NumbersHaveNo(m: Member)
    ensures ':' !in ShowNormal(m.price) && ':' !in ShowNormal(m.quantity)
    ensures '|' !in ShowNormal(m.price) && '|' !in ShowNormal(m.quantity)
  {
    ShowHasNo(':', Normalize(m.price));
    ShowHasNo('|', Normalize(m.price));
    ShowHasNo(':', Normalize(m.quantity));
    ShowHasNo('|', Normalize(m.quantity));
  }

  /** What follows the first member in a list of prints. */
  function Rest(members: seq<Member>): Bytes
    requires members != []
  {
    if |members| == 1 then "" else "|" + Prints(members[1..])
  }

  lemma Regroup(c: Bytes, t: Bytes, p: Bytes, q: Bytes, rest: Bytes)
    ensures (c + ":" + (t + ":" + (p + ":" + q))) + rest == c + ":" + (t + ":" + (p + ":" + (q + rest)))
  {
  }

  lemma PrintsAs(members: seq<Member>)
    requires members != []
    ensures var m := members[0];
            Prints(members)
            == m.conditionId + ":"
               + (m.tokenId + ":" + (ShowNormal(m.price) + ":" + (ShowNormal(m.quantity) + Rest(members))))
  {
    var m := members[0];
    PrintsFirst(members);
    PrintJoins(m);
    assert PrintMember(m) + "" == PrintMember(m);
    Regroup(m.conditionId, m.tokenId, ShowNormal(m.price), ShowNormal(m.quantity), Rest(members));
  }

  lemma EmptyPrint(members: seq<Member>)
    ensures Prints(members) == [] <==> members == []
  {
    if members != [] {
      PrintsAs(members);
    }
  }

  lemma CutAtBar(q: Bytes, rest: Bytes)
    requires '|' !in q && (rest == "" || rest[0] == '|')
    ensures SplitOnce(q + rest, '|') == if rest == "" then None else Some((q, rest[1..]))
  {
    if rest == "" {
      assert q + rest == q;
    } else {
      assert q + rest == q + ['|'] + rest[1..];
      SplitOnceAt(q, '|', rest[1..]);
    }
  }

  /** A text without '|' and what follows it, which begins with one, if anything does. */
  lemma QuantityIsCut(q: Bytes, rest: Bytes, r: Bytes, others: Bytes)
    requires '|' !in q && '|' !in r && q + rest == r + others
    requires (rest == "" || rest[0] == '|') && (others == "" || others[0] == '|')
    ensures q == r && rest == others
  {
    CutAtBar(q, rest);
    CutAtBar(r, others);
    assert rest == "" || rest == ['|'] + rest[1..];
    assert others == "" || others == ['|'] + others[1..];
    assert q + "" == q && r + "" == r;
  }

  lemma FirstIsDetermined(a: seq<Member>, b: seq<Member>)
    requires a != [] && b != [] && ColonFree(a[0]) && ColonFree(b[0]) && Prints(a) == Prints(b)
    ensures Fields(a[0]) == Fields(b[0]) && Rest(a) == Rest(b)
  {
    var m, n := a[0], b[0];
    PrintsAs(a);
    PrintsAs(b);
    NumbersHaveNo(m);
    NumbersHaveNo(n);
    var pm, qm := ShowNormal(m.price), ShowNormal(m.quantity) + Rest(a);
    var pn, qn := ShowNormal(n.price), ShowNormal(n.quantity) + Rest(b);
    CutIsUnique(m.conditionId, m.tokenId + ":" + (pm + ":" + qm),
                n.conditionId, n.tokenId + ":" + (pn + ":" + qn), ':');
    CutIsUnique(m.tokenId, pm + ":" + qm, n.tokenId, pn + ":" + qn, ':');
    CutIsUnique(pm, qm, pn, qn, ':');
    QuantityIsCut(ShowNormal(m.quantity), Rest(a), ShowNormal(n.quantity), Rest(b));
  }

  /** A list of members with colon-free ids can be read back from its prints: cut at ':' three times,
      then at the first '|' after the quantity. */
  lemma {:induction false} PrintsDetermineFields(a: seq<Member>, b: seq<Member>)
    requires forall i :: 0 <= i < |a| ==> ColonFree(a[i])
    requires forall i :: 0 <= i < |b| ==> ColonFree(b[i])
    requires Prints(a) == Prints(b)
    ensures Map(Fields, a) == Map(Fields, b)
  {
    EmptyPrint(a);
    EmptyPrint(b);
    if a != [] {
      FirstIsDetermined(a, b);
      if |a| > 1 {
        assert Rest(a)[1..] == Prints(a[1..]) && Rest(b)[1..] == Prints(b[1..]);
        PrintsDetermineFields(a[1..], b[1..]);
      }
      FirstAndRest(a, b);
    }
  }

  lemma FirstAndRest(a: seq<Member>, b: seq<Member>)
    requires a != [] && b != [] && Fields(a[0]) == Fields(b[0])
    requires |a| == |b| == 1 || (|a| > 1 && |b| > 1 && Map(Fields, a[1..]) == Map(Fields, b[1..]))
    ensures Map(Fields, a) == Map(Fields, b)
  {
    assert |Map(Fields, a[1..])| == |a| - 1 && |Map(Fields, b[1..])| == |b| - 1;
    forall i | 0 <= i < |a| ensures Fields(a[i]) == Fields(b[i]) {
      assert i == 0 || Map(Fields, a[1..])[i - 1] == Map(Fields, b[1..])[i - 1];
    }
  }

  lemma CanonicalColonFree(members: seq<Member>)
    requires forall m :: m in members ==> ColonFree(m)
    ensures forall i :: 0 <= i < |Canonical(members)| ==> ColonFree(Canonical(members)[i])
  {
    SortMembers(members, MemberLeq);
    forall i | 0 <= i < |Canonical(members)| ensures ColonFree(Canonical(members)[i]) {
      assert Canonical(members)[i] in Canonical(members);
    }
  }

  lemma FamilyPlanId(f: Bytes, members: seq<Member>)
    ensures PlanId(NegRiskSubmitFamily(f, members)) == FAMILY + (f + ":" + Prints(Canonical(members)))
  {
  }

  lemma FamilyCut(f: Bytes, x: Bytes, g: Bytes, y: Bytes)
    requires FAMILY + (f + ":" + x) == FAMILY + (g + ":" + y)
    ensures f + ":" + x == g + ":" + y
  {
    assert (FAMILY + (f + ":" + x))[|FAMILY|..] == f + ":" + x;
    assert (FAMILY + (g + ":" + y))[|FAMILY|..] == g + ":" + y;
  }

  lemma FamilyIdDeterminesMembers(f: Bytes, a: seq<Member>, g: Bytes, b: seq<Member>)
    requires ColonFreePlan(NegRiskSubmitFamily(f, a)) && ColonFreePlan(NegRiskSubmitFamily(g, b))
    requires PlanId(NegRiskSubmitFamily(f, a)) == PlanId(NegRiskSubmitFamily(g, b))
    ensures f == g && SameMembers(a, b)
  {
    var ca, cb := Canonical(a), Canonical(b);
    FamilyPlanId(f, a);
    FamilyPlanId(g, b);
    FamilyCut(f, Prints(ca), g, Prints(cb));
    CutIsUnique(f, Prints(ca), g, Prints(cb), ':');
    CanonicalColonFree(a);
    CanonicalColonFree(b);
    PrintsDetermineFields(ca, cb);
    SameMembersIffSameFields(a, b);
  }

  lemma KindsAreApart(a: ExecutionPlan, b: ExecutionPlan)
    requires PlanId(a) == PlanId(b)
    ensures a.NegRiskSubmitFamily? <==> b.NegRiskSubmitFamily?
    ensures !a.NegRiskSubmitFamily? ==> a == b
  {
    var x, y := PlanId(a), PlanId(b);
    assert x[0] == y[0] && x[8] == y[8];
    var n := match a
      case FullSetBuyThenMerge(_) => |"fullset-buy-merge:"|
      case FullSetSplitThenSell(_) => |"fullset-split-sell:"|
      case CancelStale(_) => |"cancel-stale:"|
      case RedeemResolved(_) => |"redeem-resolved:"|
      case NegRiskSubmitFamily(_, _) => 0;
    assert x[n..] == y[n..];
  }

  /** Among plans whose ids hold no ':', a plan id names one plan and no other. */
  lemma ColonFreePlanIdsAreUnique(a: ExecutionPlan, b: ExecutionPlan)
    requires ColonFreePlan(a) && ColonFreePlan(b)
    ensures PlanId(a) == PlanId(b) <==> SamePlan(a, b)
  {
    if PlanId(a) == PlanId(b) {
      KindsAreApart(a, b);
      if a.NegRiskSubmitFamily? {
        FamilyIdDeterminesMembers(a.familyId, a.members, b.familyId, b.members);
      }
    }
    if SamePlan(a, b) && a.NegRiskSubmitFamily? && b.NegRiskSubmitFamily? {
      FamiliesShareIdentity(a.familyId, a.members, b.members);
    }
  }

  // ----- Counting colons -----

  function Colons(s: Bytes): nat {
    multiset(s)[':']
  }

  lemma ColonsAdd(a: Bytes, b: Bytes)
    ensures Colons(a + b) == Colons(a) + Colons(b)
  {
  }

  lemma ColonsAround(a: Bytes, b: Bytes)
    ensures Colons(a + ":" + b) == Colons(a) + 1 + Colons(b)
  {
    assert a + ":" + b == a + ([':'] + b);
  }

  lemma NoColons(s: Bytes)
    ensures Colons(s) == 0 <==> ':' !in s
  {
  }

  lemma ColonsOfPrint(m: Member)
    ensures Colons(PrintMember(m)) == 3 + Colons(m.conditionId) + Colons(m.tokenId)
  {
    var p, q := ShowNormal(m.price), ShowNormal(m.quantity);
    PrintJoins(m);
    NumbersHaveNo(m);
    NoColons(p);
    NoColons(q);
    ColonsAround(m.conditionId, m.tokenId + ":" + (p + ":" + q));
    ColonsAround(m.tokenId, p + ":" + q);
    ColonsAround(p, q);
  }

  lemma {:induction false} ColonsOfPrints(members: seq<Member>)
    ensures Colons(Prints(members)) >= 3 * |members|
    ensures |members| == 1 ==>
              Colons(Prints(members)) == 3 + Colons(members[0].conditionId) + Colons(members[0].tokenId)
  {
    if members != [] {
      PrintsFirst(members);
      ColonsOfPrint(members[0]);
      if |members| > 1 {
        ColonsOfPrints(members[1..]);
        ColonsAdd(PrintMember(members[0]), "|" + Prints(members[1..]));
        ColonsAdd("|", Prints(members[1..]));
      }
    }
  }

  predicate EndsInDigit(s: Bytes) {
    s != [] && IsDigit(s[|s| - 1])
  }

  lemma EndsAfter(a: Bytes, b: Bytes)
    requires EndsInDigit(b)
    ensures EndsInDigit(a + b)
  {
  }

  lemma PrintEndsInDigit(m: Member)
    ensures EndsInDigit(PrintMember(m))
  {
    var p, q := ShowNormal(m.price), ShowNormal(m.quantity);
    PrintJoins(m);
    ShowEndsInDigit(Normalize(m.quantity));
    EndsAfter(p + ":", q);
    EndsAfter(m.tokenId + ":", p + ":" + q);
    EndsAfter(m.conditionId + ":", m.tokenId + ":" + (p + ":" + q));
  }

  lemma {:induction false} PrintsEndInDigit(members: seq<Member>)
    requires members != []
    ensures EndsInDigit(Prints(members))
  {
    PrintsFirst(members);
    if |members| == 1 {
      PrintEndsInDigit(members[0]);
    } else {
      PrintsEndInDigit(members[1..]);
      EndsAfter("|", Prints(members[1..]));
      EndsAfter(PrintMember(members[0]), "|" + Prints(members[1..]));
    }
  }

  // ----- Exactly which plans have an id to themselves -----

  /** No other plan has this plan's id. */
  ghost predicate OwnsItsId(plan: ExecutionPlan) {
    forall other :: PlanId(other) == PlanId(plan) ==> SamePlan(plan, other)
  }

  /** No member, or one whose ids and family hold no ':'. */
  predicate Unmistakable(plan: ExecutionPlan) {
    plan.NegRiskSubmitFamily? ==>
      || plan.members == []
      || (|plan.members| == 1 && ':' !in plan.familyId && ColonFree(plan.members[0]))
  }

  lemma OneMember(m: Member)
    ensures Canonical([m]) == [m] && Prints([m]) == PrintMember(m)
  {
    assert Map(PrintMember, [m]) == [PrintMember(m)];
  }

  /** Family texts followed by no members can only be taken apart in one way. */
  lemma EmptyFamilyIsApart(f: Bytes, g: Bytes, b: seq<Member>)
    requires PlanId(NegRiskSubmitFamily(f, [])) == PlanId(NegRiskSubmitFamily(g, b))
    ensures f == g && b == []
  {
    var cb := Canonical(b);
    assert Canonical([]) == [] && Prints([]) == "";
    FamilyPlanId(f, []);
    FamilyPlanId(g, b);
    FamilyCut(f, "", g, Prints(cb));
    assert f + ":" + "" == f + ":" && g + ":" + "" == g + ":";
    if cb != [] {
      PrintsEndInDigit(cb);
      EndsAfter(g + ":", Prints(cb));
      assert false;
    }
    assert (f + ":")[..|f|] == f && (g + ":")[..|g|] == g;
  }

  /** Four colons are one member and no colon anywhere else. */
  lemma FourColons(f: Bytes, m: Member, g: Bytes, b: seq<Member>)
    requires ':' !in f && ColonFree(m)
    requires PlanId(NegRiskSubmitFamily(f, [m])) == PlanId(NegRiskSubmitFamily(g, b))
    ensures ColonFreePlan(NegRiskSubmitFamily(g, b))
  {
    var cb := Canonical(b);
    OneMember(m);
    FamilyPlanId(f, [m]);
    FamilyPlanId(g, b);
    FamilyCut(f, PrintMember(m), g, Prints(cb));
    ColonsAround(f, PrintMember(m));
    ColonsAround(g, Prints(cb));
    ColonsOfPrint(m);
    ColonsOfPrints(cb);
    NoColons(f);
    NoColons(m.conditionId);
    NoColons(m.tokenId);
    if cb == [] {
      assert Prints(cb) == "";
      assert Canonical([m]) == [m] && b == [];
      EmptyFamilyIsApart(g, f, [m]);
    } else {
      NoColons(g);
      NoColons(cb[0].conditionId);
      NoColons(cb[0].tokenId);
      assert b == [b[0]];
      OneMember(b[0]);
    }
  }

  lemma UnmistakableOwnsItsId(plan: ExecutionPlan)
    requires Unmistakable(plan)
    ensures OwnsItsId(plan)
  {
    forall other | PlanId(other) == PlanId(plan) ensures SamePlan(plan, other) {
      KindsAreApart(plan, other);
      if plan.NegRiskSubmitFamily? {
        if plan.members == [] {
          EmptyFamilyIsApart(plan.familyId, other.familyId, other.members);
        } else {
          assert plan.members == [plan.members[0]];
          FourColons(plan.familyId, plan.members[0], other.familyId, other.members);
          ColonFreePlanIdsAreUnique(plan, other);
        }
      }
    }
  }

  // ----- The plans that do not -----

  /** The text between the first condition and the last price of a list of prints. */
  function Middle(members: seq<Member>): Bytes
    requires members != []
  {
    var m := members[0];
    if |members| == 1 then m.tokenId
    else
      var tail := members[1].conditionId + ":" + Middle(members[1..]);
      m.tokenId + ":" + (ShowNormal(m.price) + ":" + (ShowNormal(m.quantity) + "|" + tail))
  }

  lemma Wrapped(a: Bytes, b: Bytes, last: Bytes)
    ensures a + (b + ":" + last) == (a + b) + ":" + last
  {
  }

  lemma RegroupMiddle(c: Bytes, t: Bytes, p: Bytes, q: Bytes, d: Bytes, mid: Bytes, last: Bytes)
    ensures c + ":" + (t + ":" + (p + ":" + (q + ("|" + (d + ":" + (mid + ":" + last))))))
         == c + ":" + ((t + ":" + (p + ":" + (q + "|" + (d + ":" + mid)))) + ":" + last)
  {
    Wrapped(d + ":", mid, last);
    Wrapped("|", d + ":" + mid, last);
    Wrapped(q, "|" + (d + ":" + mid), last);
    assert q + ("|" + (d + ":" + mid)) == q + "|" + (d + ":" + mid);
    var x := q + "|" + (d + ":" + mid);
    Wrapped(p + ":", x, last);
    Wrapped(t + ":", p + ":" + x, last);
  }

  lemma SwallowFirst(m: Member, prints: Bytes, others: Bytes, d: Bytes, mid: Bytes, numbers: Bytes)
    requires prints == m.conditionId + ":"
                       + (m.tokenId + ":" + (ShowNormal(m.price) + ":" + (ShowNormal(m.quantity) + ("|" + others))))
    requires others == d + ":" + (mid + ":" + numbers)
    ensures var rest := ShowNormal(m.quantity) + "|" + (d + ":" + mid);
            var token := m.tokenId + ":" + (ShowNormal(m.price) + ":" + rest);
            prints == m.conditionId + ":" + (token + ":" + numbers)
  {
    RegroupMiddle(m.conditionId, m.tokenId, ShowNormal(m.price), ShowNormal(m.quantity), d, mid, numbers);
  }

  lemma TailEnds<T>(s: seq<T>)
    requires |s| > 1
    ensures |s[1..]| == |s| - 1 && s[1..][0] == s[1] && s[1..][|s| - 2] == s[|s| - 1]
  {
  }

  function Numbers(m: Member): Bytes {
    ShowNormal(m.price) + ":" + ShowNormal(m.quantity)
  }

  lemma PrintsAsMany(members: seq<Member>)
    requires |members| > 1
    ensures var m := members[0];
            Prints(members)
            == m.conditionId + ":"
               + (m.tokenId + ":"
                  + (ShowNormal(m.price) + ":" + (ShowNormal(m.quantity) + ("|" + Prints(members[1..])))))
  {
    PrintsAs(members);
  }

  /** However many members, their prints read like those of one whose token swallows the middle. */
  lemma {:induction false} ReadsAsOneMember(members: seq<Member>, last: Member)
    requires members != [] && last == members[|members| - 1]
    ensures Prints(members) == members[0].conditionId + ":" + (Middle(members) + ":" + Numbers(last))
  {
    var m := members[0];
    if |members| == 1 {
      PrintsFirst(members);
      PrintJoins(m);
    } else {
      TailEnds(members);
      ReadsAsOneMember(members[1..], last);
      PrintsAsMany(members);
      SwallowFirst(m, Prints(members), Prints(members[1..]), members[1].conditionId, Middle(members[1..]),
                   Numbers(last));
    }
  }

  lemma OtherFamilyOtherPlan(a: ExecutionPlan, b: ExecutionPlan)
    requires a.NegRiskSubmitFamily? && b.NegRiskSubmitFamily? && a.familyId != b.familyId
    ensures !SamePlan(a, b)
  {
  }

  lemma OtherCountOtherPlan(f: Bytes, a: seq<Member>, b: seq<Member>)
    requires |a| != |b|
    ensures !SamePlan(NegRiskSubmitFamily(f, a), NegRiskSubmitFamily(f, b))
  {
    assert |multiset(Map(Reduced, a))| == |a| && |multiset(Map(Reduced, b))| == |b|;
  }

  lemma OtherConditionOtherPlan(f: Bytes, m: Member, n: Member)
    requires m.conditionId != n.conditionId
    ensures !SamePlan(NegRiskSubmitFamily(f, [m]), NegRiskSubmitFamily(f, [n]))
  {
    assert Map(Reduced, [m]) == [Reduced(m)] && Map(Reduced, [n]) == [Reduced(n)];
    assert Reduced(m) in multiset([Reduced(m)]) && Reduced(m) !in multiset([Reduced(n)]);
  }

  /** Several members share their id with one. */
  lemma SeveralMembersAreMistakable(f: Bytes, members: seq<Member>) returns (other: ExecutionPlan)
    requires |members| > 1
    ensures PlanId(other) == PlanId(NegRiskSubmitFamily(f, members))
            && !SamePlan(NegRiskSubmitFamily(f, members), other)
  {
    var c := Canonical(members);
    var last := c[|c| - 1];
    var m := Member(c[0].conditionId, Middle(c), last.price, last.quantity);
    other := NegRiskSubmitFamily(f, [m]);
    ReadsAsOneMember(c, last);
    PrintJoins(m);
    OneMember(m);
    FamilyPlanId(f, members);
    FamilyPlanId(f, [m]);
    OtherCountOtherPlan(f, members, [m]);
  }

  lemma Respell(c: Bytes, t: Bytes, u: Bytes, rest: Bytes)
    ensures (c + ":" + t) + ":" + (u + ":" + rest) == c + ":" + ((t + ":" + u) + ":" + rest)
  {
  }

  lemma OneMemberPlanId(f: Bytes, m: Member)
    ensures PlanId(NegRiskSubmitFamily(f, [m]))
         == FAMILY
            + (f + ":" + (m.conditionId + ":"
                          + (m.tokenId + ":" + (ShowNormal(m.price) + ":" + ShowNormal(m.quantity)))))
  {
    OneMember(m);
    FamilyPlanId(f, [m]);
    PrintJoins(m);
  }

  /** A ':' in the family, the condition or the token of the one member can be taken for the separator
      before or after it. */
  lemma ColonIsMistakable(f: Bytes, m: Member) returns (other: ExecutionPlan)
    requires ':' in f || !ColonFree(m)
    ensures PlanId(other) == PlanId(NegRiskSubmitFamily(f, [m])) && !SamePlan(NegRiskSubmitFamily(f, [m]), other)
  {
    var numbers := ShowNormal(m.price) + ":" + ShowNormal(m.quantity);
    OneMemberPlanId(f, m);
    if ':' in f {
      var cut := SplitOnce(f, ':').value;
      var n := m.(conditionId := cut.1 + ":" + m.conditionId);
      other := NegRiskSubmitFamily(cut.0, [n]);
      OneMemberPlanId(cut.0, n);
      Respell(cut.0, cut.1, m.conditionId, m.tokenId + ":" + numbers);
      assert |f| > |cut.0|;
      OtherFamilyOtherPlan(NegRiskSubmitFamily(f, [m]), other);
    } else if ':' in m.conditionId {
      var cut := SplitOnce(m.conditionId, ':').value;
      var n := m.(conditionId := cut.0, tokenId := cut.1 + ":" + m.tokenId);
      other := NegRiskSubmitFamily(f, [n]);
      OneMemberPlanId(f, n);
      Respell(cut.0, cut.1, m.tokenId, numbers);
      assert |m.conditionId| > |n.conditionId|;
      OtherConditionOtherPlan(f, m, n);
    } else {
      var cut := SplitOnce(m.tokenId, ':').value;
      var n := m.(conditionId := m.conditionId + ":" + cut.0, tokenId := cut.1);
      other := NegRiskSubmitFamily(f, [n]);
      OneMemberPlanId(f, n);
      Respell(m.conditionId, cut.0, cut.1, numbers);
      assert |m.conditionId| < |n.conditionId|;
      OtherConditionOtherPlan(f, m, n);
    }
  }

  /** A plan id names its plan and no other exactly for plans that are not family submissions, for
      families without members, and for families with one member in which no id holds a ':'. */
  lemma PlanIdIsUniqueIff(plan: ExecutionPlan)
    ensures OwnsItsId(plan) <==> Unmistakable(plan)
  {
    if Unmistakable(plan) {
      UnmistakableOwnsItsId(plan);
    } else if |plan.members| > 1 {
      var other := SeveralMembersAreMistakable(plan.familyId, plan.members);
    } else {
      assert plan.members == [plan.members[0]];
      var other := ColonIsMistakable(plan.familyId, plan.members[0]);
    }
  }
}
