/** The identity of execution plans: crates/execution/src/plans.rs, signing.rs, negrisk.rs and
    the ids of attempt.rs. Plan ids are meant to be canonical: member order and the way a
    decimal is written must not matter. */
module PlanIdentity {
  import opened Options
  import opened Text
  import opened Decimals
  import opened StableSort
  import opened ExecutionRows
  import PlanScope

  datatype Member = Member(conditionId: Bytes, tokenId: Bytes, price: Decimal, quantity: Decimal)

  datatype ExecutionPlan =
    | FullSetBuyThenMerge(conditionId: Bytes)
    | FullSetSplitThenSell(conditionId: Bytes)
    | CancelStale(orderId: Bytes)
    | RedeemResolved(conditionId: Bytes)
    | NegRiskSubmitFamily(familyId: Bytes, members: seq<Member>)

  datatype ExecutionRequest = ExecutionRequest(
    requestId: Bytes, snapshotId: Bytes, route: Bytes, scope: Bytes, activationMode: ExecutionMode,
    matchedRuleId: Option<Bytes>)

  // ----- Plan ids -----

  function Fields(m: Member): seq<Bytes> {
    [m.conditionId, m.tokenId, ShowNormal(m.price), ShowNormal(m.quantity)]
  }

  predicate MemberLeq(a: Member, b: Member) {
    KeyLeq(Fields(a), Fields(b))
  }

  function PrintMember(m: Member): Bytes {
    Join(Fields(m), ":")
  }

  function Canonical(members: seq<Member>): seq<Member> {
    Sort(members, MemberLeq)
  }

  const FAMILY: Bytes := "negrisk-submit-family:"

  function PlanId(plan: ExecutionPlan): Bytes {
    match plan
    case FullSetBuyThenMerge(c) => "fullset-buy-merge:" + c
    case FullSetSplitThenSell(c) => "fullset-split-sell:" + c
    case CancelStale(o) => "cancel-stale:" + o
    case RedeemResolved(c) => "redeem-resolved:" + c
    case NegRiskSubmitFamily(f, members) =>
      FAMILY + (f + ":" + Join(Map(PrintMember, Canonical(members)), "|"))
  }

  function RequestBoundPlanId(plan: ExecutionPlan, request: ExecutionRequest): Bytes {
    PlanScope.RequestBoundPlanId(request.requestId, PlanId(plan))
  }

  /** `attempt_id_for_plan_id`; hash is the hex SHA-256 of the id's bytes. */
  function AttemptId(planId: Bytes, attemptNo: nat, hash: Bytes -> Bytes): Bytes {
    PlanScope.BOUND + hash(planId) + ":attempt-" + Digits(attemptNo)
  }

  // ----- Signing -----

  datatype SignedIdentity = SignedIdentity(hash: Bytes, salt: Bytes, nonce: Bytes, signature: Bytes)

  /** A signed member without the fields that are the same for every order. */
  datatype SignedMember = SignedMember(
    conditionId: Bytes, tokenId: Bytes, price: Decimal, quantity: Decimal,
    makerAmount: Bytes, takerAmount: Bytes, identity: SignedIdentity)

  datatype SignedFamily = SignedFamily(planId: Bytes, members: seq<SignedMember>)

  datatype SigningError = UnsupportedPlan(planId: Bytes)

  /** `sign_identity` of `TestOrderSigner`. */
  function SignIdentity(planId: Bytes, index: nat): SignedIdentity {
    SignedIdentity(
      "test-hash:" + planId + ":" + Digits(index), Digits(123 + index), Digits(index),
      "test-sig:" + planId + ":" + Digits(index))
  }

  function SignMember(m: Member, planId: Bytes, index: nat): SignedMember {
    SignedMember(
      m.conditionId, m.tokenId, m.price, m.quantity,
      ShowNormal(m.quantity), ShowNormal(Times(m.price, m.quantity)), SignIdentity(planId, index))
  }

  /** `sign_family` of `TestOrderSigner`. */
  function SignFamily(plan: ExecutionPlan): Result<SignedFamily, SigningError> {
    var planId := PlanId(plan);
    if plan.NegRiskSubmitFamily? then
      var members := Canonical(plan.members);
      Ok(SignedFamily(planId, seq(|members|, i requires 0 <= i < |members| => SignMember(members[i], planId, i))))
    else Err(UnsupportedPlan(planId))
  }

  // ----- Planning -----

  const ROUTE: Bytes := "neg-risk"

  datatype FamilyTarget = FamilyTarget(familyId: Bytes, members: seq<Member>)

  datatype PlanningError =
    | RouteMismatch(route: Bytes)
    | ScopeMismatch(requestScope: Bytes, familyId: Bytes)

  function TokenKey(m: Member): seq<Bytes> {
    [m.conditionId, m.tokenId]
  }

  predicate TokenLeq(a: Member, b: Member) {
    KeyLeq(TokenKey(a), TokenKey(b))
  }

  /** The plan a target is executed under. */
  function PlanOf(target: FamilyTarget): ExecutionPlan {
    NegRiskSubmitFamily(target.familyId, Sort(target.members, TokenLeq))
  }

  /** `plan_family_submission`. */
  function PlanFamilySubmission(request: ExecutionRequest, target: FamilyTarget): Result<ExecutionPlan, PlanningError> {
    if request.route != ROUTE then Err(RouteMismatch(request.route))
    else if request.scope != target.familyId then Err(ScopeMismatch(request.scope, target.familyId))
    else Ok(PlanOf(target))
  }

  // ----- What two plans have in common -----

  /** A member with its decimals written without trailing zeros: equal exactly when the members are. */
  function Reduced(m: Member): Member {
    m.(price := Normalize(m.price), quantity := Normalize(m.quantity))
  }

  function ReducedSigned(m: SignedMember): SignedMember {
    m.(price := Normalize(m.price), quantity := Normalize(m.quantity))
  }

  /** The same members, in whatever order and however their decimals are written. */
  ghost predicate SameMembers(a: seq<Member>, b: seq<Member>) {
    multiset(Map(Reduced, a)) == multiset(Map(Reduced, b))
  }

  ghost predicate SamePlan(a: ExecutionPlan, b: ExecutionPlan) {
    if a.NegRiskSubmitFamily? && b.NegRiskSubmitFamily?
    then a.familyId == b.familyId && SameMembers(a.members, b.members)
    else a == b
  }

  lemma ReducedKeepsFields(m: Member)
    ensures Fields(Reduced(m)) == Fields(m) && Reduced(Reduced(m)) == Reduced(m)
  {
    NormalizeKeepsValue(m.price);
    NormalizeKeepsValue(m.quantity);
    NormalFormIsUnique(m.price, Normalize(m.price));
    NormalFormIsUnique(m.quantity, Normalize(m.quantity));
  }

  /** What a plan id prints of a member determines the member up to its decimals' spelling. */
  lemma FieldsDetermineMember(a: Member, b: Member)
    ensures Fields(a) == Fields(b) <==> Reduced(a) == Reduced(b)
  {
    ReducedKeepsFields(a);
    ReducedKeepsFields(b);
    if Fields(a) == Fields(b) {
      assert Fields(a)[0] == Fields(b)[0] && Fields(a)[1] == Fields(b)[1];
      assert Fields(a)[2] == Fields(b)[2] && Fields(a)[3] == Fields(b)[3];
      ParseInvertsShow(Normalize(a.price));
      ParseInvertsShow(Normalize(b.price));
      ParseInvertsShow(Normalize(a.quantity));
      ParseInvertsShow(Normalize(b.quantity));
    }
  }

  lemma KeyLeqIsOrder()
    ensures TotalPreorder(KeyLeq) && Antisymmetric(KeyLeq)
  {
    forall a, b ensures KeyLeq(a, b) || KeyLeq(b, a) { KeyLeqTotal(a, b); }
    forall a, b, c | KeyLeq(a, b) && KeyLeq(b, c) ensures KeyLeq(a, c) { KeyLeqTransitive(a, b, c); }
    forall a, b | KeyLeq(a, b) && KeyLeq(b, a) ensures a == b { KeyLeqAntisymmetric(a, b); }
  }

  /** The fields of the canonical member list are the sorted fields of the members. */
  lemma CanonicalFields(members: seq<Member>)
    ensures Map(Fields, Canonical(members)) == Sort(Map(Fields, members), KeyLeq)
  {
    SortCommutesWithMap(Fields, members, MemberLeq, KeyLeq);
  }

  lemma SortedKeysAgree(a: seq<seq<Bytes>>, b: seq<seq<Bytes>>)
    ensures multiset(a) == multiset(b) <==> Sort(a, KeyLeq) == Sort(b, KeyLeq)
  {
    KeyLeqIsOrder();
    SortPermutes(a, KeyLeq);
    SortPermutes(b, KeyLeq);
    if multiset(a) == multiset(b) {
      SortSorts(a, KeyLeq);
      SortSorts(b, KeyLeq);
      SortedUnique(Sort(a, KeyLeq), Sort(b, KeyLeq), KeyLeq);
    }
  }

  /** The member printed fields were made from. */
  ghost function Rebuilt(fields: seq<Bytes>): Member {
    var none := Decimal(0, 0);
    if |fields| != 4 then Member([], [], none, none)
    else Member(fields[0], fields[1], Parse(fields[2]).GetOr(none), Parse(fields[3]).GetOr(none))
  }

  lemma RebuiltMembers(a: seq<Member>)
    ensures Map(Rebuilt, Map(Fields, a)) == Map(Reduced, a)
  {
    forall i | 0 <= i < |a| ensures Rebuilt(Fields(a[i])) == Reduced(a[i]) {
      ParseInvertsShow(Normalize(a[i].price));
      ParseInvertsShow(Normalize(a[i].quantity));
    }
  }

  lemma ReducedFields(a: seq<Member>)
    ensures Map(Fields, Map(Reduced, a)) == Map(Fields, a)
  {
    forall i | 0 <= i < |a| ensures Fields(Reduced(a[i])) == Fields(a[i]) {
      ReducedKeepsFields(a[i]);
    }
  }

  /** Two member lists hold the same members exactly when their canonical lists print the same fields. */
  lemma SameMembersIffSameFields(a: seq<Member>, b: seq<Member>)
    ensures SameMembers(a, b) <==> Map(Fields, Canonical(a)) == Map(Fields, Canonical(b))
  {
    CanonicalFields(a);
    CanonicalFields(b);
    SortedKeysAgree(Map(Fields, a), Map(Fields, b));
    if SameMembers(a, b) {
      MapMultiset(Fields, Map(Reduced, a), Map(Reduced, b));
      ReducedFields(a);
      ReducedFields(b);
    }
    if multiset(Map(Fields, a)) == multiset(Map(Fields, b)) {
      MapMultiset(Rebuilt, Map(Fields, a), Map(Fields, b));
      RebuiltMembers(a);
      RebuiltMembers(b);
    }
  }

  lemma PrintsFollowFields(a: seq<Member>)
    ensures Map(PrintMember, a) == Map(fields => Join(fields, ":"), Map(Fields, a))
  {
  }

  // ----- Canonical identity -----

  lemma ReducedMembersSignAlike(a: Member, b: Member, planId: Bytes, index: nat)
    requires Reduced(a) == Reduced(b)
    ensures ReducedSigned(SignMember(a, planId, index)) == ReducedSigned(SignMember(b, planId, index))
  {
    assert Normalize(a.price) == Reduced(a).price && Normalize(a.quantity) == Reduced(a).quantity;
    PrintedAlikeIffEqual(a.price, b.price);
    PrintedAlikeIffEqual(a.quantity, b.quantity);
    ProductsKeepValue(a.price, b.price, a.quantity, b.quantity);
    PrintedAlikeIffEqual(Times(a.price, a.quantity), Times(b.price, b.quantity));
  }

  ghost predicate SignedAlike(a: Result<SignedFamily, SigningError>, b: Result<SignedFamily, SigningError>) {
    if a.Ok? && b.Ok?
    then a.value.planId == b.value.planId && Map(ReducedSigned, a.value.members) == Map(ReducedSigned, b.value.members)
    else a == b
  }

  lemma FamiliesShareIdentity(f: Bytes, a: seq<Member>, b: seq<Member>)
    requires SameMembers(a, b)
    ensures PlanId(NegRiskSubmitFamily(f, a)) == PlanId(NegRiskSubmitFamily(f, b))
    ensures SignedAlike(SignFamily(NegRiskSubmitFamily(f, a)), SignFamily(NegRiskSubmitFamily(f, b)))
  {
    var ca, cb := Canonical(a), Canonical(b);
    SameMembersIffSameFields(a, b);
    PrintsFollowFields(ca);
    PrintsFollowFields(cb);
    var planId := PlanId(NegRiskSubmitFamily(f, a));
    forall i | 0 <= i < |ca|
      ensures ReducedSigned(SignMember(ca[i], planId, i)) == ReducedSigned(SignMember(cb[i], planId, i))
    {
      assert Map(Fields, ca)[i] == Map(Fields, cb)[i];
      FieldsDetermineMember(ca[i], cb[i]);
      ReducedMembersSignAlike(ca[i], cb[i], planId, i);
    }
  }

  /** Reordering a family's members or rewriting its decimals changes neither the plan id, nor the
      request-bound plan id, nor any attempt id, nor the list that is signed. */
  lemma SamePlansShareIdentity(
      a: ExecutionPlan, b: ExecutionPlan, request: ExecutionRequest, attemptNo: nat, hash: Bytes -> Bytes)
    requires SamePlan(a, b)
    ensures PlanId(a) == PlanId(b)
    ensures RequestBoundPlanId(a, request) == RequestBoundPlanId(b, request)
    ensures AttemptId(RequestBoundPlanId(a, request), attemptNo, hash)
         == AttemptId(RequestBoundPlanId(b, request), attemptNo, hash)
    ensures SignedAlike(SignFamily(a), SignFamily(b))
  {
    if a.NegRiskSubmitFamily? && b.NegRiskSubmitFamily? {
      FamiliesShareIdentity(a.familyId, a.members, b.members);
    }
  }

  // ----- The signer's order is the printed order -----

  function Unsigned(m: SignedMember): Member {
    Member(m.conditionId, m.tokenId, m.price, m.quantity)
  }

  function PrintSigned(m: SignedMember): Bytes {
    PrintMember(Unsigned(m))
  }

  function Signed(plan: ExecutionPlan): seq<SignedMember>
    requires plan.NegRiskSubmitFamily?
  {
    SignFamily(plan).value.members
  }

  /** The signed list holds exactly the plan's members, and printing it in its own order gives the
      plan id. */
  lemma SignedListSpellsPlanId(plan: ExecutionPlan)
    requires plan.NegRiskSubmitFamily?
    ensures multiset(Map(Unsigned, Signed(plan))) == multiset(plan.members)
    ensures PlanId(plan) == FAMILY + (plan.familyId + ":" + Join(Map(PrintSigned, Signed(plan)), "|"))
  {
    SortPermutes(plan.members, MemberLeq);
    assert Map(Unsigned, Signed(plan)) == Canonical(plan.members);
    assert Map(PrintSigned, Signed(plan)) == Map(PrintMember, Canonical(plan.members));
  }

  /** The amounts of a signed member are its quantity and the exact price times quantity. */
  lemma SignedAmounts(plan: ExecutionPlan, i: nat)
    requires plan.NegRiskSubmitFamily? && i < |Signed(plan)|
    ensures var m := Signed(plan)[i];
            && Parse(m.makerAmount) == Some(Normalize(m.quantity))
            && Parse(m.takerAmount) == Some(Normalize(Times(m.price, m.quantity)))
  {
    var m := Canonical(plan.members)[i];
    ParseInvertsShow(Normalize(m.quantity));
    ParseInvertsShow(Normalize(Times(m.price, m.quantity)));
  }

  // ----- Binding -----

  lemma PlanIdStart(plan: ExecutionPlan)
    ensures |PlanId(plan)| > 2 && (PlanId(plan)[0] != 'r' || PlanId(plan)[2] != 'q')
  {
  }

  /** A bound plan id leads back to the plan id, and a plan id never looks like a bound one. */
  lemma ScopeOfPlan(plan: ExecutionPlan, request: ExecutionRequest)
    requires |request.requestId| <= USIZE_MAX
    ensures PlanScope.StablePlanScope(RequestBoundPlanId(plan, request)) == PlanId(plan)
    ensures PlanScope.StablePlanScope(PlanId(plan)) == PlanId(plan)
  {
    PlanScope.ScopeInvertsBinding(request.requestId, PlanId(plan));
    PlanIdStart(plan);
    PlanScope.UnboundIsItself(PlanId(plan));
  }

  // ----- Planning -----

  /** A request plans a target exactly when its route is neg-risk and its scope the family; the plan
      holds the target's members by condition and token, those of one token in the target's order. */
  lemma PlanningIsExact(request: ExecutionRequest, target: FamilyTarget)
    ensures var r := PlanFamilySubmission(request, target);
            && (r.Ok? <==> request.route == ROUTE && request.scope == target.familyId)
            && (r.Ok? ==> && r.value.NegRiskSubmitFamily? && r.value.familyId == request.scope
                          && multiset(r.value.members) == multiset(target.members)
                          && Sorted(r.value.members, TokenLeq))
            && (r.Err? ==> r.error == if request.route != ROUTE then RouteMismatch(request.route)
                                      else ScopeMismatch(request.scope, target.familyId))
  {
    SortPermutes(target.members, TokenLeq);
    TokenLeqIsOrder();
    SortSorts(target.members, TokenLeq);
  }

  lemma TokenLeqIsOrder()
    ensures TotalPreorder(TokenLeq)
  {
    forall a, b ensures TokenLeq(a, b) || TokenLeq(b, a) { KeyLeqTotal(TokenKey(a), TokenKey(b)); }
    forall a, b, c | TokenLeq(a, b) && TokenLeq(b, c) ensures TokenLeq(a, c) {
      KeyLeqTransitive(TokenKey(a), TokenKey(b), TokenKey(c));
    }
  }

  /** Targets with the same members plan, and so sign, the same submission. */
  lemma TargetOrderDoesNotMatter(request: ExecutionRequest, a: FamilyTarget, b: FamilyTarget)
    requires a.familyId == b.familyId && SameMembers(a.members, b.members)
    ensures var x, y := PlanFamilySubmission(request, a), PlanFamilySubmission(request, b);
            if x.Ok? && y.Ok? then PlanId(x.value) == PlanId(y.value)
            && SignedAlike(SignFamily(x.value), SignFamily(y.value))
            else x == y
  {
    SortPermutes(a.members, TokenLeq);
    SortPermutes(b.members, TokenLeq);
    var sa, sb := Sort(a.members, TokenLeq), Sort(b.members, TokenLeq);
    MapMultiset(Reduced, sa, a.members);
    MapMultiset(Reduced, sb, b.members);
    FamiliesShareIdentity(a.familyId, sa, sb);
  }
}
