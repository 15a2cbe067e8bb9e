/** crates/execution/src/attempt.rs (request-bound ids) and crates/recovery/src/coordinator.rs
    (the scope a failed attempt is recovered under). */
module PlanScope {
  import opened Options
  import opened Text

  const BOUND: Bytes := "request-bound:"

  function RequestBoundPlanId(requestId: Bytes, planId: Bytes): Bytes {
    BOUND + Digits(|requestId|) + ":" + requestId + ":" + planId
  }

  /** `stable_plan_scope`. */
  function StablePlanScope(planId: Bytes): Bytes {
    var remainder := StripPrefix(planId, BOUND);
    if remainder.None? then planId
    else
      var split := SplitOnce(remainder.value, ':');
      if split.None? then planId
      else
        var length := ParseUsize(split.value.0);
        var trailing := split.value.1;
        if length.Some? && |trailing| > length.value && trailing[length.value] == ':'
        then trailing[length.value + 1..] else planId
  }

  /** `on_failed_ambiguous`: the scope of the recovery intent. */
  function RecoveryScope(planId: Bytes): Bytes {
    "execution_path:" + StablePlanScope(planId)
  }

  /** s is a request frame around inner: some text the parser reads as the length of request. */
  ghost predicate Framed(s: Bytes, length: Bytes, request: Bytes, inner: Bytes) {
    && s == BOUND + length + ":" + request + ":" + inner
    && ':' !in length && ParseUsize(length) == Some(|request|)
  }

  lemma FrameIsStripped(s: Bytes, length: Bytes, request: Bytes, inner: Bytes)
    requires Framed(s, length, request, inner)
    ensures StablePlanScope(s) == inner
  {
    var trailing := request + ":" + inner;
    assert s == BOUND + (length + [':'] + trailing);
    assert s[|BOUND|..] == length + [':'] + trailing;
    SplitOnceAt(length, ':', trailing);
    assert trailing[|request|] == ':' && trailing[|request| + 1..] == inner;
  }

  lemma UnboundIsItself(s: Bytes)
    requires |s| > 2 && (s[0] != 'r' || s[2] != 'q')
    ensures StablePlanScope(s) == s
  {
    assert BOUND[0] == 'r' && BOUND[2] == 'q';
  }

  lemma StrippedIsFrame(s: Bytes, length: Bytes, trailing: Bytes)
    requires s == BOUND + (length + [':'] + trailing) && ':' !in length
    requires ParseUsize(length).Some? && |trailing| > ParseUsize(length).value
             && trailing[ParseUsize(length).value] == ':'
    ensures var n := ParseUsize(length).value; Framed(s, length, trailing[..n], trailing[n + 1..])
  {
    var n := ParseUsize(length).value;
    assert trailing == trailing[..n] + ":" + trailing[n + 1..];
  }

  /** What the parser changes was a frame. */
  lemma ChangedWasFramed(s: Bytes)
    ensures StablePlanScope(s) == s || exists length, request :: Framed(s, length, request, StablePlanScope(s))
  {
    var remainder := StripPrefix(s, BOUND);
    if remainder.Some? {
      var split := SplitOnce(remainder.value, ':');
      if split.Some? {
        var length, trailing := split.value.0, split.value.1;
        var n := ParseUsize(length);
        if n.Some? && |trailing| > n.value && trailing[n.value] == ':' {
          assert s == BOUND + remainder.value;
          StrippedIsFrame(s, length, trailing);
        }
      }
    }
  }

  /** The parser strips exactly the frames: on a frame it returns what is inside, on anything
      else it returns its input; either way a suffix of the input. */
  lemma StripsExactlyFrames(s: Bytes)
    ensures (exists length, request, inner :: Framed(s, length, request, inner)) ==>
            exists length, request :: Framed(s, length, request, StablePlanScope(s))
    ensures !(exists length, request, inner :: Framed(s, length, request, inner)) ==> StablePlanScope(s) == s
    ensures exists k :: 0 <= k <= |s| && StablePlanScope(s) == s[k..]
  {
    if length, request, inner :| Framed(s, length, request, inner) {
      FrameIsStripped(s, length, request, inner);
      assert s[|s| - |inner|..] == inner;
    } else {
      ChangedWasFramed(s);
      assert s[0..] == s;
    }
  }

  /** A string's length always fits usize; for every such request id and every plan id, the
      recovery crate undoes the printer of the execution crate. */
  lemma ScopeInvertsBinding(requestId: Bytes, planId: Bytes)
    requires |requestId| <= USIZE_MAX
    ensures StablePlanScope(RequestBoundPlanId(requestId, planId)) == planId
  {
    DigitsHaveNo(':', |requestId|);
    ParseUsizeOfDigits(|requestId|);
    FrameIsStripped(RequestBoundPlanId(requestId, planId), Digits(|requestId|), requestId, planId);
  }

  lemma BindingSplits(requestId: Bytes, planId: Bytes)
    ensures var id := RequestBoundPlanId(requestId, planId);
            |id| >= |BOUND| && SplitOnce(id[|BOUND|..], ':') == Some((Digits(|requestId|), requestId + ":" + planId))
  {
    var trailing := requestId + ":" + planId;
    DigitsHaveNo(':', |requestId|);
    assert RequestBoundPlanId(requestId, planId) == BOUND + (Digits(|requestId|) + [':'] + trailing);
    assert RequestBoundPlanId(requestId, planId)[|BOUND|..] == Digits(|requestId|) + [':'] + trailing;
    SplitOnceAt(Digits(|requestId|), ':', trailing);
  }

  /** The printer loses neither the request nor the plan. */
  lemma BindingIsInjective(r1: Bytes, p1: Bytes, r2: Bytes, p2: Bytes)
    requires RequestBoundPlanId(r1, p1) == RequestBoundPlanId(r2, p2)
    ensures r1 == r2 && p1 == p2
  {
    BindingSplits(r1, p1);
    BindingSplits(r2, p2);
    DigitsInjective(|r1|, |r2|);
    var t1, t2 := r1 + ":" + p1, r2 + ":" + p2;
    assert t1[..|r1|] == r1 && t2[..|r2|] == r2;
    assert t1[|r1| + 1..] == p1 && t2[|r2| + 1..] == p2;
  }

  /** Failures of one plan are recovered under one scope whichever request they came from,
      and failures of different plans never are. */
  lemma RecoveryScopeIsPerPlan(r1: Bytes, p1: Bytes, r2: Bytes, p2: Bytes)
    requires |r1| <= USIZE_MAX && |r2| <= USIZE_MAX
    ensures RecoveryScope(RequestBoundPlanId(r1, p1)) == RecoveryScope(RequestBoundPlanId(r2, p2)) <==> p1 == p2
  {
    ScopeInvertsBinding(r1, p1);
    ScopeInvertsBinding(r2, p2);
    var prefix := "execution_path:";
    assert (prefix + p1)[|prefix|..] == p1 && (prefix + p2)[|prefix|..] == p2;
  }
}
