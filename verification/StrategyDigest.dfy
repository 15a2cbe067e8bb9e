/** crates/domain/src/strategy_control.rs: the canonical digest of a strategy artifact. */
module StrategyDigest {
  import opened Options
  import opened Text

  datatype DigestInput = DigestInput(
    route: Bytes, scope: Bytes, routePolicyVersion: Bytes, canonicalSemanticPayload: Bytes,
    sourceSnapshotId: Option<Bytes>, sourceSessionId: Option<Bytes>, observedAt: Option<int>,
    strategyCandidateRevision: Option<Bytes>, adoptableStrategyRevision: Option<Bytes>,
    provenanceExplanation: Option<Bytes>)

  const HEADER: Bytes := "strategy-artifact-semantic-v1"

  function EncodeComponent(value: Bytes): Bytes {
    Digits(|value|) + ":" + value
  }

  function SemanticDigest(input: DigestInput): Bytes {
    Join([HEADER, EncodeComponent(input.route), EncodeComponent(input.scope),
          EncodeComponent(input.routePolicyVersion), EncodeComponent(input.canonicalSemanticPayload)], "|")
  }

  // ----- A reader of digests -----

  /** Reads one length-prefixed component off the front of s: its value and what follows it. */
  function DecodeComponent(s: Bytes): Option<(Bytes, Bytes)> {
    var split := SplitOnce(s, ':');
    if split.None? then None
    else
      var length := DigitsValue(split.value.0);
      var rest := split.value.1;
      if length.Some? && length.value <= |rest| then Some((rest[..length.value], rest[length.value..])) else None
  }

  /** Reads n components, each after a '|', up to the end of s. */
  function DecodeComponents(s: Bytes, n: nat): Option<seq<Bytes>>
    decreases n
  {
    if n == 0 then if s == [] then Some([]) else None
    else if s == [] || s[0] != '|' then None
    else
      var first := DecodeComponent(s[1..]);
      if first.None? then None
      else
        var rest := DecodeComponents(first.value.1, n - 1);
        if rest.None? then None else Some([first.value.0] + rest.value)
  }

  function Decode(s: Bytes): Option<seq<Bytes>> {
    var body := StripPrefix(s, HEADER);
    if body.None? then None else DecodeComponents(body.value, 4)
  }

  lemma DecodeComponentInverts(value: Bytes, rest: Bytes)
    ensures DecodeComponent(EncodeComponent(value) + rest) == Some((value, rest))
  {
    var digits := Digits(|value|);
    DigitsValueOfDigits(|value|);
    DigitsHaveNo(':', |value|);
    assert EncodeComponent(value) + rest == digits + [':'] + (value + rest);
    SplitOnceAt(digits, ':', value + rest);
  }

  function EncodeComponents(values: seq<Bytes>): Bytes {
    if values == [] then [] else "|" + EncodeComponent(values[0]) + EncodeComponents(values[1..])
  }

  lemma DecodeNext(value: Bytes, rest: Bytes, n: nat)
    ensures var more := DecodeComponents(rest, n);
            DecodeComponents("|" + EncodeComponent(value) + rest, n + 1) ==
            if more.None? then None else Some([value] + more.value)
  {
    var s := "|" + EncodeComponent(value) + rest;
    DecodeComponentInverts(value, rest);
    assert s[0] == '|' && s[1..] == EncodeComponent(value) + rest;
  }

  lemma {:induction false} DecodeComponentsInvert(values: seq<Bytes>)
    ensures DecodeComponents(EncodeComponents(values), |values|) == Some(values)
  {
    if values != [] {
      DecodeComponentsInvert(values[1..]);
      DecodeNext(values[0], EncodeComponents(values[1..]), |values| - 1);
      assert [values[0]] + values[1..] == values;
    }
  }

  function Components(input: DigestInput): seq<Bytes> {
    [input.route, input.scope, input.routePolicyVersion, input.canonicalSemanticPayload]
  }

  lemma {:induction false} JoinIsFraming(head: Bytes, values: seq<Bytes>)
    ensures Join([head] + Encoded(values), "|") == head + EncodeComponents(values)
    decreases |values|
  {
    var parts := [head] + Encoded(values);
    if values != [] {
      JoinIsFraming(EncodeComponent(values[0]), values[1..]);
      assert parts[1..] == [EncodeComponent(values[0])] + Encoded(values[1..]);
    }
  }

  function Encoded(values: seq<Bytes>): seq<Bytes> {
    seq(|values|, i requires 0 <= i < |values| => EncodeComponent(values[i]))
  }

  /** A digest can be read back to exactly the four semantic components, whatever bytes they hold. */
  lemma DecodeInverts(input: DigestInput)
    ensures Decode(SemanticDigest(input)) == Some(Components(input))
  {
    var values := Components(input);
    assert [HEADER] + Encoded(values) ==
           [HEADER, EncodeComponent(input.route), EncodeComponent(input.scope),
            EncodeComponent(input.routePolicyVersion), EncodeComponent(input.canonicalSemanticPayload)];
    JoinIsFraming(HEADER, values);
    DecodeComponentsInvert(values);
  }

  lemma ComponentsDetermine(a: DigestInput, b: DigestInput)
    requires Components(a) == Components(b)
    ensures a.route == b.route && a.scope == b.scope && a.routePolicyVersion == b.routePolicyVersion
            && a.canonicalSemanticPayload == b.canonicalSemanticPayload
  {
    assert Components(a)[0] == Components(b)[0] && Components(a)[1] == Components(b)[1];
    assert Components(a)[2] == Components(b)[2] && Components(a)[3] == Components(b)[3];
  }

  lemma SameDigestSameComponents(a: DigestInput, b: DigestInput)
    requires SemanticDigest(a) == SemanticDigest(b)
    ensures Components(a) == Components(b)
  {
    DecodeInverts(a);
    DecodeInverts(b);
  }

  /** Two artifacts have one digest exactly when they agree on route, scope, policy version and
      payload; where they were seen, when, and how they were adopted plays no part. */
  lemma SameDigestIffSameMeaning(a: DigestInput, b: DigestInput)
    ensures SemanticDigest(a) == SemanticDigest(b) <==>
            && a.route == b.route && a.scope == b.scope && a.routePolicyVersion == b.routePolicyVersion
            && a.canonicalSemanticPayload == b.canonicalSemanticPayload
  {
    if SemanticDigest(a) == SemanticDigest(b) {
      SameDigestSameComponents(a, b);
      ComponentsDetermine(a, b);
    }
  }

}
