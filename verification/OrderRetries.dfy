/** crates/execution/src/orders.rs: retries of a signed order. */
module OrderRetries {
  import opened Options
  import opened Text
  import opened StableSort

  datatype Identity = Identity(hash: Bytes, salt: Bytes, nonce: Bytes, signature: Bytes)

  datatype RetryKind = Initial | Transport | Business

  datatype RetryError = NonceUnchanged | IdentityNonceMismatch | OrderIdReused

  datatype Envelope = Envelope(
    orderId: Bytes, identity: Identity, kind: RetryKind, retryOf: Option<Bytes>,
    attemptId: Option<Bytes>, used: seq<Bytes>)

  function New(orderId: Bytes, identity: Identity): Envelope {
    Envelope(orderId, identity, Initial, None, None, [orderId])
  }

  function TransportRetry(e: Envelope): Envelope {
    e.(kind := Transport)
  }

  function BusinessRetry(e: Envelope, orderId: Bytes, newNonce: Bytes, identity: Identity): Result<Envelope, RetryError>
  {
    if orderId in e.used then Err(OrderIdReused)
    else if newNonce == e.identity.nonce then Err(NonceUnchanged)
    else if identity.nonce != newNonce then Err(IdentityNonceMismatch)
    else Ok(Envelope(orderId, identity, Business, Some(e.retryOf.GetOr(e.orderId)), e.attemptId, e.used + [orderId]))
  }

  /** What is done to an envelope; a refused business retry leaves the caller with the old one. */
  datatype Step =
    | AttachAttempt(attemptId: Bytes)
    | RetryTransport
    | RetryBusiness(orderId: Bytes, newNonce: Bytes, identity: Identity)

  function Apply(e: Envelope, s: Step): Envelope {
    match s
    case AttachAttempt(id) => e.(attemptId := Some(id))
    case RetryTransport => TransportRetry(e)
    case RetryBusiness(orderId, newNonce, identity) =>
      var r := BusinessRetry(e, orderId, newNonce, identity);
      if r.Ok? then r.value else e
  }

  /** The envelopes a chain goes through, the first one included. */
  function Chain(first: Envelope, steps: seq<Step>): (r: seq<Envelope>)
    ensures |r| == |steps| + 1 && r[0] == first
  {
    if steps == [] then [first]
    else
      var before := Chain(first, steps[..|steps| - 1]);
      before + [Apply(before[|steps| - 1], steps[|steps| - 1])]
  }

  /** What an envelope that started as order root says about its past. */
  ghost predicate Sound(e: Envelope, root: Bytes) {
    && e.used != [] && e.used[0] == root && e.used[|e.used| - 1] == e.orderId
    && Distinct(e.used)
    && e.retryOf == (if |e.used| == 1 then None else Some(root))
  }

  /** What one step may change: a business retry takes a new order id and a new nonce, and appends
      the id; anything else keeps the order, its identity and its history. */
  ghost predicate Follows(e: Envelope, f: Envelope) {
    if f.used == e.used then (f.orderId, f.identity, f.retryOf) == (e.orderId, e.identity, e.retryOf)
    else && f.used == e.used + [f.orderId] && f.orderId !in e.used
         && f.identity.nonce != e.identity.nonce && f.kind == Business && f.attemptId == e.attemptId
  }

  lemma ApplyKeepsSound(e: Envelope, s: Step, root: Bytes)
    requires Sound(e, root)
    ensures Sound(Apply(e, s), root) && Follows(e, Apply(e, s))
  {
    var f := Apply(e, s);
    if f.used != e.used {
      assert e.retryOf.GetOr(e.orderId) == root;
      assert f.used[0] == root;
    }
  }

  ghost predicate SoundChain(c: seq<Envelope>, root: Bytes) {
    && (forall i :: 0 <= i < |c| ==> Sound(c[i], root))
    && (forall i :: 0 < i < |c| ==> Follows(c[i - 1], c[i]))
  }

  /** Along every chain of retries the used order ids are distinct, start at the first order and end
      at the current one; the retry root is the first order from the first business retry on; and
      every step follows the rules above. */
  lemma {:induction false} ChainsAreSound(orderId: Bytes, identity: Identity, steps: seq<Step>)
    ensures SoundChain(Chain(New(orderId, identity), steps), orderId)
  {
    var c := Chain(New(orderId, identity), steps);
    if steps == [] {
      assert c == [New(orderId, identity)];
    } else {
      var n := |steps| - 1;
      ChainsAreSound(orderId, identity, steps[..n]);
      var before := Chain(New(orderId, identity), steps[..n]);
      ApplyKeepsSound(before[n], steps[n], orderId);
      assert c == before + [Apply(before[n], steps[n])];
    }
  }

  /** A business retry is refused exactly for a used order id, an unchanged nonce, or an identity
      signed for another nonce; the first of these that applies is reported. */
  lemma BusinessRetryRefusedIff(e: Envelope, orderId: Bytes, newNonce: Bytes, identity: Identity)
    ensures var r := BusinessRetry(e, orderId, newNonce, identity);
            && (r.Err? <==> orderId in e.used || newNonce == e.identity.nonce || identity.nonce != newNonce)
            && (r.Err? ==> r.error == if orderId in e.used then OrderIdReused
                                      else if newNonce == e.identity.nonce then NonceUnchanged
                                      else IdentityNonceMismatch)
            && (r.Ok? ==> Follows(e, r.value) && r.value.used != e.used && r.value.identity == identity)
  {
    var r := BusinessRetry(e, orderId, newNonce, identity);
    if r.Ok? {
      assert |r.value.used| == |e.used| + 1;
    }
  }

  /** Later envelopes of a chain remember every order id of the earlier ones, in order. */
  lemma {:induction false} HistoryOnlyGrows(orderId: Bytes, identity: Identity, steps: seq<Step>, i: nat, j: nat)
    requires i <= j <= |steps|
    ensures var c := Chain(New(orderId, identity), steps); c[i].used <= c[j].used
    decreases j - i
  {
    ChainsAreSound(orderId, identity, steps);
    if i < j {
      HistoryOnlyGrows(orderId, identity, steps, i, j - 1);
      var c := Chain(New(orderId, identity), steps);
      assert Follows(c[j - 1], c[j]);
    }
  }
}
