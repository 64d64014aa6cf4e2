/**
 What a PQXDH start promises: when the responder can answer, that both sides then
 hold mirrored states, and which one-time keys leave the store.
 */
module PqxdhAgreement {
  import opened Wrappers
  import opened Keys
  import opened Pqxdh
  import R = Ratchet
  import TwoParty

  /** The store still has the secrets the initiator's bundle was made of. */
  predicate CanAnswer(s: Store, b: Bundle, p: Payload) {
    && s.curveSigned.key == b.curve.key
    && (if p.curveOtkId > 0 && p.curveOtkId in s.curveOneTime then s.curveOneTime[p.curveOtkId] else "")
       == (if b.curveOtk.keyId > 0 then b.curveOtk.key else "")
    && (if p.pqOtkId > 0 && p.pqOtkId in s.pqOneTime then s.pqOneTime[p.pqOtkId] else s.pqSigned.key)
       == (if b.pqOtk.key != "" then b.pqOtk.key else b.pq.key)
  }

  lemma RootsAgreeIff(s: Store, b: Bundle, own: Store, coins: Coins, p: Payload)
    requires p.senderCurve == own.curveSigned && p.eph == coins.eph
    requires p.alg == ChosenAlg(b) && p.pqCt == KemCiphertext(ChosenAlg(b), ChosenPq(b), coins.kem)
    ensures ResponderRoot(s, p) == InitiatorRoot(b, own, coins) <==> CanAnswer(s, b, p)
  {
    var ri, rr := InitiatorRoot(b, own, coins), ResponderRoot(s, p);
    if ri == rr {
      assert ri.parts[0] == rr.parts[0] && |ri.parts| == |rr.parts|;
      SharedSame(own.curveSigned.key, b.curve.key, s.curveSigned.key);
      if |ri.parts| == 3 {
        assert ri.parts[2] == rr.parts[2];
        SharedSame(coins.eph, ChosenCurveOtk(b), TakenCurve(s, p));
      }
    } else if CanAnswer(s, b, p) {
      DhAgrees(own.curveSigned.key, b.curve.key);
      DhAgrees(coins.eph, b.curve.key);
      DhAgrees(coins.eph, ChosenCurveOtk(b));
    }
  }

  /** X25519: both holders of a pair of keys get one value, and one own key tells the other apart. */
  lemma DhAgrees(a: Pub, b: Pub)
    ensures Dh(a, b) == Dh(b, a)
  {
    assert {a, b} == {b, a};
  }

  lemma SharedSame(a: Pub, b: Pub, c: Pub)
    requires Dh(a, b) == Dh(c, a)
    ensures b == c
  {
    assert b in {c, a} && c in {a, b};
  }

  /**
   The responder opens an initiator's message if and only if its store yields the
   signed and one-time keys of the bundle; ids of signed prekeys play no part.
   */
  lemma RespondsIff(b: Bundle, own: Store, identity: string, who: Parties, coins: Coins, body: string,
                    s: Store, ratchet: Pub, spareSid: string)
    requires BundleVerifies(b)
    ensures var w := Initiate(b, own, identity, who, coins, body).value.0;
      Response(s, w, who.peer, ratchet, spareSid).Success? <==> CanAnswer(s, b, w.payload)
  {
    var (w, si, fp) := Initiate(b, own, identity, who, coins, body).value;
    RootsAgreeIff(s, b, own, coins, w.payload);
  }

  /**
   When it does, it reads the initial body, and the two states are exactly the two
   sides a run of TwoParty starts from: one root, mirrored chains.
   */
  lemma StatesMirror(b: Bundle, own: Store, identity: string, who: Parties, coins: Coins, body: string,
                     s: Store, ratchet: Pub, spareSid: string)
    requires BundleVerifies(b) && coins.sid != "" && s.identity == b.identity
    requires CanAnswer(s, b, Initiate(b, own, identity, who, coins, body).value.0.payload)
    ensures var (w, si, fp) := Initiate(b, own, identity, who, coins, body).value;
            var r := Response(s, w, who.peer, ratchet, spareSid);
      && r.Success? && r.value.body == body && r.value.sender == who.me && r.value.fingerprint == fp
      && (var start := TwoParty.Start(InitiatorRoot(b, own, coins), coins.ratchet, ratchet, si.ctx, r.value.state.ctx);
          start.initiator.state == si && start.responder.state == r.value.state)
      && r.value.state.ctx == R.Context(si.ctx.sid, si.ctx.conversation, si.ctx.peer, si.ctx.me, si.ctx.identityVersion)
      && (who.me != who.peer && who.me != 0 && who.peer != 0 ==> TwoParty.Paired(si.ctx, r.value.state.ctx))
  {
    var (w, si, fp) := Initiate(b, own, identity, who, coins, body).value;
    var p := w.payload;
    RespondsIff(b, own, identity, who, coins, body, s, ratchet, spareSid);
    RootsAgreeIff(s, b, own, coins, p);
    FingerprintSymmetric(s.identity, identity);
    var r := Response(s, w, who.peer, ratchet, spareSid);
    var root := InitiatorRoot(b, own, coins);
    var start := TwoParty.Start(root, coins.ratchet, ratchet, si.ctx, r.value.state.ctx);
    assert start.initiator.state == si && start.responder.state == r.value.state;
  }

  /** The store of the upload, possibly with other one-time keys used up since. */
  ghost predicate StillHolds(s: Store, upload: Upload, b: Bundle) {
    && s.curveSigned == upload.curve && s.pqSigned == upload.pq && s.identity == upload.identity
    && (b.curveOtk.keyId > 0 ==> b.curveOtk.keyId in s.curveOneTime && s.curveOneTime[b.curveOtk.keyId] == b.curveOtk.key)
    && (b.pqOtk.keyId > 0 ==> b.pqOtk.keyId in s.pqOneTime && s.pqOneTime[b.pqOtk.keyId] == b.pqOtk.key)
  }

  /** With neither, one or both one-time keys: an issued bundle verifies and its owner can answer. */
  lemma IssuedCanBeAnswered(upload: Upload, local: Store, b: Bundle, s: Store, own: Store, identity: string,
                            who: Parties, coins: Coins, body: string)
    requires Backed(upload, local) && Vouched(upload) && Issued(upload, b) && StillHolds(s, upload, b)
    ensures BundleVerifies(b) && CanAnswer(s, b, Initiate(b, own, identity, who, coins, body).value.0.payload)
  {
    if b.curveOtk != CurvePrekey(-1, "") {
      assert b.curveOtk.keyId > 0 && Verifies(upload.identity, CurveOneTime, b.curveOtk.keyId, X25519, b.curveOtk.key, b.curveOtkSig);
    }
    if b.pqOtk != PqPrekey(-1, "", "") {
      assert b.pqOtk.keyId > 0 && Verifies(upload.identity, PqOneTime, b.pqOtk.keyId, b.pqOtk.alg, b.pqOtk.key, b.pqOtkSig);
    }
  }

  /** Taking the named keys out removes those and nothing else. */
  lemma OnlyNamedKeysLeave(s: Store, p: Payload)
    ensures var t := WithoutNamed(s, p);
      && t.curveSigned == s.curveSigned && t.pqSigned == s.pqSigned && t.identity == s.identity
      && t.curveOneTime.Keys == s.curveOneTime.Keys - (if p.curveOtkId > 0 then {p.curveOtkId} else {})
      && t.pqOneTime.Keys == s.pqOneTime.Keys - (if p.pqOtkId > 0 then {p.pqOtkId} else {})
      && (forall k | k in t.curveOneTime :: t.curveOneTime[k] == s.curveOneTime[k])
      && (forall k | k in t.pqOneTime :: t.pqOneTime[k] == s.pqOneTime[k])
  {
  }

  /**
   A second answer to the same message works exactly when the first took no one-time
   secret: the keys taken the first time are what refuses a repeat.
   */
  lemma RepeatOpensIff(s: Store, w: InitWire, expected: int, r1: Pub, r2: Pub, sid1: string, sid2: string)
    requires Response(s, w, expected, r1, sid1).Success?
    ensures Response(WithoutNamed(s, w.payload), w, expected, r2, sid2).Success? <==>
      TakenCurve(s, w.payload) == "" && TakenPq(s, w.payload) == s.pqSigned.key
  {
    var p, t := w.payload, WithoutNamed(s, w.payload);
    assert TakenCurve(t, p) == "" && TakenPq(t, p) == s.pqSigned.key;
    var a, b := ResponderRoot(s, p), ResponderRoot(t, p);
    assert TakenCurve(s, p) != "" ==> |a.parts| == 3 && |b.parts| == 2;
  }

  // ---- a run of messages -----------------------------------------------

  /** A message and the random choices of its answer. */
  datatype Arrival = Arrival(w: InitWire, own: Pub, spareSid: string)

  /** The session's store after some messages: one that is answered takes its named keys along. */
  function StoreAfter(s: Store, me: int, ms: seq<Arrival>): Store {
    if ms == [] then s
    else
      var m, t := ms[|ms| - 1], StoreAfter(s, me, ms[..|ms| - 1]);
      if Response(t, m.w, me, m.own, m.spareSid).Success? then WithoutNamed(t, m.w.payload) else t
  }

  /** Message `i` is answered, with the store as the ones before it left it. */
  predicate Answered(s: Store, me: int, ms: seq<Arrival>, i: nat)
    requires i < |ms|
  {
    Response(StoreAfter(s, me, ms[..i]), ms[i].w, me, ms[i].own, ms[i].spareSid).Success?
  }

  datatype Supply = CurveSupply | PqSupply

  /** Message `i` is answered and names one-time key `id` of a supply. */
  predicate Serves(s: Store, me: int, ms: seq<Arrival>, i: nat, supply: Supply, id: int)
    requires i < |ms|
  {
    Answered(s, me, ms, i) && id == if supply.CurveSupply? then ms[i].w.payload.curveOtkId else ms[i].w.payload.pqOtkId
  }

  /** Some message is answered and names the key. */
  predicate Served(s: Store, me: int, ms: seq<Arrival>, supply: Supply, id: int) {
    ms != [] && (Serves(s, me, ms, |ms| - 1, supply, id) || Served(s, me, ms[..|ms| - 1], supply, id))
  }

  lemma ServesEarlier(s: Store, me: int, ms: seq<Arrival>, n: nat, i: nat, supply: Supply, id: int)
    requires i < n <= |ms|
    ensures Serves(s, me, ms[..n], i, supply, id) == Serves(s, me, ms, i, supply, id)
  {
    assert ms[..n][..i] == ms[..i];
  }

  lemma {:induction false} ServedBy(s: Store, me: int, ms: seq<Arrival>, supply: Supply, id: int, i: nat)
    requires i < |ms| && Serves(s, me, ms, i, supply, id)
    ensures Served(s, me, ms, supply, id)
  {
    var n := |ms| - 1;
    if i < n {
      ServesEarlier(s, me, ms, n, i, supply, id);
      ServedBy(s, me, ms[..n], supply, id, i);
    }
  }

  /** And one that does can be named. */
  lemma {:induction false} Server(s: Store, me: int, ms: seq<Arrival>, supply: Supply, id: int) returns (i: nat)
    requires Served(s, me, ms, supply, id)
    ensures i < |ms| && Serves(s, me, ms, i, supply, id)
  {
    i := |ms| - 1;
    if !Serves(s, me, ms, i, supply, id) {
      var n := i;
      i := Server(s, me, ms[..n], supply, id);
      ServesEarlier(s, me, ms, n, i, supply, id);
    }
  }

  /**
   Conservation over any run of messages: exactly the one-time keys named by answered
   messages have left the store; the others and the signed keys are as they were.
   */
  lemma {:induction false} ServedKeysLeave(s: Store, me: int, ms: seq<Arrival>)
    ensures var t := StoreAfter(s, me, ms);
      && t.identity == s.identity && t.curveSigned == s.curveSigned && t.pqSigned == s.pqSigned
      && (forall id | id in t.curveOneTime :: id in s.curveOneTime && t.curveOneTime[id] == s.curveOneTime[id])
      && (forall id | id in t.pqOneTime :: id in s.pqOneTime && t.pqOneTime[id] == s.pqOneTime[id])
      && (forall id | id in s.curveOneTime :: id in t.curveOneTime <==> !(id > 0 && Served(s, me, ms, CurveSupply, id)))
      && (forall id | id in s.pqOneTime :: id in t.pqOneTime <==> !(id > 0 && Served(s, me, ms, PqSupply, id)))
  {
    if ms != [] {
      var n := |ms| - 1;
      ServedKeysLeave(s, me, ms[..n]);
      OnlyNamedKeysLeave(StoreAfter(s, me, ms[..n]), ms[n].w.payload);
      assert forall id, supply :: Served(s, me, ms, supply, id) <==>
        Served(s, me, ms[..n], supply, id) || Serves(s, me, ms, n, supply, id);
    }
  }

  /** So no one-time secret goes into two answers: a later message that names its id is answered without it. */
  lemma OneTimeSecretsServeOnce(s: Store, me: int, ms: seq<Arrival>, i: nat, j: nat)
    requires i < j < |ms| && Answered(s, me, ms, i)
    ensures var t, p, q := StoreAfter(s, me, ms[..j]), ms[i].w.payload, ms[j].w.payload;
      && (p.curveOtkId == q.curveOtkId > 0 ==> TakenCurve(t, q) == "")
      && (p.pqOtkId == q.pqOtkId > 0 ==> TakenPq(t, q) == s.pqSigned.key)
  {
    ServedKeysLeave(s, me, ms[..j]);
    ServesEarlier(s, me, ms, j, i, CurveSupply, ms[i].w.payload.curveOtkId);
    ServesEarlier(s, me, ms, j, i, PqSupply, ms[i].w.payload.pqOtkId);
    ServedBy(s, me, ms[..j], CurveSupply, ms[i].w.payload.curveOtkId, i);
    ServedBy(s, me, ms[..j], PqSupply, ms[i].w.payload.pqOtkId, i);
  }

  // ---- the session's prekey store --------------------------------------

  /** `CryptoSession.pqxdh_prekeys` and the one method that consumes it. */
  class PrekeySession {
    var prekeys: LocalStore?

    constructor (s: Store)
      ensures fresh(prekeys) && prekeys != null && prekeys.View() == s
    {
      prekeys := new LocalStore(s);
    }

    /** `_respond_pqxdh_with_current_prekey`: works on a clone, which replaces the store only on success. */
    method RespondWithCurrentPrekey(w: InitWire, myUid: int, own: Pub, spareSid: string) returns (r: Option<Result<Responded, Error>>)
      modifies this
      ensures r.None? <==> old(prekeys) == null
      ensures old(prekeys) != null ==> unchanged(old(prekeys)) && r == Some(Response(old(prekeys.View()), w, myUid, own, spareSid))
      ensures !(r.Some? && r.value.Success?) ==> prekeys == old(prekeys)
      ensures r.Some? && r.value.Success? ==>
        prekeys != null && prekeys.View() == WithoutNamed(old(prekeys.View()), w.payload)
    {
      if prekeys == null { return None; }
      var candidate := new LocalStore(prekeys.View());
      var answer := candidate.Respond(w, myUid, own, spareSid);
      if answer.Success? { prekeys := candidate; }
      r := Some(answer);
    }
  }
}
