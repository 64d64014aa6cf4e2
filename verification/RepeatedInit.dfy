/**
 The same S3PQI message received twice: the second one is taken for known when the
 message names its session, and refused when the first took a one-time secret.
 Only a message with neither starts a second session.
 */
module RepeatedInit {
  import opened Wrappers
  import opened Keys
  import opened SessionMap
  import P = Pqxdh
  import A = PqxdhAgreement

  /** Nothing in the message or in what it took from the store makes a second answer fail. */
  predicate Repeatable(s: P.Store, w: P.InitWire) {
    w.payload.sid == "" && P.TakenCurve(s, w.payload) == "" && P.TakenPq(s, w.payload) == s.pqSigned.key
  }

  /** Two calls of `decrypt_live_message` with one message, the first of which was answered. */
  method ReceiveTwice(d: DmSessions, w: P.InitWire, own: Pub, own2: Pub, spare: string, spare2: string) returns (first: Live, second: Live)
    requires d.Valid() && spare != "" && spare !in d.Known() && spare2 !in d.Known() + {"", spare, w.payload.sid}
    requires d.IsNewInit(w, false) && d.Answer(w, own, spare).Success?
    modifies d`sessions, d`current, d.prekeys
    ensures d.Valid() && d.prekeys == old(d.prekeys)
    ensures var again := old(Repeatable(d.prekeys.prekeys.View(), w));
      && d.Known() == old(d.Known()) + {NewSid(w, spare)} + (if again then {spare2} else {})
      && (second.Message? ==> again) && (!again ==> second == if w.payload.sid != "" then Control else Hidden)
  {
    ghost var store := d.prekeys.prekeys.View();
    first := d.ReceiveInit(w, false, own, spare);
    A.RepeatOpensIff(store, w, d.myUid, own, own2, spare, spare2);
    second := d.ReceiveInit(w, false, own2, spare2);
  }

  /** The bundle handed out once the one-time keys are used up. */
  function PlainBundle(s: P.Store): P.Bundle {
    P.Bundle(s.identity,
             s.curveSigned, P.Signature(s.identity, P.CurveSigned, s.curveSigned.keyId, P.X25519, s.curveSigned.key),
             s.pqSigned, P.Signature(s.identity, P.PqSigned, s.pqSigned.keyId, s.pqSigned.alg, s.pqSigned.key),
             P.CurvePrekey(-1, ""), P.NotASignature, P.PqPrekey(-1, "", ""), P.NotASignature)
  }

  /** Such a message exists for every store: one made for the plain bundle, without a session id. */
  lemma UnnamedInitRepeats(s: P.Store, from: P.Store, identity: string, who: P.Parties, coins: P.Coins, body: string, own: Pub, spare: string)
    requires coins.sid == ""
    ensures var made := P.Initiate(PlainBundle(s), from, identity, who, coins, body);
      made.Success? && P.Response(s, made.value.0, who.peer, own, spare).Success? && Repeatable(s, made.value.0)
  {
    A.RespondsIff(PlainBundle(s), from, identity, who, coins, body, s, own, spare);
  }
}
