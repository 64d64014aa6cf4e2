/**
 The PQXDH start of a session: prekey bundles, the initiator's message and the
 responder, which takes one-time keys out of its store.
 */
module Pqxdh {
  import opened Wrappers
  import opened Keys
  import R = Ratchet
  import Text

  /** What a prekey signature is made for. */
  datatype Kind = CurveSigned | PqSigned | CurveOneTime | PqOneTime

  /** Ideal Ed25519: a signature verifies for exactly what it was made for. */
  datatype Signature = Signature(identity: string, kind: Kind, keyId: int, alg: string, key: string) | NotASignature

  predicate Verifies(identity: string, kind: Kind, keyId: int, alg: string, key: string, sig: Signature) {
    sig == Signature(identity, kind, keyId, alg, key)
  }

  const X25519 := "X25519"

  datatype CurvePrekey = CurvePrekey(keyId: int, key: Pub)
  datatype PqPrekey = PqPrekey(keyId: int, alg: string, key: string)

  /** The local prekey store; a key pair is named by its public half. */
  datatype Store = Store(identity: string, curveSigned: CurvePrekey, pqSigned: PqPrekey,
                         curveOneTime: map<int, Pub>, pqOneTime: map<int, string>)

  /** What is uploaded: signed public keys only. */
  datatype Upload = Upload(identity: string, curve: CurvePrekey, curveSig: Signature, pq: PqPrekey, pqSig: Signature,
                           curveOtks: seq<(CurvePrekey, Signature)>, pqOtks: seq<(PqPrekey, Signature)>)

  /** What a client fetches: ids are -1 and keys "" when no one-time key is left. */
  datatype Bundle = Bundle(identity: string, curve: CurvePrekey, curveSig: Signature, pq: PqPrekey, pqSig: Signature,
                           curveOtk: CurvePrekey, curveOtkSig: Signature, pqOtk: PqPrekey, pqOtkSig: Signature)

  /** The S3PQI payload without its ciphertext; in canonical form it is the AAD. */
  datatype Payload = Payload(sid: string, conversation: int, sender: int, recipient: int, identity: string,
                             senderCurve: CurvePrekey, senderCurveSig: Signature, eph: Pub,
                             curveSpkId: int, curveOtkId: int, pqSpkId: int, pqOtkId: int,
                             alg: string, pqCt: KemCiphertext, drPub: Pub, identityVersion: Option<int>)

  datatype InitBox = InitBox(key: Key, aad: Payload, body: string) | NotAnInitBox

  datatype InitWire = InitWire(payload: Payload, ct: InitBox)

  datatype Error = BadBundle | RecipientMismatch | BadSenderPrekey | CannotOpen

  /** Both keys in string order, so both sides show the same number. */
  function SafetyFingerprint(a: string, b: string): (string, string) {
    if Text.Le(a, b) then (a, b) else (b, a)
  }

  lemma FingerprintSymmetric(a: string, b: string)
    ensures SafetyFingerprint(a, b) == SafetyFingerprint(b, a)
  {
    Text.LeTotal(a, b);
    if Text.Le(a, b) && Text.Le(b, a) { Text.LeAntisymmetric(a, b); }
  }

  // ---- bundles ---------------------------------------------------------

  /**
   `generate_local_bundle`: key `i` of each supply becomes one-time key `base + i`,
   key 0 the signed prekey. The key pairs come from the random source.
   */
  method GenerateLocalBundle(identity: string, alg: string, base: nat, curveKeys: seq<Pub>, pqKeys: seq<string>)
      returns (upload: Upload, local: Store)
    requires |curveKeys| == |pqKeys| > 0 && "" !in pqKeys
    ensures upload.identity == local.identity == identity
    ensures local.curveSigned == upload.curve == CurvePrekey(base, curveKeys[0])
    ensures local.pqSigned == upload.pq == PqPrekey(base, alg, pqKeys[0])
    ensures |upload.curveOtks| == |upload.pqOtks| == |curveKeys| - 1
    ensures Numbered(local.curveOneTime, base, curveKeys, |curveKeys| - 1)
    ensures Numbered(local.pqOneTime, base, pqKeys, |pqKeys| - 1)
    ensures Backed(upload, local) && Vouched(upload)
  {
    var curve, pq := CurvePrekey(base, curveKeys[0]), PqPrekey(base, alg, pqKeys[0]);
    var curveOneTime: map<int, Pub>, pqOneTime: map<int, string> := map[], map[];
    var curveOtks, pqOtks := [], [];
    for i := 0 to |curveKeys| - 1
      invariant |curveOtks| == |pqOtks| == i
      invariant forall j | 0 <= j < i :: curveOtks[j] == (CurvePrekey(base + j + 1, curveKeys[j + 1]),
                                                          Signature(identity, CurveOneTime, base + j + 1, X25519, curveKeys[j + 1]))
      invariant forall j | 0 <= j < i :: pqOtks[j] == (PqPrekey(base + j + 1, alg, pqKeys[j + 1]),
                                                       Signature(identity, PqOneTime, base + j + 1, alg, pqKeys[j + 1]))
      invariant Numbered(curveOneTime, base, curveKeys, i) && Numbered(pqOneTime, base, pqKeys, i)
    {
      var kid := base + i + 1;
      curveOneTime := curveOneTime[kid := curveKeys[i + 1]];
      curveOtks := curveOtks + [(CurvePrekey(kid, curveKeys[i + 1]), Signature(identity, CurveOneTime, kid, X25519, curveKeys[i + 1]))];
      pqOneTime := pqOneTime[kid := pqKeys[i + 1]];
      pqOtks := pqOtks + [(PqPrekey(kid, alg, pqKeys[i + 1]), Signature(identity, PqOneTime, kid, alg, pqKeys[i + 1]))];
    }
    local := Store(identity, curve, pq, curveOneTime, pqOneTime);
    upload := Upload(identity, curve, Signature(identity, CurveSigned, base, X25519, curve.key),
                     pq, Signature(identity, PqSigned, base, alg, pq.key), curveOtks, pqOtks);
  }

  /** The map has ids `base + 1` to `base + n`, each with the key of its number. */
  ghost predicate Numbered(m: map<int, string>, base: int, keys: seq<string>, n: nat)
    requires n < |keys|
  {
    && (forall kid | kid in m :: base < kid <= base + n && m[kid] == keys[kid - base])
    && (forall kid | base < kid <= base + n :: kid in m)
  }

  /** Every uploaded key has its secret in the store under its id, and ids of one-time keys are positive. */
  ghost predicate Backed(upload: Upload, local: Store) {
    && (forall o | o in upload.curveOtks :: o.0.keyId > 0 && o.0.keyId in local.curveOneTime && local.curveOneTime[o.0.keyId] == o.0.key)
    && (forall o | o in upload.pqOtks :: o.0.keyId > 0 && o.0.key != "" && o.0.alg == local.pqSigned.alg
                                          && o.0.keyId in local.pqOneTime && local.pqOneTime[o.0.keyId] == o.0.key)
  }

  /** Every uploaded key is signed by the identity. */
  ghost predicate Vouched(upload: Upload) {
    && Verifies(upload.identity, CurveSigned, upload.curve.keyId, X25519, upload.curve.key, upload.curveSig)
    && Verifies(upload.identity, PqSigned, upload.pq.keyId, upload.pq.alg, upload.pq.key, upload.pqSig)
    && (forall o | o in upload.curveOtks :: Verifies(upload.identity, CurveOneTime, o.0.keyId, X25519, o.0.key, o.1))
    && (forall o | o in upload.pqOtks :: Verifies(upload.identity, PqOneTime, o.0.keyId, o.0.alg, o.0.key, o.1))
  }

  /** A bundle handed out for an upload, with neither, one or both kinds of one-time key. */
  ghost predicate Issued(upload: Upload, b: Bundle) {
    && b.identity == upload.identity
    && (b.curve, b.curveSig, b.pq, b.pqSig) == (upload.curve, upload.curveSig, upload.pq, upload.pqSig)
    && (b.curveOtk == CurvePrekey(-1, "") || (b.curveOtk, b.curveOtkSig) in upload.curveOtks)
    && (b.pqOtk == PqPrekey(-1, "", "") || (b.pqOtk, b.pqOtkSig) in upload.pqOtks)
  }

  /** `verify_bundle`. */
  predicate BundleVerifies(b: Bundle) {
    && Verifies(b.identity, CurveSigned, b.curve.keyId, X25519, b.curve.key, b.curveSig)
    && Verifies(b.identity, PqSigned, b.pq.keyId, b.pq.alg, b.pq.key, b.pqSig)
    && (b.curveOtk.keyId > 0 && b.curveOtk.key != "" ==>
          Verifies(b.identity, CurveOneTime, b.curveOtk.keyId, X25519, b.curveOtk.key, b.curveOtkSig))
    && (b.pqOtk.keyId > 0 && b.pqOtk.key != "" ==>
          Verifies(b.identity, PqOneTime, b.pqOtk.keyId, b.pqOtk.alg, b.pqOtk.key, b.pqOtkSig))
  }

  // ---- the initiator ---------------------------------------------------

  /** Who sends to whom, as passed to `pqxdh_initiate`. */
  datatype Parties = Parties(me: int, peer: int, conversation: int, identityVersion: Option<int>)

  /** The random choices of one initiation. */
  datatype Coins = Coins(eph: Pub, ratchet: Pub, sid: string, kem: nat)

  /** Algorithm by the id of the one-time key, key by its presence. */
  function ChosenAlg(b: Bundle): string { if b.pqOtk.keyId > 0 then b.pqOtk.alg else b.pq.alg }

  function ChosenPq(b: Bundle): string { if b.pqOtk.key != "" then b.pqOtk.key else b.pq.key }

  function ChosenCurveOtk(b: Bundle): Pub { if b.curveOtk.keyId > 0 then b.curveOtk.key else "" }

  function InitiatorRoot(b: Bundle, own: Store, coins: Coins): Key {
    var parts := [Dh(own.curveSigned.key, b.curve.key), Dh(coins.eph, b.curve.key)];
    PqxdhRoot(if ChosenCurveOtk(b) != "" then parts + [Dh(coins.eph, ChosenCurveOtk(b))] else parts,
              Encapsulated(ChosenAlg(b), ChosenPq(b), coins.kem))
  }

  function VersionOr0(v: Option<int>): int { if v.Some? then v.value else 0 }

  /** `pqxdh_initiate`: the wire, the state with its first sending key used, the fingerprint. */
  function Initiate(b: Bundle, own: Store, identity: string, who: Parties, coins: Coins, body: string)
      : Result<(InitWire, R.State, (string, string)), Error>
  {
    if !BundleVerifies(b) then Failure(BadBundle)
    else
      var root := InitiatorRoot(b, own, coins);
      var s := R.New(root, true, coins.ratchet, "", coins.sid);
      var ctx := R.Context(coins.sid, who.conversation, who.me, who.peer, VersionOr0(who.identityVersion));
      var payload := Payload(coins.sid, who.conversation, who.me, who.peer, identity, own.curveSigned,
                             Signature(identity, CurveSigned, own.curveSigned.keyId, X25519, own.curveSigned.key), coins.eph,
                             b.curve.keyId, b.curveOtk.keyId, b.pq.keyId, b.pqOtk.keyId,
                             ChosenAlg(b), KemCiphertext(ChosenAlg(b), ChosenPq(b), coins.kem), coins.ratchet, who.identityVersion);
      Success((InitWire(payload, InitBox(CkMsg(s.send.ck), payload, body)),
               s.(send := s.send.(ck := CkNext(s.send.ck), n := 1), ctx := ctx),
               SafetyFingerprint(identity, b.identity)))
  }

  // ---- the responder ---------------------------------------------------

  datatype Responded = Responded(body: string, state: R.State, fingerprint: (string, string), sender: int)

  function Decapsulate(alg: string, sk: string, ct: KemCiphertext): KemSecret {
    if ct.alg == alg && ct.pk == sk then Encapsulated(alg, sk, ct.coin) else Rejected(sk, ct)
  }

  /** Whether the responder gets as far as taking keys out of the store. */
  function BeforeKeys(w: InitWire, expected: int): Option<Error> {
    var p := w.payload;
    if p.recipient != expected then Some(RecipientMismatch)
    else if !Verifies(p.identity, CurveSigned, p.senderCurve.keyId, X25519, p.senderCurve.key, p.senderCurveSig) then Some(BadSenderPrekey)
    else None
  }

  /** The store without the one-time keys a payload names. */
  function WithoutNamed(s: Store, p: Payload): Store {
    s.(curveOneTime := if p.curveOtkId > 0 then s.curveOneTime - {p.curveOtkId} else s.curveOneTime,
       pqOneTime := if p.pqOtkId > 0 then s.pqOneTime - {p.pqOtkId} else s.pqOneTime)
  }

  /** The curve one-time key in use: "" when none is named or the named one is gone. */
  function TakenCurve(s: Store, p: Payload): Pub {
    if p.curveOtkId > 0 && p.curveOtkId in s.curveOneTime then s.curveOneTime[p.curveOtkId] else ""
  }

  /** The KEM key in use: a missing one-time key falls back to the signed one. */
  function TakenPq(s: Store, p: Payload): string {
    if p.pqOtkId > 0 && p.pqOtkId in s.pqOneTime then s.pqOneTime[p.pqOtkId] else s.pqSigned.key
  }

  function ResponderRoot(s: Store, p: Payload): Key {
    var parts := [Dh(s.curveSigned.key, p.senderCurve.key), Dh(s.curveSigned.key, p.eph)];
    PqxdhRoot(if TakenCurve(s, p) != "" then parts + [Dh(TakenCurve(s, p), p.eph)] else parts,
              Decapsulate(p.alg, TakenPq(s, p), p.pqCt))
  }

  /** The responder's state; `own` is its new ratchet key, `spareSid` replaces a missing session id. */
  function ResponderState(s: Store, p: Payload, own: Pub, spareSid: string): R.State {
    var t := R.New(ResponderRoot(s, p), false, own, p.drPub, if p.sid != "" then p.sid else spareSid);
    t.(recv := t.recv.(ck := CkNext(t.recv.ck), n := 1),
       ctx := R.Context(t.ctx.sid, p.conversation, p.recipient, p.sender, VersionOr0(p.identityVersion)))
  }

  /** `pqxdh_respond` as a function of the store it is given. */
  function Response(s: Store, w: InitWire, expected: int, own: Pub, spareSid: string): Result<Responded, Error> {
    var early := BeforeKeys(w, expected);
    if early.Some? then Failure(early.value)
    else if w.ct.InitBox? && w.ct.key == CkMsg(InitLeft(ResponderRoot(s, w.payload))) && w.ct.aad == w.payload then
      Success(Responded(w.ct.body, ResponderState(s, w.payload, own, spareSid),
                        SafetyFingerprint(s.identity, w.payload.identity), w.payload.sender))
    else Failure(CannotOpen)
  }

  /** The store object the responder pops from. */
  class LocalStore {
    var identity: string
    var curveSigned: CurvePrekey
    var pqSigned: PqPrekey
    var curveOneTime: map<int, Pub>
    var pqOneTime: map<int, string>

    function View(): Store reads this { Store(identity, curveSigned, pqSigned, curveOneTime, pqOneTime) }

    constructor (s: Store)
      ensures View() == s
    {
      identity, curveSigned, pqSigned, curveOneTime, pqOneTime := s.identity, s.curveSigned, s.pqSigned, s.curveOneTime, s.pqOneTime;
    }

    /** `pqxdh_respond`: the named keys are gone even when opening fails afterwards. */
    method Respond(w: InitWire, expected: int, own: Pub, spareSid: string) returns (r: Result<Responded, Error>)
      modifies this`curveOneTime, this`pqOneTime
      ensures r == Response(old(View()), w, expected, own, spareSid)
      ensures View() == if BeforeKeys(w, expected).Some? then old(View()) else WithoutNamed(old(View()), w.payload)
    {
      var p := w.payload;
      ghost var s := View();
      if p.recipient != expected { return Failure(RecipientMismatch); }
      if !Verifies(p.identity, CurveSigned, p.senderCurve.keyId, X25519, p.senderCurve.key, p.senderCurveSig) {
        return Failure(BadSenderPrekey);
      }
      var curveOtk := "";
      if p.curveOtkId > 0 {
        if p.curveOtkId in curveOneTime { curveOtk := curveOneTime[p.curveOtkId]; }
        curveOneTime := curveOneTime - {p.curveOtkId};
      }
      var pqKey := pqSigned.key;
      if p.pqOtkId > 0 {
        if p.pqOtkId in pqOneTime { pqKey := pqOneTime[p.pqOtkId]; }
        pqOneTime := pqOneTime - {p.pqOtkId};
      }
      var parts := [Dh(curveSigned.key, p.senderCurve.key), Dh(curveSigned.key, p.eph)];
      if curveOtk != "" { parts := parts + [Dh(curveOtk, p.eph)]; }
      var root := PqxdhRoot(parts, Decapsulate(p.alg, pqKey, p.pqCt));
      assert root == ResponderRoot(s, p);
      var t := R.New(root, false, own, p.drPub, if p.sid != "" then p.sid else spareSid);
      t := t.(ctx := R.Context(t.ctx.sid, p.conversation, p.recipient, p.sender, VersionOr0(p.identityVersion)));
      var mk := CkMsg(t.recv.ck);
      t := t.(recv := t.recv.(ck := CkNext(t.recv.ck), n := 1));
      if w.ct.InitBox? && w.ct.key == mk && w.ct.aad == p {
        r := Success(Responded(w.ct.body, t, SafetyFingerprint(identity, p.identity), p.sender));
      } else {
        r := Failure(CannotOpen);
      }
    }
  }
}
