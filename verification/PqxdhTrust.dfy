/**
 Whose keys a PQXDH start accepts: which bundles an initiator starts from, which
 initial messages a responder answers, and what the safety number stands for.
 */
module PqxdhTrust {
  import opened Wrappers
  import opened Keys
  import opened Pqxdh
  import R = Ratchet
  import Text

  // ---- bundles ---------------------------------------------------------

  /** The signature was made for a key of this upload. */
  ghost predicate MadeFor(upload: Upload, sig: Signature) {
    || sig == upload.curveSig
    || sig == upload.pqSig
    || (exists o :: o in upload.curveOtks && o.1 == sig)
    || (exists o :: o in upload.pqOtks && o.1 == sig)
  }

  /** Whatever the bundle has of the identity's signatures was made for this upload; all else is free. */
  ghost predicate SignedFor(upload: Upload, b: Bundle) {
    && b.identity == upload.identity
    && forall sig | sig in {b.curveSig, b.pqSig, b.curveOtkSig, b.pqOtkSig} && sig.Signature? && sig.identity == b.identity :: MadeFor(upload, sig)
  }

  /** A session is started from a bundle exactly when its signed keys and its usable one-time keys are those uploaded. */
  lemma StartsIff(upload: Upload, b: Bundle, own: Store, identity: string, who: Parties, coins: Coins, body: string)
    requires Vouched(upload) && SignedFor(upload, b)
    ensures Initiate(b, own, identity, who, coins, body).Success? <==>
      && (b.curve, b.curveSig) == (upload.curve, upload.curveSig) && (b.pq, b.pqSig) == (upload.pq, upload.pqSig)
      && (b.curveOtk.keyId > 0 && b.curveOtk.key != "" ==> (b.curveOtk, b.curveOtkSig) in upload.curveOtks)
      && (b.pqOtk.keyId > 0 && b.pqOtk.key != "" ==> (b.pqOtk, b.pqOtkSig) in upload.pqOtks)
    ensures Initiate(b, own, identity, who, coins, body).Failure? ==> Initiate(b, own, identity, who, coins, body) == Failure(BadBundle)
  {
    var sigs := {b.curveSig, b.pqSig, b.curveOtkSig, b.pqOtkSig};
    assert b.curveSig in sigs && b.pqSig in sigs && b.curveOtkSig in sigs && b.pqOtkSig in sigs;
    if BundleVerifies(b) {
      if b.curveOtk.keyId > 0 && b.curveOtk.key != "" { CurveIsUploaded(upload, b.curveOtk, b.curveOtkSig); }
      if b.pqOtk.keyId > 0 && b.pqOtk.key != "" { PqIsUploaded(upload, b.pqOtk, b.pqOtkSig); }
    }
  }

  lemma CurveIsUploaded(upload: Upload, key: CurvePrekey, sig: Signature)
    requires Vouched(upload) && MadeFor(upload, sig) && Verifies(upload.identity, CurveOneTime, key.keyId, X25519, key.key, sig)
    ensures (key, sig) in upload.curveOtks
  {
    var o :| o in upload.curveOtks && o.1 == sig;
    assert Verifies(upload.identity, CurveOneTime, o.0.keyId, X25519, o.0.key, o.1);
    assert o == (key, sig);
  }

  lemma PqIsUploaded(upload: Upload, key: PqPrekey, sig: Signature)
    requires Vouched(upload) && MadeFor(upload, sig) && Verifies(upload.identity, PqOneTime, key.keyId, key.alg, key.key, sig)
    ensures (key, sig) in upload.pqOtks
  {
    var o :| o in upload.pqOtks && o.1 == sig;
    assert Verifies(upload.identity, PqOneTime, o.0.keyId, o.0.alg, o.0.key, o.1);
    assert o == (key, sig);
  }

  /** A one-time key that is there has a positive id, and one with a positive id is there. */
  predicate WholeOtks(b: Bundle) {
    && (b.curveOtk == CurvePrekey(-1, "") || (b.curveOtk.keyId > 0 && b.curveOtk.key != ""))
    && (b.pqOtk == PqPrekey(-1, "", "") || (b.pqOtk.keyId > 0 && b.pqOtk.key != ""))
  }

  /** With one-time keys that are whole, sessions start from issued bundles and from no others. */
  lemma StartsIffIssued(upload: Upload, b: Bundle, own: Store, identity: string, who: Parties, coins: Coins, body: string)
    requires Vouched(upload) && SignedFor(upload, b) && WholeOtks(b)
    ensures Initiate(b, own, identity, who, coins, body).Success? <==> Issued(upload, b)
  {
    StartsIff(upload, b, own, identity, who, coins, body);
    if Issued(upload, b) && b.curveOtk == CurvePrekey(-1, "") && b.pqOtk == PqPrekey(-1, "", "") {
      assert Initiate(b, own, identity, who, coins, body).Success?;
    }
  }

  // ---- the key that is encapsulated to ---------------------------------

  /** The algorithm and key are those of one uploaded prekey. */
  ghost predicate UploadedPq(upload: Upload, alg: string, key: string) {
    || (alg, key) == (upload.pq.alg, upload.pq.key)
    || exists o :: o in upload.pqOtks && (o.0.alg, o.0.key) == (alg, key)
  }

  /**
   The post-quantum one-time key is used when it is there, its algorithm when its id
   is positive, and both are checked only together. So what is encapsulated to was
   uploaded exactly when the two conditions agree, and else is what the bundle says.
   */
  lemma EncapsulatedTo(upload: Upload, b: Bundle, own: Store, identity: string, who: Parties, coins: Coins, body: string)
    requires Vouched(upload) && SignedFor(upload, b) && Initiate(b, own, identity, who, coins, body).Success?
    ensures var w := Initiate(b, own, identity, who, coins, body).value.0; var pk, alg := w.payload.pqCt.pk, w.payload.alg;
      && w.payload.pqCt.alg == alg
      && ((b.pqOtk.keyId > 0 <==> b.pqOtk.key != "") ==> UploadedPq(upload, alg, pk))
      && (b.pqOtk.keyId <= 0 && b.pqOtk.key != "" ==> pk == b.pqOtk.key && alg == upload.pq.alg)
      && (b.pqOtk.keyId > 0 && b.pqOtk.key == "" ==> pk == upload.pq.key && alg == b.pqOtk.alg)
  {
    StartsIff(upload, b, own, identity, who, coins, body);
    if b.pqOtk.keyId > 0 && b.pqOtk.key != "" { assert (b.pqOtk, b.pqOtkSig) in upload.pqOtks; }
  }

  /** The bundle of an upload with a key of anybody's put in, under the id that stands for none. */
  function WithForeignPq(upload: Upload, key: string): Bundle {
    Bundle(upload.identity, upload.curve, upload.curveSig, upload.pq, upload.pqSig,
           CurvePrekey(-1, ""), NotASignature, PqPrekey(-1, "", key), NotASignature)
  }

  /** Such a key is encapsulated to without any signature of it. */
  lemma ForeignPqIsUsed(upload: Upload, key: string, own: Store, identity: string, who: Parties, coins: Coins, body: string)
    requires Vouched(upload) && key != ""
    ensures var b := WithForeignPq(upload, key); var i := Initiate(b, own, identity, who, coins, body);
      && SignedFor(upload, b) && !Issued(upload, b) && i.Success?
      && i.value.1.rootKey.PqxdhRoot? && i.value.1.rootKey.kem == Encapsulated(upload.pq.alg, key, coins.kem)
  {
    var b := WithForeignPq(upload, key);
    assert forall sig | sig in {b.curveSig, b.pqSig, b.curveOtkSig, b.pqOtkSig} && sig.Signature? :: sig == upload.curveSig || sig == upload.pqSig;
    assert Verifies(upload.identity, CurveSigned, b.curve.keyId, X25519, b.curve.key, b.curveSig);
    assert forall o | o in upload.pqOtks :: o.1 != NotASignature;
  }

  // ---- the responder ---------------------------------------------------

  /**
   An initial message is answered exactly when it is for this user, the sender's curve
   key is signed by the identity it names, and the box was made under the agreed root
   for just this payload; the answer is bound to the sender named.
   */
  lemma AnsweredIff(s: Store, w: InitWire, expected: int, own: Pub, spareSid: string)
    ensures var p, r := w.payload, Response(s, w, expected, own, spareSid);
      && (r.Success? <==>
            && p.recipient == expected
            && p.senderCurveSig == Signature(p.identity, CurveSigned, p.senderCurve.keyId, "X25519", p.senderCurve.key)
            && w.ct == InitBox(CkMsg(InitLeft(ResponderRoot(s, p))), p, if w.ct.InitBox? then w.ct.body else ""))
      && (p.recipient != expected ==> r == Failure(RecipientMismatch))
      && (r == Failure(BadSenderPrekey) <==>
            && p.recipient == expected
            && p.senderCurveSig != Signature(p.identity, CurveSigned, p.senderCurve.keyId, "X25519", p.senderCurve.key))
      && (r.Success? ==> var c := r.value.state.ctx;
            && c.me == expected && c.peer == p.sender == r.value.sender && c.conversation == p.conversation
            && c.sid == (if p.sid != "" then p.sid else spareSid)
            && c.identityVersion == (if p.identityVersion.Some? then p.identityVersion.value else 0))
  {
  }

  /** What an initiator sends names both ends and the keys it used, under its own signature. */
  lemma InitialNames(b: Bundle, own: Store, identity: string, who: Parties, coins: Coins, body: string)
    requires Initiate(b, own, identity, who, coins, body).Success?
    ensures var (w, s, _) := Initiate(b, own, identity, who, coins, body).value; var p := w.payload;
      && p.sender == who.me && p.recipient == who.peer && p.conversation == who.conversation && p.identity == identity && p.sid == coins.sid
      && p.senderCurve == own.curveSigned && Verifies(identity, CurveSigned, p.senderCurve.keyId, "X25519", p.senderCurve.key, p.senderCurveSig)
      && (p.curveSpkId, p.pqSpkId, p.curveOtkId, p.pqOtkId) == (b.curve.keyId, b.pq.keyId, b.curveOtk.keyId, b.pqOtk.keyId)
      && p.identityVersion == who.identityVersion && p.drPub == s.send.dh == coins.ratchet
      && s.ctx == R.Context(coins.sid, who.conversation, who.me, who.peer, if who.identityVersion.Some? then who.identityVersion.value else 0)
  {
  }

  // ---- the safety number -----------------------------------------------

  /** Two conversations show one number exactly when they are between the same two identities. */
  lemma FingerprintNames(a: string, b: string, c: string, d: string)
    ensures SafetyFingerprint(a, b) == SafetyFingerprint(c, d) <==> (a, b) == (c, d) || (a, b) == (d, c)
  {
    FingerprintSymmetric(c, d);
  }
}
