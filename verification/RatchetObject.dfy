/** The class `DoubleRatchet`: its methods update fields in place and follow Ratchet.dfy. */
module RatchetObject {
  import opened Wrappers
  import opened Keys
  import Text
  import opened R = Ratchet

  class DoubleRatchet {
    var rootKey: Key
    var dh: Pub
    var remote: Pub
    var ckSend: Key
    var ckRecv: Key
    var hkSend: Key
    var hkRecv: Key
    var nSend: nat
    var nRecv: nat
    var pn: nat
    var skipped: map<SkipId, Key>
    var needsSendRatchet: bool
    var ctx: Context
    var seen: set<string>

    function RecvView(): Receiving reads this { Receiving(remote, ckRecv, hkRecv, nRecv, skipped) }

    function View(): State reads this {
      State(rootKey, Sending(dh, ckSend, hkSend, nSend, pn, needsSendRatchet),
            Receiving(remote, ckRecv, hkRecv, nRecv, skipped), ctx, seen)
    }

    constructor New(root: Key, initiator: bool, own: Pub, remoteDh: Pub, sid: string)
      ensures View() == R.New(root, initiator, own, remoteDh, sid)
    {
      rootKey, dh, remote := root, own, remoteDh;
      ckSend := if initiator then InitLeft(root) else InitRight(root);
      ckRecv := if initiator then InitRight(root) else InitLeft(root);
      hkSend := if initiator then HeaderLeft(root) else HeaderRight(root);
      hkRecv := if initiator then HeaderRight(root) else HeaderLeft(root);
      nSend, nRecv, pn, skipped := 0, 0, 0, map[];
      needsSendRatchet := !initiator && remoteDh != "";
      ctx, seen := Context(sid, 0, 0, 0, 0), {};
    }

    /** An object in a given state, as the PQXDH functions build it. */
    constructor Of(s: State)
      ensures View() == s
    {
      rootKey, dh, remote, ckSend, ckRecv := s.rootKey, s.send.dh, s.recv.remote, s.send.ck, s.recv.ck;
      hkSend, hkRecv, nSend, nRecv, pn := s.send.hk, s.recv.hk, s.send.n, s.recv.n, s.send.pn;
      skipped, needsSendRatchet, ctx, seen := s.recv.skipped, s.send.needsRatchet, s.ctx, s.seen;
    }

    /** `from_dict(other.to_dict())`, the snapshot the session layer takes. */
    constructor Copy(other: DoubleRatchet)
      ensures Restores(other.View(), View())
    {
      rootKey, dh, remote, ckSend, ckRecv := other.rootKey, other.dh, other.remote, other.ckSend, other.ckRecv;
      hkSend, hkRecv := other.hkSend, other.hkRecv;
      nSend, nRecv, pn, skipped := other.nSend, other.nRecv, other.pn, other.skipped;
      needsSendRatchet, ctx := other.needsSendRatchet, other.ctx;
      var kept := Text.Largest(other.seen, SEEN_KEPT);
      seen := kept;
    }

    /** Zero ids and an absent version keep what is there. */
    method SetContext(conversation: int, me: int, peer: int, version: Option<int>)
      modifies this`ctx
      ensures ctx.sid == old(ctx.sid)
      ensures ctx.conversation == if conversation != 0 then conversation else old(ctx.conversation)
      ensures ctx.me == if me != 0 then me else old(ctx.me)
      ensures ctx.peer == if peer != 0 then peer else old(ctx.peer)
      ensures ctx.identityVersion == if version.Some? then version.value else old(ctx.identityVersion)
    {
      if conversation != 0 { ctx := ctx.(conversation := conversation); }
      if me != 0 { ctx := ctx.(me := me); }
      if peer != 0 { ctx := ctx.(peer := peer); }
      if version.Some? { ctx := ctx.(identityVersion := version.value); }
    }

    method MaybeSendRatchet(own: Pub)
      modifies this
      ensures View() == R.MaybeSendRatchet(old(View()), own)
    {
      if !needsSendRatchet || remote == "" { return; }
      pn := nSend;
      dh := own;
      var shared := Dh(dh, remote);
      rootKey, ckSend := RkRoot(rootKey, shared), RkChain(rootKey, shared);
      hkSend := HeaderChain(rootKey, ckSend);
      nSend := 0;
      needsSendRatchet := false;
    }

    method Encrypt(body: string, own: Pub) returns (w: Wire)
      modifies this
      ensures (View(), w) == R.Encrypt(old(View()), body, own)
      ensures ctx == old(ctx)
    {
      MaybeSendRatchet(own);
      var mk := CkMsg(ckSend);
      ckSend := CkNext(ckSend);
      var n := nSend;
      nSend := nSend + 1;
      var h := Header(ctx, dh, pn, n);
      w := Wire(ctx.sid, Some(h), Some(HeaderBox(hkSend, h)), BodyBox(mk, h, body));
    }

    method SkipUntil(until: int) returns (ok: bool)
      modifies this`skipped, this`ckRecv, this`nRecv
      ensures ok == R.SkipUntil(old(RecvView()), until).Some?
      ensures RecvView() == if ok then R.SkipUntil(old(RecvView()), until).value else old(RecvView())
    {
      var gap := until - nRecv;
      if gap < 0 { return true; }
      if gap > MAX_SKIP_KEYS || |skipped| + gap > MAX_SKIP_KEYS { return false; }
      ghost var r := RecvView();
      while nRecv < until
        invariant r.n <= nRecv <= until
        invariant RecvView() == StoreSkipped(r, nRecv)
      {
        var mk := CkMsg(ckRecv);
        ckRecv := CkNext(ckRecv);
        skipped := skipped[SkipId(remote, nRecv) := mk];
        nRecv := nRecv + 1;
      }
      ok := true;
    }

    method EnterChain(newRemote: Pub)
      modifies this`pn, this`nSend, this`nRecv, this`remote
      ensures View() == R.EnterChain(old(View()), newRemote)
    {
      pn := nSend;
      nSend := 0;
      nRecv := 0;
      remote := newRemote;
    }

    method OpenReceiving()
      modifies this`rootKey, this`ckRecv, this`hkRecv
      ensures View() == R.OpenReceiving(old(View()))
    {
      var shared := Dh(dh, remote);
      rootKey, ckRecv := RkRoot(rootKey, shared), RkChain(rootKey, shared);
      hkRecv := HeaderChain(rootKey, ckRecv);
    }

    method OpenSending(own: Pub)
      modifies this`dh, this`rootKey, this`ckSend, this`hkSend
      ensures View() == R.OpenSending(old(View()), own)
    {
      dh := own;
      var shared := Dh(dh, remote);
      rootKey, ckSend := RkRoot(rootKey, shared), RkChain(rootKey, shared);
      hkSend := HeaderChain(rootKey, ckSend);
    }

    /** False when X25519 rejects the key, which the source meets half way through. */
    method DhRatchet(newRemote: Pub, own: Pub) returns (ok: bool)
      modifies this
      ensures ok == IsPublicKey(newRemote)
      ensures View() == if ok then R.DhRatchet(old(View()), newRemote, own) else R.EnterChain(old(View()), newRemote)
    {
      EnterChain(newRemote);
      ok := IsPublicKey(newRemote);
      if ok {
        OpenReceiving();
        OpenSending(own);
      }
    }

    method RememberSeen(id: string)
      modifies this`seen
      ensures Remembers(old(seen) + {id}, seen)
      ensures seen <= old(seen) + {id}
    {
      seen := seen + {id};
      if |seen| > SEEN_LIMIT {
        var kept := Text.Largest(seen, SEEN_KEPT);
        seen := kept;
      }
    }

    /** The last step of `decrypt`: open the body with `mk` and remember the id. */
    method Finish(mk: Key, w: Wire, h: Header) returns (r: Result<string, Error>)
      modifies this`seen
      ensures Follows(R.Finish(old(View()), mk, w, h), r)
    {
      var plain := OpenBody(mk, w.ct, h);
      if plain.None? { return Failure(CannotOpen); }
      RememberSeen(MessageId(h));
      r := Success(plain.value);
    }

    method OpenStored(w: Wire, h: Header) returns (r: Result<string, Error>)
      requires SkipId(h.dh, h.n) in skipped
      modifies this`skipped, this`seen
      ensures Follows(R.OpenStored(old(View()), w, h), r)
    {
      var mk := skipped[SkipId(h.dh, h.n)];
      skipped := skipped - {SkipId(h.dh, h.n)};
      r := Finish(mk, w, h);
    }

    method OpenInChain(w: Wire, h: Header) returns (r: Result<string, Error>)
      modifies this`skipped, this`ckRecv, this`nRecv, this`seen
      ensures Follows(R.OpenInChain(old(View()), w, h), r)
    {
      var fits := SkipUntil(h.n);
      if !fits { return Failure(TooManySkipped); }
      var mk := CkMsg(ckRecv);
      ckRecv := CkNext(ckRecv);
      nRecv := nRecv + 1;
      r := Finish(mk, w, h);
    }

    /** The object is where the specification puts it, up to the trimming of `seen`. */
    ghost predicate Follows(d: Decryption, r: Result<string, Error>)
      reads this
    {
      match d
      case Opened(s, body) => r == Success(body) && View() == s.(seen := seen) && Remembers(s.seen, seen)
      case Refused(s, e) => r == Failure(e) && View() == s
    }

    method Decrypt(w: Wire, own: Pub) returns (r: Result<string, Error>)
      modifies this
      ensures Follows(R.Decrypt(old(View()), w, own), r)
      ensures ctx == old(ctx)
    {
      R.DecryptKeepsContext(View(), w, own);
      var header := ReadHeader(hkRecv, w);
      if header.None? { return Failure(NoHeader); }
      var h := header.value;
      if ctx.sid != "" && h.ctx.sid != ctx.sid { return Failure(SessionMismatch); }
      if ctx.conversation != 0 && h.ctx.conversation != ctx.conversation { return Failure(ConversationMismatch); }
      if ctx.me != 0 && h.ctx.peer != ctx.me { return Failure(RecipientMismatch); }
      if MessageId(h) in seen { return Failure(Replayed); }
      if SkipId(h.dh, h.n) in skipped {
        r := OpenStored(w, h);
        return;
      }
      if remote == "" || h.dh != remote {
        var accepted := DhRatchet(h.dh, own);
        if !accepted { return Failure(BadPublicKey); }
      }
      r := OpenInChain(w, h);
    }
  }
}
