/**
 The Double Ratchet of one DM session (`DoubleRatchet`) as functions on a state
 value. RatchetObject.dfy has the class that updates its fields in place.
 */
module Ratchet {
  import opened Wrappers
  import opened Keys
  import Text

  const MAX_SKIP_KEYS := 1000
  const SEEN_LIMIT := 4096
  const SEEN_KEPT := 2048

  /** The header every wire shows; in canonical form it is the AAD of the body. */
  datatype Header = Header(ctx: Context, dh: Pub, pn: int, n: int)

  /** What `set_context` and the session id bind a state to, from its owner's side. */
  datatype Context = Context(sid: string, conversation: int, me: int, peer: int, identityVersion: int)

  /** Ideal AEAD: a box opens for one key and one AAD. */
  datatype BodyBox = BodyBox(key: Key, aad: Header, body: string) | NotABox

  datatype HeaderBox = HeaderBox(key: Key, header: Header) | NotAHeaderBox

  /** `sid`, `h`, `eh` and `ct` of a wire; either header copy may be missing. */
  datatype Wire = Wire(sid: string, h: Option<Header>, eh: Option<HeaderBox>, ct: BodyBox)

  datatype Error =
    | NoHeader | SessionMismatch | ConversationMismatch | RecipientMismatch
    | Replayed | BadPublicKey | TooManySkipped | CannotOpen

  datatype SkipId = SkipId(dh: Pub, n: int)

  /** Sending half: own ratchet key, `ck_send`, `hk_send`, `n_send`, `pn`, `needs_send_ratchet`. */
  datatype Sending = Sending(dh: Pub, ck: Key, hk: Key, n: nat, pn: nat, needsRatchet: bool)

  /** Receiving half: `remote_dh`, `ck_recv`, `hk_recv`, `n_recv`, `skipped`. */
  datatype Receiving = Receiving(remote: Pub, ck: Key, hk: Key, n: nat, skipped: map<SkipId, Key>)

  datatype State = State(rootKey: Key, send: Sending, recv: Receiving, ctx: Context, seen: set<string>)

  /** `decrypt` either returns a body or raises; either way it leaves a state behind. */
  datatype Decryption = Opened(state: State, body: string) | Refused(state: State, error: Error)

  function MessageId(h: Header): string {
    h.ctx.sid + ":" + h.dh + ":" + Text.Number(h.n)
  }

  /** X25519 accepts every key text of the model but the empty one. */
  predicate IsPublicKey(p: Pub) {
    p != ""
  }

  /** `DoubleRatchet.new`, before any context is set. */
  function New(root: Key, initiator: bool, own: Pub, remote: Pub, sid: string): State {
    State(root,
          Sending(own, if initiator then InitLeft(root) else InitRight(root),
                  if initiator then HeaderLeft(root) else HeaderRight(root), 0, 0, !initiator && remote != ""),
          Receiving(remote, if initiator then InitRight(root) else InitLeft(root),
                    if initiator then HeaderRight(root) else HeaderLeft(root), 0, map[]),
          Context(sid, 0, 0, 0, 0), {})
  }

  // ---- sending ---------------------------------------------------------

  function HeaderAt(s: State, n: nat): Header {
    Header(s.ctx, s.send.dh, s.send.pn, n)
  }

  /** `_maybe_send_ratchet`; `own` is the key pair it would generate. */
  function MaybeSendRatchet(s: State, own: Pub): State {
    if !s.send.needsRatchet || s.recv.remote == "" then s
    else
      var dh := Dh(own, s.recv.remote);
      var root, chain := RkRoot(s.rootKey, dh), RkChain(s.rootKey, dh);
      s.(rootKey := root, send := Sending(own, chain, HeaderChain(root, chain), 0, s.send.n, false))
  }

  /** `encrypt`: the state after and the wire sent. */
  function Encrypt(s: State, body: string, own: Pub): (State, Wire) {
    var s1 := MaybeSendRatchet(s, own);
    var h := HeaderAt(s1, s1.send.n);
    (s1.(send := s1.send.(ck := CkNext(s1.send.ck), n := s1.send.n + 1)),
     Wire(s1.ctx.sid, Some(h), Some(HeaderBox(s1.send.hk, h)), BodyBox(CkMsg(s1.send.ck), h, body)))
  }

  // ---- receiving -------------------------------------------------------

  /** One turn of the loop of `_skip_until`: store the key of the missing index. */
  function StoreOne(r: Receiving): Receiving {
    Receiving(r.remote, CkNext(r.ck), r.hk, r.n + 1, r.skipped[SkipId(r.remote, r.n) := CkMsg(r.ck)])
  }

  /** The whole loop: one key per missing index. */
  function StoreSkipped(r: Receiving, until: nat): (t: Receiving)
    requires r.n <= until
    decreases until - r.n
  {
    if r.n == until then r else StoreOne(StoreSkipped(r, until - 1))
  }

  /** Whether `_skip_until` may advance over `gap` indices. */
  predicate FitsSkip(r: Receiving, gap: int) {
    gap <= MAX_SKIP_KEYS && |r.skipped| + gap <= MAX_SKIP_KEYS
  }

  function SkipUntil(r: Receiving, until: int): Option<Receiving> {
    var gap := until - r.n;
    if gap < 0 then Some(r)
    else if !FitsSkip(r, gap) then None
    else Some(StoreSkipped(r, until))
  }

  /** What `_dh_ratchet` has assigned before its first use of the remote key. */
  function EnterChain(s: State, remote: Pub): State {
    State(s.rootKey,
          Sending(s.send.dh, s.send.ck, s.send.hk, 0, s.send.n, s.send.needsRatchet),
          Receiving(remote, s.recv.ck, s.recv.hk, 0, s.recv.skipped),
          s.ctx, s.seen)
  }

  /** First half of `_dh_ratchet`: the remote key opens a receiving chain. */
  function OpenReceiving(s: State): State {
    var dh := Dh(s.send.dh, s.recv.remote);
    var root, ck := RkRoot(s.rootKey, dh), RkChain(s.rootKey, dh);
    State(root, s.send, Receiving(s.recv.remote, ck, HeaderChain(root, ck), s.recv.n, s.recv.skipped), s.ctx, s.seen)
  }

  /** Second half: an own new key pair opens a sending chain. */
  function OpenSending(s: State, own: Pub): State {
    var dh := Dh(own, s.recv.remote);
    var root, ck := RkRoot(s.rootKey, dh), RkChain(s.rootKey, dh);
    State(root, Sending(own, ck, HeaderChain(root, ck), s.send.n, s.send.pn, s.send.needsRatchet), s.recv, s.ctx, s.seen)
  }

  /** `_dh_ratchet` for a key X25519 accepts. */
  function DhRatchet(s: State, remote: Pub, own: Pub): State {
    OpenSending(OpenReceiving(EnterChain(s, remote)), own)
  }

  /** `_read_header`: a differing encrypted copy does not override the visible one. */
  function ReadHeader(hkRecv: Key, w: Wire): Option<Header> {
    if w.eh.Some? && w.eh.value.HeaderBox? && w.eh.value.key == hkRecv
       && (w.h.None? || w.eh.value.header == w.h.value)
    then Some(w.eh.value.header)
    else w.h
  }

  /** AES-GCM under the body key with the canonical header as AAD. */
  function OpenBody(mk: Key, ct: BodyBox, aad: Header): Option<string> {
    if ct.BodyBox? && ct.key == mk && ct.aad == aad then Some(ct.body) else None
  }

  /** The checks `decrypt` makes before it touches any key. */
  function CheckHeader(ctx: Context, seen: set<string>, h: Header): Option<Error> {
    if ctx.sid != "" && h.ctx.sid != ctx.sid then Some(SessionMismatch)
    else if ctx.conversation != 0 && h.ctx.conversation != ctx.conversation then Some(ConversationMismatch)
    else if ctx.me != 0 && h.ctx.peer != ctx.me then Some(RecipientMismatch)
    else if MessageId(h) in seen then Some(Replayed)
    else None
  }

  /** The last step of `decrypt`: open the body and remember the id. */
  function Finish(s: State, mk: Key, w: Wire, h: Header): Decryption {
    match OpenBody(mk, w.ct, h)
    case None => Refused(s, CannotOpen)
    case Some(body) => Opened(s.(seen := s.seen + {MessageId(h)}), body)
  }

  /** `decrypt` on the chain the state is in. */
  function OpenInChain(s: State, w: Wire, h: Header): Decryption {
    match SkipUntil(s.recv, h.n)
    case None => Refused(s, TooManySkipped)
    case Some(r) => Finish(s.(recv := r.(ck := CkNext(r.ck), n := r.n + 1)), CkMsg(r.ck), w, h)
  }

  /** `decrypt` with a key stored earlier. */
  function OpenStored(s: State, w: Wire, h: Header): Decryption
    requires SkipId(h.dh, h.n) in s.recv.skipped
  {
    var k := SkipId(h.dh, h.n);
    Finish(s.(recv := s.recv.(skipped := s.recv.skipped - {k})), s.recv.skipped[k], w, h)
  }

  /**
   `decrypt`. `own` is the key pair `_dh_ratchet` would generate. `seen` grows
   by the accepted id; the trimming of `_remember_seen` is left to the caller.
   */
  function Decrypt(s: State, w: Wire, own: Pub): Decryption {
    match ReadHeader(s.recv.hk, w)
    case None => Refused(s, NoHeader)
    case Some(h) =>
      match CheckHeader(s.ctx, s.seen, h)
      case Some(e) => Refused(s, e)
      case None =>
        if SkipId(h.dh, h.n) in s.recv.skipped then OpenStored(s, w, h)
        else if s.recv.remote == "" || h.dh != s.recv.remote then
          if !IsPublicKey(h.dh) then Refused(EnterChain(s, h.dh), BadPublicKey)
          else OpenInChain(DhRatchet(s, h.dh, own), w, h)
        else OpenInChain(s, w, h)
  }

  /** `_remember_seen` after the id was added. */
  ghost predicate Remembers(full: set<string>, kept: set<string>) {
    if |full| > SEEN_LIMIT then Text.IsLargest(full, kept, SEEN_KEPT) else kept == full
  }

  /** A state restored from `to_dict`: only the largest ids of `seen` come back. */
  ghost predicate Restores(saved: State, restored: State) {
    restored == saved.(seen := restored.seen) && Text.IsLargest(saved.seen, restored.seen, SEEN_KEPT)
  }

  // ---- facts about the functions ---------------------------------------

  /** `decrypt` never changes what the state is bound to. */
  lemma DecryptKeepsContext(s: State, w: Wire, own: Pub)
    ensures Decrypt(s, w, own).state.ctx == s.ctx
  {
  }

  /** `t` is `r` with a key stored for each index of its chain from `r.n` up to `t.n`. */
  ghost predicate StoredUpTo(r: Receiving, t: Receiving) {
    && r.n <= t.n
    && t == Receiving(r.remote, Advance(r.ck, t.n - r.n), r.hk, t.n, t.skipped)
    && (forall k | k in t.skipped :: StoredKey(r, t.n, k, t.skipped[k]))
    && (forall i | r.n <= i < t.n :: SkipId(r.remote, i) in t.skipped)
    && (forall k | k in r.skipped :: k in t.skipped)
  }

  /** `mk` is the key of index `k.n` when `k` was skipped, and the one stored before otherwise. */
  ghost predicate StoredKey(r: Receiving, until: nat, k: SkipId, mk: Key) {
    if k.dh == r.remote && r.n <= k.n < until then mk == CkMsg(Advance(r.ck, k.n - r.n))
    else k in r.skipped && mk == r.skipped[k]
  }

  lemma {:induction false} StoreSkippedFacts(r: Receiving, until: nat)
    requires r.n <= until
    ensures StoredUpTo(r, StoreSkipped(r, until)) && StoreSkipped(r, until).n == until
    decreases until - r.n
  {
    if r.n < until {
      StoreSkippedFacts(r, until - 1);
      StoreOneFacts(r, StoreSkipped(r, until - 1));
    }
  }

  lemma StoreOneFacts(r: Receiving, p: Receiving)
    requires StoredUpTo(r, p)
    ensures StoredUpTo(r, StoreOne(p))
  {
    var t := StoreOne(p);
    var added := SkipId(r.remote, p.n);
    assert forall k | k in t.skipped :: k == added || k in p.skipped;
    forall k | k in t.skipped ensures StoredKey(r, t.n, k, t.skipped[k]) {
      if k != added {
        assert k in p.skipped && StoredKey(r, p.n, k, p.skipped[k]);
      }
    }
  }

  lemma {:induction false} StoreSkippedSize(r: Receiving, until: nat)
    requires r.n <= until
    ensures |StoreSkipped(r, until).skipped| <= |r.skipped| + (until - r.n)
    ensures StoreSkipped(r, until).n == until
    decreases until - r.n
  {
    if r.n < until { StoreSkippedSize(r, until - 1); }
  }

  /** The visible header, when present, is the one used, whatever the encrypted copy says. */
  lemma VisibleHeaderWins(hkRecv: Key, w: Wire)
    ensures w.h.Some? ==> ReadHeader(hkRecv, w) == w.h
    ensures w.h.None? ==> (ReadHeader(hkRecv, w).Some? <==>
              w.eh.Some? && w.eh.value.HeaderBox? && w.eh.value.key == hkRecv)
  {
  }
}
