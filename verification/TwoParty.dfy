/**
 Two parties in one session over a network that may reorder, lose, repeat and
 alter wires; only body boxes cannot be made without their key. A refused wire
 is rolled back, as the session layer does. The invariant is root lockstep: one
 party is at most one root step ahead of the other.
 */
module TwoParty {
  import opened Wrappers
  import opened Keys
  import opened Ratchet
  import Text

  datatype Party = Initiator | Responder

  /**
   One party. `sent` is every wire it produced; `chains` maps each ratchet key it
   has sent under to the key that chain starts from; `got` holds the indices of
   the peer's chains it has accepted.
   */
  datatype Side = Side(state: State, sent: seq<Wire>, chains: map<Pub, Key>, got: set<SkipId>)

  /** `used` holds every key pair generated so far. */
  datatype System = System(initiator: Side, responder: Side, used: set<Pub>)

  datatype Event =
    | Send(p: Party, body: string, own: Pub)
    | Deliver(p: Party, w: Wire, own: Pub, remembered: set<string>)

  function Of(sys: System, p: Party): Side {
    if p == Initiator then sys.initiator else sys.responder
  }

  function Other(p: Party): Party {
    if p == Initiator then Responder else Initiator
  }

  function With(sys: System, p: Party, side: Side, own: Pub): System {
    if p == Initiator then System(side, sys.responder, sys.used + {own})
    else System(sys.initiator, side, sys.used + {own})
  }

  // ---- steps -----------------------------------------------------------

  function SendBy(x: Side, body: string, own: Pub): Side {
    var (t, w) := Encrypt(x.state, body, own);
    Side(t, x.sent + [w], Opening(x, t), x.got)
  }

  /** Records where the chain of a newly generated ratchet key starts. */
  function Opening(x: Side, t: State): map<Pub, Key> {
    if t.send.dh == x.state.send.dh then x.chains else x.chains[t.send.dh := Base(t.send.ck)]
  }

  function IdOf(h: Header): SkipId {
    SkipId(h.dh, h.n)
  }

  /** `decrypt` behind the session layer's snapshot; `remembered` is what trimming leaves of `seen`. */
  function ReceiveBy(y: Side, w: Wire, own: Pub, remembered: set<string>): Side {
    match Decrypt(y.state, w, own)
    case Refused(_, _) => y.(state := y.state.(seen := remembered))
    case Opened(t, _) =>
      Side(t.(seen := remembered), y.sent, Opening(y, t), if w.ct.BodyBox? then y.got + {IdOf(w.ct.aad)} else y.got)
  }

  function SeenAfter(y: State, w: Wire, own: Pub): set<string> {
    var d := Decrypt(y, w, own);
    if d.Opened? then d.state.seen else y.seen
  }

  /** A key pair nobody has: X25519 keys are random, and base64 has no colon. */
  predicate Fresh(own: Pub, used: set<Pub>) {
    own !in used && own != "" && ':' !in own
  }

  /** A body box the network can put on a wire: one it saw, or bytes that open for no key. */
  ghost predicate Available(sys: System, box: BodyBox) {
    || box == NotABox
    || (exists w :: w in sys.initiator.sent && w.ct == box)
    || (exists w :: w in sys.responder.sent && w.ct == box)
  }

  ghost predicate Enabled(sys: System, e: Event) {
    && Fresh(e.own, sys.used)
    && (e.Deliver? ==> Available(sys, e.w.ct) && e.remembered <= SeenAfter(Of(sys, e.p).state, e.w, e.own))
  }

  function Step(sys: System, e: Event): System {
    match e
    case Send(p, body, own) => With(sys, p, SendBy(Of(sys, p), body, own), own)
    case Deliver(p, w, own, remembered) => With(sys, p, ReceiveBy(Of(sys, p), w, own, remembered), own)
  }

  /** The states both parties are in once the S3PQI message was sent and answered for. */
  function Start(root: Key, i0: Pub, r0: Pub, ctxI: Context, ctxR: Context): System {
    var i := New(root, true, i0, "", ctxI.sid);
    var r := New(root, false, r0, i0, ctxR.sid);
    System(
      Side(i.(send := i.send.(ck := CkNext(i.send.ck), n := 1), ctx := ctxI), [], map[i0 := InitLeft(root)], {}),
      Side(r.(recv := r.recv.(ck := CkNext(r.recv.ck), n := 1), ctx := ctxR), [], map[], {SkipId(i0, 0)}),
      {i0, r0})
  }

  // ---- the invariant ---------------------------------------------------

  /** Headers of one side pass the checks of the other, and of no side its own. */
  predicate Paired(x: Context, y: Context) {
    && x.sid == y.sid && x.conversation == y.conversation && x.peer == y.me && y.peer == x.me
    && x.me != y.me && x.me != 0 && y.me != 0
  }

  /** A wire carries its header as AAD and the message key its chain and index say. */
  predicate Honest(x: Side, w: Wire) {
    && w.h.Some? && w.ct.BodyBox? && w.ct.aad == w.h.value && w.ct.aad.ctx == x.state.ctx
    && StoredRight(x.chains, IdOf(w.ct.aad), w.ct.key)
  }

  ghost predicate Sends(x: Side, used: set<Pub>) {
    && x.state.send.dh in used
    && (forall p | p in x.chains :: p in used && !x.chains[p].CkNext? && !x.chains[p].InitRight?)
    && (forall w | w in x.sent :: Honest(x, w))
    && (!x.state.send.needsRatchet ==>
          x.state.send.dh in x.chains && x.state.send.ck == Advance(x.chains[x.state.send.dh], x.state.send.n))
  }

  /** No index at or past `r.n` of the current chain, and none of a newest chain not yet entered. */
  predicate Reached(newest: Pub, r: Receiving, k: SkipId) {
    0 <= k.n && (k.dh == r.remote ==> k.n < r.n) && (k.dh == newest ==> r.remote == newest)
  }

  /** The message key of index `k`. */
  predicate StoredRight(chains: map<Pub, Key>, k: SkipId, mk: Key) {
    k.dh in chains && 0 <= k.n && mk == CkMsg(Advance(chains[k.dh], k.n))
  }

  /** The receiving half against the chains of the sender: keys match, indices are accounted for. */
  ghost predicate Receives(chains: map<Pub, Key>, newest: Pub, r: Receiving, got: set<SkipId>) {
    && (r.remote != "" ==> r.remote in chains && r.ck == Advance(chains[r.remote], r.n))
    && (r.remote == "" ==> r.skipped == map[] && got == {})
    && (forall k | k in r.skipped :: StoredRight(chains, k, r.skipped[k]) && k !in got && Reached(newest, r, k))
    && (forall k | k in got :: k.dh in chains && Reached(newest, r, k))
    && (r.remote != "" ==> forall i | 0 <= i < r.n :: SkipId(r.remote, i) in got || SkipId(r.remote, i) in r.skipped)
  }

  function IdText(sid: string, k: SkipId): string {
    sid + ":" + k.dh + ":" + Text.Number(k.n)
  }

  /** `seen` holds nothing but ids of accepted wires. */
  ghost predicate SeenFrom(sid: string, seen: set<string>, got: set<SkipId>) {
    forall id | id in seen :: exists k :: k in got && id == IdText(sid, k)
  }

  /** Chains other than an unread newest one are not deeper than the receiver's root. */
  ghost predicate Outranked(x: Side, y: State) {
    forall p | p in x.chains && (p != x.state.send.dh || p == y.recv.remote) ::
      ChainRank(x.chains[p]) <= Rank(y.rootKey)
  }

  ghost predicate Direction(x: Side, y: Side, used: set<Pub>) {
    && Sends(x, used)
    && Receives(x.chains, x.state.send.dh, y.state.recv, y.got)
    && |y.state.recv.skipped| <= MAX_SKIP_KEYS
    && SeenFrom(y.state.ctx.sid, y.state.seen, y.got)
    && Outranked(x, y.state)
  }

  /** Before the responder's first wire: equal roots, and only the initial left chain is in use. */
  ghost predicate Even(i: Side, r: Side) {
    && i.state.rootKey == r.state.rootKey
    && !i.state.send.needsRatchet && r.state.send.needsRatchet
    && i.state.recv.remote == ""
    && r.state.recv.remote == i.state.send.dh
    && r.chains == map[] && r.sent == []
  }

  /** `x` has taken the root step that `y` takes on reading `x`'s newest chain. */
  ghost predicate Ahead(x: Side, y: Side) {
    && !x.state.send.needsRatchet && !y.state.send.needsRatchet
    && x.state.rootKey == RkRoot(y.state.rootKey, Dh(x.state.send.dh, y.state.send.dh))
    && x.state.send.dh in x.chains
    && x.chains[x.state.send.dh] == RkChain(y.state.rootKey, Dh(x.state.send.dh, y.state.send.dh))
    && x.state.recv.remote == y.state.send.dh
    && y.state.recv.remote != x.state.send.dh
  }

  ghost predicate Inv(sys: System) {
    Ready(sys.initiator, sys.responder, sys.used)
  }

  /** What the receiver can open: a stored key, or its current or next chain within the skip limit. */
  predicate Deliverable(newest: Pub, r: Receiving, k: SkipId) {
    || k in r.skipped
    || (k.dh == r.remote && r.n <= k.n && |r.skipped| + (k.n - r.n) <= 1000)
    || (k.dh != r.remote && k.dh == newest && |r.skipped| + k.n <= 1000)
  }

  // ---- one delivery ----------------------------------------------------

  lemma SameTail(p: string, s: string, t: string)
    requires p + s == p + t
    ensures s == t
  {
    assert s == (p + s)[|p|..] && t == (p + t)[|p|..];
  }

  lemma IdTextInjective(sid: string, k: SkipId, l: SkipId)
    requires ':' !in k.dh && ':' !in l.dh && 0 <= k.n && 0 <= l.n
    requires IdText(sid, k) == IdText(sid, l)
    ensures k == l
  {
    var s, t := k.dh + ":" + Text.Number(k.n), l.dh + ":" + Text.Number(l.n);
    assert IdText(sid, k) == (sid + ":") + s && IdText(sid, l) == (sid + ":") + t;
    SameTail(sid + ":", s, t);
    Text.ColonSplits(k.dh, Text.Number(k.n), l.dh, Text.Number(l.n));
    Text.DecimalInjective(k.n, l.n);
  }

  /** A header of the peer passes every check, except that it may be known as a replay. */
  lemma HeaderChecks(x: Side, y: Side, used: set<Pub>, h: Header)
    requires Paired(x.state.ctx, y.state.ctx) && Direction(x, y, used) && (forall p | p in used :: ':' !in p)
    requires h.ctx == x.state.ctx && h.dh in x.chains && 0 <= h.n
    ensures var e := CheckHeader(y.state.ctx, y.state.seen, h); e.None? || (e == Some(Replayed) && IdOf(h) in y.got)
  {
    assert MessageId(h) == IdText(y.state.ctx.sid, IdOf(h));
    if MessageId(h) in y.state.seen {
      var k :| k in y.got && MessageId(h) == IdText(y.state.ctx.sid, k);
      IdTextInjective(y.state.ctx.sid, k, IdOf(h));
    }
  }

  lemma SkippedOnChain(r: Receiving, base: Key, until: nat)
    requires r.ck == Advance(base, r.n) && r.n <= until
    ensures var t := StoreSkipped(r, until); StoredUpTo(r, t) && t.n == until && t.ck == Advance(base, until)
  {
    StoreSkippedFacts(r, until);
    AdvanceAdd(base, r.n, until - r.n);
  }

  /** Where `_skip_until` leaves a chain that starts from `base`. */
  lemma SkipOnChain(r: Receiving, base: Key, until: int)
    requires r.ck == Advance(base, r.n)
    ensures SkipUntil(r, until).None? <==> r.n <= until && !FitsSkip(r, until - r.n)
    ensures SkipUntil(r, until).Some? ==> var t := SkipUntil(r, until).value;
      if r.n <= until then StoredUpTo(r, t) && t.n == until && t.ck == Advance(base, until) else t == r
  {
    if r.n <= until { SkippedOnChain(r, base, until); }
  }

  /** Two message keys are equal only at the same index of the same chain. */
  lemma SameMessageKey(a: Key, m: nat, b: Key, n: nat)
    requires !a.CkNext? && !b.CkNext?
    ensures CkMsg(Advance(a, m)) == CkMsg(Advance(b, n)) <==> a == b && m == n
  {
    if Advance(a, m) == Advance(b, n) { AdvanceInjective(a, m, b, n); }
  }

  /** The state after `decrypt` took the key where the skipping of its chain ended. */
  function TakeAt(s: State, t: Receiving, h: Header): State {
    s.(recv := t.(ck := CkNext(t.ck), n := t.n + 1), seen := s.seen + {MessageId(h)})
  }

  /** Opening with the key where the skipping ended at `t`. */
  lemma OpenAt(s: State, t: Receiving, w: Wire)
    requires w.ct.BodyBox? && SkipUntil(s.recv, w.ct.aad.n) == Some(t)
    ensures OpenInChain(s, w, w.ct.aad).Opened? <==> w.ct.key == CkMsg(t.ck)
    ensures w.ct.key == CkMsg(t.ck) ==> OpenInChain(s, w, w.ct.aad) == Opened(TakeAt(s, t, w.ct.aad), w.ct.body)
  {
  }

  /** Reading a wire on a chain that starts from `base`: it must be the wire's own chain. */
  lemma OpenOnChain(s: State, base: Key, w: Wire, chainOfWire: Key)
    requires !base.CkNext? && !chainOfWire.CkNext? && s.recv.ck == Advance(base, s.recv.n)
    requires w.ct.BodyBox? && 0 <= w.ct.aad.n && w.ct.key == CkMsg(Advance(chainOfWire, w.ct.aad.n))
    ensures var d := OpenInChain(s, w, w.ct.aad); var n := w.ct.aad.n;
      && (d.Opened? <==> chainOfWire == base && s.recv.n <= n && FitsSkip(s.recv, n - s.recv.n))
      && (d.Opened? ==> SkipUntil(s.recv, n).Some? && StoredUpTo(s.recv, SkipUntil(s.recv, n).value)
                        && SkipUntil(s.recv, n).value.n == n
                        && d == Opened(TakeAt(s, SkipUntil(s.recv, n).value, w.ct.aad), w.ct.body))
  {
    var n, r := w.ct.aad.n, s.recv;
    SkipOnChain(r, base, n);
    if SkipUntil(r, n).Some? {
      var t := SkipUntil(r, n).value;
      var at := if r.n <= n then n else r.n;
      assert t.ck == Advance(base, at);
      SameMessageKey(base, at, chainOfWire, n);
      OpenAt(s, t, w);
    }
  }

  /** The phase a pair of sides is in, seen from either side. */
  ghost predicate Phase(x: Side, y: Side) {
    Even(x, y) || Even(y, x) || Ahead(x, y) || Ahead(y, x)
  }

  /** Key texts are not empty and have no colon. */
  ghost predicate Names(used: set<Pub>) {
    forall p | p in used :: p != "" && ':' !in p
  }

  lemma NamesGrow(used: set<Pub>, own: Pub)
    requires Names(used) && Fresh(own, used)
    ensures Names(used + {own})
  {
  }

  /** Everything `x` and `y` need when `y` reads a wire of `x`. */
  ghost predicate Ready(x: Side, y: Side, used: set<Pub>) {
    && Paired(x.state.ctx, y.state.ctx) && Paired(y.state.ctx, x.state.ctx)
    && Names(used)
    && Direction(x, y, used) && Direction(y, x, used)
    && Phase(x, y)
  }

  /** The chain `decrypt` reads from after its key checks: the current one, or the one it ratchets to. */
  function Entered(s: State, h: Header, own: Pub): State {
    if s.recv.remote == "" || h.dh != s.recv.remote then DhRatchet(s, h.dh, own) else s
  }

  /** An unread newest chain starts where the receiver's next root step leads; no other one does. */
  lemma NextChain(x: Side, y: Side, dh: Pub)
    requires Phase(x, y) && Outranked(x, y.state) && dh in x.chains && dh != y.state.recv.remote
    ensures var base := RkChain(y.state.rootKey, Dh(y.state.send.dh, dh));
      if dh == x.state.send.dh then Ahead(x, y) && x.chains[dh] == base else x.chains[dh] != base
  {
    if dh != x.state.send.dh {
      assert ChainRank(x.chains[dh]) <= Rank(y.state.rootKey);
    }
  }

  /** `decrypt` on a wire with a visible header whose key is a key, check by check. */
  lemma DecryptUnfolds(s: State, w: Wire, own: Pub)
    requires w.h.Some? && IsPublicKey(w.h.value.dh)
    ensures var h := w.h.value;
      Decrypt(s, w, own) ==
        match CheckHeader(s.ctx, s.seen, h)
        case Some(e) => Refused(s, e)
        case None => if IdOf(h) in s.recv.skipped then OpenStored(s, w, h) else OpenInChain(Entered(s, h, own), w, h)
  {
    VisibleHeaderWins(s.recv.hk, w);
  }

  /** The chain `y` reads a wire of `x` from, and whether it is the wire's own. */
  lemma EnteredChain(x: Side, y: Side, h: Header, own: Pub)
    requires Phase(x, y) && Outranked(x, y.state) && h.dh in x.chains && h.dh != ""
    requires Receives(x.chains, x.state.send.dh, y.state.recv, y.got)
    requires forall p | p in x.chains :: !x.chains[p].CkNext?
    ensures var s, t := y.state, Entered(y.state, h, own);
      exists base: Key :: !base.CkNext? && t.recv.ck == Advance(base, t.recv.n)
        && (base == x.chains[h.dh] <==> h.dh == s.recv.remote || h.dh == x.state.send.dh)
    ensures var s, t := y.state, Entered(y.state, h, own);
      t.recv.skipped == s.recv.skipped && t.recv.n == if h.dh == s.recv.remote then s.recv.n else 0
  {
    var s, t := y.state, Entered(y.state, h, own);
    if h.dh == s.recv.remote {
      assert t.recv.ck == Advance(x.chains[h.dh], t.recv.n);
    } else {
      NextChain(x, y, h.dh);
      var base := RkChain(s.rootKey, Dh(s.send.dh, h.dh));
      assert t.recv.ck == Advance(base, t.recv.n);
    }
  }

  /** A wire of the peer opens exactly when it is deliverable, and then gives its own body. */
  lemma GenuineWire(x: Side, y: Side, used: set<Pub>, w: Wire, own: Pub)
    requires Ready(x, y, used) && Honest(x, w)
    ensures var h, s, d := w.ct.aad, y.state, Decrypt(y.state, w, own);
      && (d.Opened? <==> Deliverable(x.state.send.dh, s.recv, IdOf(h)))
      && (d.Opened? && IdOf(h) in s.recv.skipped ==> d == OpenStored(s, w, h))
      && (d.Opened? && IdOf(h) !in s.recv.skipped ==>
            var r := Entered(s, h, own).recv;
            && SkipUntil(r, h.n).Some? && StoredUpTo(r, SkipUntil(r, h.n).value) && SkipUntil(r, h.n).value.n == h.n
            && FitsSkip(r, h.n - r.n) && r.n <= h.n
            && d.state == TakeAt(Entered(s, h, own), SkipUntil(r, h.n).value, h))
      && (d.Opened? ==> d.body == w.ct.body)
  {
    var h, s := w.ct.aad, y.state;
    var k := IdOf(h);
    assert h.dh in used;
    DecryptUnfolds(s, w, own);
    HeaderChecks(x, y, used, h);
    if k in s.recv.skipped {
      assert StoredRight(x.chains, k, s.recv.skipped[k]) && k !in y.got;
    } else {
      assert k in y.got ==> Reached(x.state.send.dh, s.recv, k);
      EnteredChain(x, y, h, own);
      var t := Entered(s, h, own);
      var base: Key :| !base.CkNext? && t.recv.ck == Advance(base, t.recv.n)
        && (base == x.chains[h.dh] <==> h.dh == s.recv.remote || h.dh == x.state.send.dh);
      OpenOnChain(t, base, w, x.chains[h.dh]);
    }
  }

  // ---- the receiving half keeps its account ----------------------------

  lemma TakingStoredKeeps(chains: map<Pub, Key>, newest: Pub, r: Receiving, got: set<SkipId>, k: SkipId)
    requires Receives(chains, newest, r, got) && k in r.skipped
    ensures Receives(chains, newest, r.(skipped := r.skipped - {k}), got + {k})
  {
    var t := r.(skipped := r.skipped - {k});
    assert t.skipped.Keys == r.skipped.Keys - {k};
    assert StoredRight(chains, k, r.skipped[k]) && Reached(newest, r, k);
    forall l | l in t.skipped ensures StoredRight(chains, l, t.skipped[l]) && l !in got + {k} && Reached(newest, t, l) {
      assert l in r.skipped && StoredRight(chains, l, r.skipped[l]) && Reached(newest, r, l);
    }
    forall l | l in got + {k} ensures l.dh in chains && Reached(newest, t, l) {
      assert Reached(newest, r, l);
    }
  }

  lemma SkippingStoresRight(chains: map<Pub, Key>, newest: Pub, r: Receiving, p: Receiving, got: set<SkipId>, l: SkipId)
    requires Receives(chains, newest, r, got) && r.remote != "" && StoredUpTo(r, p)
    requires l in p.skipped
    ensures StoredRight(chains, l, p.skipped[l]) && l !in got && l != SkipId(r.remote, p.n)
    ensures Reached(newest, p.(n := p.n + 1), l)
  {
    assert StoredKey(r, p.n, l, p.skipped[l]);
    if l.dh == r.remote && r.n <= l.n < p.n {
      AdvanceAdd(chains[r.remote], r.n, l.n - r.n);
      assert l in got ==> Reached(newest, r, l);
    } else {
      assert StoredRight(chains, l, r.skipped[l]) && Reached(newest, r, l);
    }
  }

  /** `p` is where the skipping of `r` ended; the key at `p.n` is taken next. */
  lemma AdvancingKeeps(chains: map<Pub, Key>, newest: Pub, r: Receiving, p: Receiving, got: set<SkipId>)
    requires Receives(chains, newest, r, got) && r.remote != "" && StoredUpTo(r, p)
    ensures Receives(chains, newest, p.(ck := CkNext(p.ck), n := p.n + 1), got + {SkipId(r.remote, p.n)})
  {
    var t, k := p.(ck := CkNext(p.ck), n := p.n + 1), SkipId(r.remote, p.n);
    AdvanceAdd(chains[r.remote], r.n, p.n - r.n);
    assert t.ck == Advance(chains[r.remote], t.n);
    forall l | l in t.skipped ensures StoredRight(chains, l, t.skipped[l]) && l !in got + {k} && Reached(newest, t, l) {
      SkippingStoresRight(chains, newest, r, p, got, l);
    }
    forall l | l in got + {k} ensures l.dh in chains && Reached(newest, t, l) {
      assert l != k ==> Reached(newest, r, l);
    }
    forall i | 0 <= i < t.n ensures SkipId(t.remote, i) in got + {k} || SkipId(t.remote, i) in t.skipped {
      assert i < r.n ==> SkipId(r.remote, i) in got || SkipId(r.remote, i) in r.skipped;
    }
  }

  lemma EnteringKeeps(chains: map<Pub, Key>, newest: Pub, r: Receiving, got: set<SkipId>, hk: Key)
    requires Receives(chains, newest, r, got) && newest in chains && r.remote != newest && newest != ""
    ensures Receives(chains, newest, Receiving(newest, chains[newest], hk, 0, r.skipped), got)
  {
    var t := Receiving(newest, chains[newest], hk, 0, r.skipped);
    forall l | l in t.skipped ensures StoredRight(chains, l, t.skipped[l]) && l !in got && Reached(newest, t, l) {
      assert StoredRight(chains, l, r.skipped[l]) && Reached(newest, r, l);
    }
    forall l | l in got ensures l.dh in chains && Reached(newest, t, l) {
      assert Reached(newest, r, l);
    }
  }

  /** A new chain of the sender that the receiver has not entered. */
  lemma GrowingKeeps(chains: map<Pub, Key>, newest: Pub, r: Receiving, got: set<SkipId>, own: Pub, base: Key)
    requires Receives(chains, newest, r, got) && own !in chains && own != r.remote
    ensures Receives(chains[own := base], own, r, got)
  {
    forall l | l in r.skipped ensures StoredRight(chains[own := base], l, r.skipped[l]) && l !in got && Reached(own, r, l) {
      assert StoredRight(chains, l, r.skipped[l]) && Reached(newest, r, l);
    }
    forall l | l in got ensures l.dh in chains[own := base] && Reached(own, r, l) {
      assert l.dh in chains && Reached(newest, r, l);
    }
  }

  // ---- an accepted wire keeps the invariant ----------------------------

  lemma RememberingKeeps(sid: string, seen: set<string>, got: set<SkipId>, h: Header, remembered: set<string>)
    requires SeenFrom(sid, seen, got) && h.ctx.sid == sid && remembered <= seen + {MessageId(h)}
    ensures SeenFrom(sid, remembered, got + {IdOf(h)})
  {
    forall id | id in remembered ensures exists k :: k in got + {IdOf(h)} && id == IdText(sid, k) {
      if id in seen {
        var k :| k in got && id == IdText(sid, k);
        assert k in got + {IdOf(h)};
      } else {
        assert id == IdText(sid, IdOf(h)) && IdOf(h) in got + {IdOf(h)};
      }
    }
  }

  lemma RemovingShrinks(m: map<SkipId, Key>, k: SkipId)
    ensures |m - {k}| <= |m|
  {
    assert (m - {k}).Keys == m.Keys - {k};
  }

  lemma MoreKeysUsed(x: Side, used: set<Pub>, own: Pub)
    requires Sends(x, used)
    ensures Sends(x, used + {own})
  {
  }

  /** Only the receiving half of `y` and its memory differ in `y'`. */
  ghost predicate OnlyReceived(y: Side, y': Side) {
    && y'.state == State(y.state.rootKey, y.state.send, y'.state.recv, y.state.ctx, y'.state.seen)
    && y'.state.recv.remote == y.state.recv.remote && y'.sent == y.sent && y'.chains == y.chains
  }

  lemma QuietSends(y: Side, y': Side, used: set<Pub>, own: Pub)
    requires Sends(y, used) && OnlyReceived(y, y')
    ensures Sends(y', used + {own})
  {
    forall w | w in y'.sent ensures Honest(y', w) { assert Honest(y, w); }
  }

  lemma QuietPhase(x: Side, y: Side, y': Side)
    requires OnlyReceived(y, y')
    ensures Phase(x, y) ==> Phase(x, y')
    ensures Outranked(x, y.state) ==> Outranked(x, y'.state)
    ensures Outranked(y, x.state) ==> Outranked(y', x.state)
  {
  }

  /** `y` has only moved within its receiving half; a key pair may have been generated. */
  lemma QuietKeeps(x: Side, y: Side, y': Side, used: set<Pub>, own: Pub)
    requires Ready(x, y, used) && Fresh(own, used) && OnlyReceived(y, y')
    requires Receives(x.chains, x.state.send.dh, y'.state.recv, y'.got) && |y'.state.recv.skipped| <= MAX_SKIP_KEYS
    requires SeenFrom(y.state.ctx.sid, y'.state.seen, y'.got)
    ensures Ready(x, y', used + {own})
  {
    MoreKeysUsed(x, used, own);
    QuietSends(y, y', used, own);
    QuietPhase(x, y, y');
    NamesGrow(used, own);
    assert Direction(x, y', used + {own}) && Direction(y', x, used + {own});
  }

  lemma StoredKeepsReady(x: Side, y: Side, used: set<Pub>, w: Wire, own: Pub, remembered: set<string>)
    requires Ready(x, y, used) && Honest(x, w) && Fresh(own, used)
    requires IdOf(w.ct.aad) in y.state.recv.skipped && Decrypt(y.state, w, own).Opened?
    requires remembered <= SeenAfter(y.state, w, own)
    ensures Ready(x, ReceiveBy(y, w, own, remembered), used + {own})
  {
    var h, s := w.ct.aad, y.state;
    var k := IdOf(h);
    GenuineWire(x, y, used, w, own);
    TakingStoredKeeps(x.chains, x.state.send.dh, s.recv, y.got, k);
    RemovingShrinks(s.recv.skipped, k);
    RememberingKeeps(s.ctx.sid, s.seen, y.got, h, remembered);
    QuietKeeps(x, y, ReceiveBy(y, w, own, remembered), used, own);
  }

  /** The side that has taken the key where the skipping of its current chain ended. */
  lemma TakenSide(y: Side, w: Wire, own: Pub, remembered: set<string>, p: Receiving)
    requires Decrypt(y.state, w, own).Opened? && w.ct.BodyBox? && Decrypt(y.state, w, own).state == TakeAt(y.state, p, w.ct.aad)
    requires p.remote == y.state.recv.remote
    ensures var y' := ReceiveBy(y, w, own, remembered);
      && OnlyReceived(y, y') && y'.state.recv == p.(ck := CkNext(p.ck), n := p.n + 1)
      && y'.state.seen == remembered && y'.got == y.got + {IdOf(w.ct.aad)}
  {
  }

  lemma SkipFits(r: Receiving, until: int, p: Receiving)
    requires SkipUntil(r, until) == Some(p) && r.n <= until
    ensures |p.skipped| <= MAX_SKIP_KEYS
  {
    StoreSkippedSize(r, until);
  }

  /** Where the skipping ends for a wire of the current chain. */
  lemma CurrentTaken(x: Side, y: Side, used: set<Pub>, w: Wire, own: Pub) returns (p: Receiving)
    requires Ready(x, y, used) && Honest(x, w)
    requires IdOf(w.ct.aad) !in y.state.recv.skipped && Decrypt(y.state, w, own).Opened? && w.ct.aad.dh == y.state.recv.remote
    ensures Decrypt(y.state, w, own).state == TakeAt(y.state, p, w.ct.aad) && StoredUpTo(y.state.recv, p)
    ensures p.n == w.ct.aad.n && |p.skipped| <= MAX_SKIP_KEYS && y.state.recv.remote != ""
  {
    GenuineWire(x, y, used, w, own);
    assert w.ct.aad.dh in used;
    p := SkipUntil(y.state.recv, w.ct.aad.n).value;
    SkipFits(y.state.recv, w.ct.aad.n, p);
  }

  lemma CurrentKeepsReady(x: Side, y: Side, used: set<Pub>, w: Wire, own: Pub, remembered: set<string>)
    requires Ready(x, y, used) && Honest(x, w) && Fresh(own, used)
    requires IdOf(w.ct.aad) !in y.state.recv.skipped && Decrypt(y.state, w, own).Opened?
    requires w.ct.aad.dh == y.state.recv.remote
    requires remembered <= SeenAfter(y.state, w, own)
    ensures Ready(x, ReceiveBy(y, w, own, remembered), used + {own})
  {
    var p := CurrentTaken(x, y, used, w, own);
    TakenSide(y, w, own, remembered, p);
    AdvancingKeeps(x.chains, x.state.send.dh, y.state.recv, p, y.got);
    RememberingKeeps(y.state.ctx.sid, y.state.seen, y.got, w.ct.aad, remembered);
    QuietKeeps(x, y, ReceiveBy(y, w, own, remembered), used, own);
  }

  /** A side that has just generated `own` and opened a chain with it. */
  lemma OpeningKeeps(y: Side, y': Side, x: Side, used: set<Pub>)
    requires Sends(y, used) && Sends(x, used) && Receives(y.chains, y.state.send.dh, x.state.recv, x.got)
    requires Fresh(y'.state.send.dh, used) && y'.state.send.ck.RkChain? && y'.state.send.n == 0
    requires y'.state.ctx == y.state.ctx && y'.sent == y.sent
    requires y'.chains == y.chains[y'.state.send.dh := y'.state.send.ck]
    ensures Sends(y', used + {y'.state.send.dh}) && Sends(x, used + {y'.state.send.dh})
    ensures Receives(y'.chains, y'.state.send.dh, x.state.recv, x.got)
  {
    forall w | w in y'.sent ensures Honest(y', w) {
      assert Honest(y, w) && w.ct.aad.dh in y.chains;
    }
    assert Advance(y'.state.send.ck, 0) == y'.state.send.ck;
    GrowingKeeps(y.chains, y.state.send.dh, x.state.recv, x.got, y'.state.send.dh, y'.state.send.ck);
  }

  /** `y` was behind, has read `x`'s newest chain and opened one of its own. */
  ghost predicate Overtakes(x: Side, y: Side, y': Side, hk: Key) {
    var own := y'.state.send.dh;
    var root := RkRoot(y.state.rootKey, Dh(y.state.send.dh, x.state.send.dh));
    var ck := RkChain(root, Dh(own, x.state.send.dh));
    && y'.state == State(RkRoot(root, Dh(own, x.state.send.dh)), Sending(own, ck, hk, 0, y.state.send.n, false),
                         y'.state.recv, y.state.ctx, y'.state.seen)
    && y'.chains == y.chains[own := ck] && y'.sent == y.sent && y'.state.recv.remote == x.state.send.dh
  }

  lemma OvertakingIsAhead(x: Side, y: Side, y': Side, used: set<Pub>, hk: Key)
    requires Ahead(x, y) && Outranked(x, y.state) && Outranked(y, x.state) && Overtakes(x, y, y', hk)
    requires Sends(x, used) && Sends(y, used) && y'.state.send.dh !in used
    ensures Ahead(y', x) && Outranked(x, y'.state) && Outranked(y', x.state)
  {
    assert x.state.rootKey == RkRoot(y.state.rootKey, Dh(y.state.send.dh, x.state.send.dh));
    forall p | p in x.chains ensures ChainRank(x.chains[p]) <= Rank(y'.state.rootKey) {
      assert p != x.state.send.dh ==> ChainRank(x.chains[p]) <= Rank(y.state.rootKey);
    }
    forall p | p in y'.chains && p != y'.state.send.dh ensures ChainRank(y'.chains[p]) <= Rank(x.state.rootKey) {
      assert p in y.chains && ChainRank(y.chains[p]) <= Rank(x.state.rootKey);
    }
  }

  lemma OvertakingKeeps(x: Side, y: Side, y': Side, used: set<Pub>, hk: Key)
    requires Ready(x, y, used) && Ahead(x, y) && Overtakes(x, y, y', hk) && Fresh(y'.state.send.dh, used)
    requires Receives(x.chains, x.state.send.dh, y'.state.recv, y'.got) && |y'.state.recv.skipped| <= MAX_SKIP_KEYS
    requires SeenFrom(y.state.ctx.sid, y'.state.seen, y'.got)
    ensures Ready(x, y', used + {y'.state.send.dh}) && Ahead(y', x)
  {
    OpeningKeeps(y, y', x, used);
    OvertakingIsAhead(x, y, y', used, hk);
  }

  lemma NextKeepsReady(x: Side, y: Side, used: set<Pub>, w: Wire, own: Pub, remembered: set<string>)
    requires Ready(x, y, used) && Honest(x, w) && Fresh(own, used)
    requires IdOf(w.ct.aad) !in y.state.recv.skipped && Decrypt(y.state, w, own).Opened?
    requires w.ct.aad.dh != y.state.recv.remote
    requires remembered <= SeenAfter(y.state, w, own)
    ensures Ready(x, ReceiveBy(y, w, own, remembered), used + {own})
    ensures Ahead(x, y) && Ahead(ReceiveBy(y, w, own, remembered), x)
  {
    var h, s := w.ct.aad, y.state;
    GenuineWire(x, y, used, w, own);
    assert h.dh in used && s.send.dh in used;
    NextChain(x, y, h.dh);
    var t := DhRatchet(s, h.dh, own);
    EnteringKeeps(x.chains, h.dh, s.recv, y.got, t.recv.hk);
    AdvancingKeeps(x.chains, h.dh, t.recv, SkipUntil(t.recv, h.n).value, y.got);
    RememberingKeeps(s.ctx.sid, s.seen, y.got, h, remembered);
    StoreSkippedSize(t.recv, h.n);
    OvertakingKeeps(x, y, ReceiveBy(y, w, own, remembered), used, t.send.hk);
  }

  // ---- altered wires ---------------------------------------------------

  /** `decrypt` opens a box only under the header it was sealed with. */
  lemma OpenedHeader(s: State, w: Wire, own: Pub)
    requires Decrypt(s, w, own).Opened?
    ensures w.ct.BodyBox? && ReadHeader(s.recv.hk, w) == Some(w.ct.aad)
    ensures CheckHeader(s.ctx, s.seen, w.ct.aad).None?
  {
  }

  /** `decrypt` sees no more of a wire than the header it reads and the box. */
  lemma SameHeaderSameOutcome(s: State, w: Wire, g: Wire, own: Pub)
    requires w.ct == g.ct && ReadHeader(s.recv.hk, w) == ReadHeader(s.recv.hk, g)
    ensures Decrypt(s, w, own) == Decrypt(s, g, own)
  {
  }

  /** A party's own wires are for the other's id. */
  lemma OwnHeaderFails(x: Side, y: Side, g: Wire)
    requires Paired(x.state.ctx, y.state.ctx) && Honest(y, g)
    ensures CheckHeader(y.state.ctx, y.state.seen, g.ct.aad).Some?
  {
  }

  /** Whatever the network did to the headers, an accepted wire acts as one the peer sent. */
  lemma OpenedIsGenuine(x: Side, y: Side, used: set<Pub>, w: Wire, own: Pub)
    requires Ready(x, y, used) && Decrypt(y.state, w, own).Opened?
    requires exists g :: (g in x.sent || g in y.sent) && g.ct == w.ct
    ensures exists g :: g in x.sent && g.ct == w.ct && Decrypt(y.state, g, own) == Decrypt(y.state, w, own)
  {
    OpenedHeader(y.state, w, own);
    var g :| (g in x.sent || g in y.sent) && g.ct == w.ct;
    if g in y.sent {
      assert Honest(y, g);
      OwnHeaderFails(x, y, g);
    }
    assert g in x.sent && Honest(x, g);
    VisibleHeaderWins(y.state.recv.hk, g);
    SameHeaderSameOutcome(y.state, g, w, own);
  }

  lemma AcceptedKeepsReady(x: Side, y: Side, used: set<Pub>, w: Wire, own: Pub, remembered: set<string>)
    requires Ready(x, y, used) && Honest(x, w) && Fresh(own, used) && Decrypt(y.state, w, own).Opened?
    requires remembered <= SeenAfter(y.state, w, own)
    ensures Ready(x, ReceiveBy(y, w, own, remembered), used + {own})
  {
    if IdOf(w.ct.aad) in y.state.recv.skipped {
      StoredKeepsReady(x, y, used, w, own, remembered);
    } else if w.ct.aad.dh == y.state.recv.remote {
      CurrentKeepsReady(x, y, used, w, own, remembered);
    } else {
      NextKeepsReady(x, y, used, w, own, remembered);
    }
  }

  lemma RefusedKeepsReady(x: Side, y: Side, used: set<Pub>, own: Pub, remembered: set<string>)
    requires Ready(x, y, used) && Fresh(own, used) && remembered <= y.state.seen
    ensures Ready(x, y.(state := y.state.(seen := remembered)), used + {own})
  {
    QuietKeeps(x, y, y.(state := y.state.(seen := remembered)), used, own);
  }

  lemma DeliveryKeeps(x: Side, y: Side, used: set<Pub>, w: Wire, own: Pub, remembered: set<string>)
    requires Ready(x, y, used) && Fresh(own, used) && remembered <= SeenAfter(y.state, w, own)
    requires w.ct == NotABox || exists g :: (g in x.sent || g in y.sent) && g.ct == w.ct
    ensures Ready(x, ReceiveBy(y, w, own, remembered), used + {own})
  {
    if Decrypt(y.state, w, own).Opened? {
      OpenedHeader(y.state, w, own);
      OpenedIsGenuine(x, y, used, w, own);
      var g :| g in x.sent && g.ct == w.ct && Decrypt(y.state, g, own) == Decrypt(y.state, w, own);
      AcceptedKeepsReady(x, y, used, g, own, remembered);
    } else {
      RefusedKeepsReady(x, y, used, own, remembered);
    }
  }

  // ---- sending ---------------------------------------------------------

  lemma PlainSends(x: Side, x': Side, used: set<Pub>, body: string, own: Pub)
    requires Sends(x, used) && !x.state.send.needsRatchet && x' == SendBy(x, body, own)
    ensures x'.state == x.state.(send := x.state.send.(ck := CkNext(x.state.send.ck), n := x.state.send.n + 1))
    ensures x'.chains == x.chains && x'.got == x.got
    ensures Sends(x', used)
  {
    var n := x.state.send.n;
    assert Advance(x.chains[x.state.send.dh], n + 1) == CkNext(x.state.send.ck);
    forall w | w in x'.sent ensures Honest(x', w) {
      assert w in x.sent ==> Honest(x, w);
    }
  }

  /** A step of the sending chain changes nothing the peer's half depends on. */
  lemma PlainSendPhase(x: Side, x': Side, y: Side)
    requires x'.state == x.state.(send := x.state.send.(ck := CkNext(x.state.send.ck), n := x.state.send.n + 1))
    requires x'.chains == x.chains && x'.got == x.got && !x.state.send.needsRatchet && (x'.sent == [] ==> x.sent == [])
    ensures Phase(x, y) ==> Phase(x', y)
    ensures Outranked(x, y.state) ==> Outranked(x', y.state)
    ensures Outranked(y, x.state) ==> Outranked(y, x'.state)
  {
  }

  lemma PlainSendDirections(x: Side, x': Side, y: Side, used: set<Pub>, used': set<Pub>)
    requires x'.state == x.state.(send := x.state.send.(ck := CkNext(x.state.send.ck), n := x.state.send.n + 1))
    requires x'.chains == x.chains && x'.got == x.got
    requires Direction(x, y, used) && Direction(y, x, used) && Sends(x', used') && Sends(y, used')
    ensures Direction(x', y, used') && Direction(y, x', used')
  {
  }

  lemma PlainSendKeeps(x: Side, y: Side, used: set<Pub>, body: string, own: Pub)
    requires Ready(x, y, used) && Fresh(own, used) && !x.state.send.needsRatchet
    ensures Ready(SendBy(x, body, own), y, used + {own})
  {
    var x' := SendBy(x, body, own);
    PlainSends(x, x', used, body, own);
    PlainSendPhase(x, x', y);
    MoreKeysUsed(x', used, own);
    MoreKeysUsed(y, used, own);
    PlainSendDirections(x, x', y, used, used + {own});
    NamesGrow(used, own);
  }

  /** Only the responder's first wire ratchets, and it puts the responder ahead. */
  lemma FirstSendKeeps(x: Side, y: Side, used: set<Pub>, body: string, own: Pub)
    requires Ready(x, y, used) && Fresh(own, used) && x.state.send.needsRatchet
    ensures Even(y, x)
    ensures Ready(SendBy(x, body, own), y, used + {own}) && Ahead(SendBy(x, body, own), y)
  {
    var x' := SendBy(x, body, own);
    var ck := RkChain(x.state.rootKey, Dh(own, x.state.recv.remote));
    assert y.state.send.dh in used && x.state.recv.remote == y.state.send.dh;
    assert Base(ck) == ck;
    assert x'.state.send.ck == CkNext(ck) && x'.chains == x.chains[own := ck];
    assert Advance(ck, 1) == CkNext(ck) && Advance(ck, 0) == ck;
    GrowingKeeps(x.chains, x.state.send.dh, y.state.recv, y.got, own, ck);
  }

  lemma SendKeeps(x: Side, y: Side, used: set<Pub>, body: string, own: Pub)
    requires Ready(x, y, used) && Fresh(own, used)
    ensures Ready(SendBy(x, body, own), y, used + {own})
  {
    if x.state.send.needsRatchet {
      FirstSendKeeps(x, y, used, body, own);
    } else {
      PlainSendKeeps(x, y, used, body, own);
    }
  }

  // ---- whole runs ------------------------------------------------------

  lemma ReadySwaps(x: Side, y: Side, used: set<Pub>)
    requires Ready(x, y, used)
    ensures Ready(y, x, used)
  {
  }

  lemma StepKeepsInv(sys: System, e: Event)
    requires Inv(sys) && Enabled(sys, e)
    ensures Inv(Step(sys, e))
  {
    var me, peer := Of(sys, e.p), Of(sys, Other(e.p));
    ReadySwaps(sys.initiator, sys.responder, sys.used);
    match e {
      case Send(p, body, own) =>
        SendKeeps(me, peer, sys.used, body, own);
        ReadySwaps(SendBy(me, body, own), peer, sys.used + {own});
      case Deliver(p, w, own, remembered) =>
        DeliveryKeeps(peer, me, sys.used, w, own, remembered);
        ReadySwaps(peer, ReceiveBy(me, w, own, remembered), sys.used + {own});
    }
  }

  lemma StartIsInv(root: Key, i0: Pub, r0: Pub, ctxI: Context, ctxR: Context)
    requires Paired(ctxI, ctxR) && Fresh(i0, {}) && Fresh(r0, {i0})
    ensures Inv(Start(root, i0, r0, ctxI, ctxR))
  {
    var sys := Start(root, i0, r0, ctxI, ctxR);
    StartOfInitiator(root, i0, r0, ctxI, ctxR);
    StartOfResponder(root, i0, r0, ctxI, ctxR);
    assert Even(sys.initiator, sys.responder);
  }

  lemma StartOfInitiator(root: Key, i0: Pub, r0: Pub, ctxI: Context, ctxR: Context)
    requires Paired(ctxI, ctxR) && i0 != ""
    ensures var sys := Start(root, i0, r0, ctxI, ctxR); Direction(sys.initiator, sys.responder, sys.used)
  {
    var sys := Start(root, i0, r0, ctxI, ctxR);
    var left := InitLeft(root);
    assert Advance(left, 0) == left && Advance(left, 1) == CkNext(left);
    assert Sends(sys.initiator, sys.used);
    FirstIsGot(sys.initiator.chains, left, sys.responder.state.recv);
  }

  /** The receiver of the initial body has got index 0 of the only chain. */
  lemma FirstIsGot(chains: map<Pub, Key>, left: Key, r: Receiving)
    requires chains == map[r.remote := left] && r.ck == CkNext(left) && r.n == 1 && r.skipped == map[] && r.remote != ""
    ensures Receives(chains, r.remote, r, {SkipId(r.remote, 0)})
  {
    assert Advance(left, 0) == left;
    assert r.ck == Advance(chains[r.remote], r.n);
  }

  lemma StartOfResponder(root: Key, i0: Pub, r0: Pub, ctxI: Context, ctxR: Context)
    requires Paired(ctxI, ctxR) && i0 != ""
    ensures var sys := Start(root, i0, r0, ctxI, ctxR); Direction(sys.responder, sys.initiator, sys.used)
  {
  }
}
