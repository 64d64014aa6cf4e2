/**
 What the headers of sent wires say: the encrypted copy can be read on the chain it
 belongs to, `n` counts the wires of a chain, and `pn` those of the chain before.
 */
module Headers {
  import opened Wrappers
  import opened Keys
  import opened Ratchet
  import O = RatchetOnce
  import T = TwoParty
  import N = TwoPartyRuns

  // ---- the encrypted copy ----------------------------------------------

  /** The header key of a chain, from the key it was opened with. */
  function HeaderKeyOf(base: Key): Key {
    match base
    case InitLeft(root) => HeaderLeft(root)
    case InitRight(root) => HeaderRight(root)
    case RkChain(root, dh) => HeaderChain(RkRoot(root, dh), base)
    case _ => base
  }

  /** Both header keys belong to the chains of the state. */
  predicate InStep(s: State) {
    s.send.hk == HeaderKeyOf(Base(s.send.ck)) && s.recv.hk == HeaderKeyOf(Base(s.recv.ck))
  }

  /** The encrypted copy is the visible header, sealed for the chain of the body key. */
  predicate CopySealed(w: Wire) {
    && w.h.Some? && w.ct.BodyBox? && w.ct.key.CkMsg?
    && w.eh == Some(HeaderBox(HeaderKeyOf(Base(w.ct.key.ck)), w.h.value))
  }

  lemma EncryptInStep(s: State, body: string, own: Pub)
    requires InStep(s)
    ensures InStep(Encrypt(s, body, own).0) && CopySealed(Encrypt(s, body, own).1)
  {
  }

  lemma {:induction false} StoreSkippedInStep(r: Receiving, until: nat)
    requires r.n <= until
    ensures StoreSkipped(r, until).hk == r.hk && Base(StoreSkipped(r, until).ck) == Base(r.ck)
    decreases until - r.n
  {
    if r.n < until { StoreSkippedInStep(r, until - 1); }
  }

  lemma OpenInChainInStep(s: State, w: Wire, h: Header)
    requires InStep(s)
    ensures InStep(OpenInChain(s, w, h).state)
  {
    if h.n >= s.recv.n { StoreSkippedInStep(s.recv, h.n); }
  }

  lemma DecryptInStep(s: State, w: Wire, own: Pub)
    requires InStep(s)
    ensures InStep(Decrypt(s, w, own).state)
  {
    var header := ReadHeader(s.recv.hk, w);
    if header.Some? && CheckHeader(s.ctx, s.seen, header.value).None? {
      var h := header.value;
      OpenInChainInStep(s, w, h);
      OpenInChainInStep(DhRatchet(s, h.dh, own), w, h);
    }
  }

  /** Header keys are in step on both sides, and every wire sent has a readable copy. */
  ghost predicate AllSealed(sys: T.System) {
    forall p :: InStep(T.Of(sys, p).state) && forall w | w in T.Of(sys, p).sent :: CopySealed(w)
  }

  lemma StepSeals(sys: T.System, e: T.Event)
    requires AllSealed(sys)
    ensures AllSealed(T.Step(sys, e))
  {
    assert InStep(T.Of(sys, e.p).state) && InStep(T.Of(sys, T.Other(e.p)).state);
    match e
    case Send(p, body, own) => EncryptInStep(T.Of(sys, p).state, body, own);
    case Deliver(p, w, own, remembered) => DecryptInStep(T.Of(sys, p).state, w, own);
  }

  lemma {:induction false} RunSeals(sys: T.System, es: seq<T.Event>)
    requires AllSealed(sys)
    ensures AllSealed(N.Run(sys, es))
    decreases |es|
  {
    if es != [] {
      StepSeals(sys, es[0]);
      RunSeals(T.Step(sys, es[0]), es[1..]);
    }
  }

  lemma ReachableSeals(sys: T.System)
    requires N.Reachable(sys)
    ensures AllSealed(sys)
  {
    var root, i0, r0, ctxI, ctxR, es :|
      && T.Paired(ctxI, ctxR) && T.Fresh(i0, {}) && T.Fresh(r0, {i0})
      && N.Possible(T.Start(root, i0, r0, ctxI, ctxR), es)
      && sys == N.Run(T.Start(root, i0, r0, ctxI, ctxR), es);
    StartSealed(root, i0, r0, ctxI, ctxR);
    RunSeals(T.Start(root, i0, r0, ctxI, ctxR), es);
  }

  lemma StartSealed(root: Key, i0: Pub, r0: Pub, ctxI: Context, ctxR: Context)
    ensures AllSealed(T.Start(root, i0, r0, ctxI, ctxR))
  {
    var sys := T.Start(root, i0, r0, ctxI, ctxR);
    assert Base(CkNext(InitLeft(root))) == Base(InitLeft(root)) == InitLeft(root);
    assert InStep(sys.initiator.state) && InStep(sys.responder.state);
  }

  /**
   In every reachable pair, a wire of the chain the receiver is in reads the same
   without its visible header, and decrypting it comes to the same.
   */
  lemma CopyIsEnough(sys: T.System, p: T.Party, w: Wire, own: Pub)
    requires N.Reachable(sys) && w in T.Of(sys, T.Other(p)).sent && w.ct.BodyBox?
    requires w.ct.aad.dh == T.Of(sys, p).state.recv.remote
    ensures var s, bare := T.Of(sys, p).state, w.(h := None);
      ReadHeader(s.recv.hk, bare) == w.h == Some(w.ct.aad) && Decrypt(s, bare, own) == Decrypt(s, w, own)
  {
    ReachableSeals(sys);
    N.ReachableIsInv(sys);
    var x, y := T.Of(sys, T.Other(p)), T.Of(sys, p);
    assert T.Honest(x, w) && CopySealed(w) && InStep(y.state);
    SameBase(x, y, w);
    T.SameHeaderSameOutcome(y.state, w.(h := None), w, own);
  }

  lemma SameBase(x: T.Side, y: T.Side, w: Wire)
    requires T.Honest(x, w) && T.Receives(x.chains, x.state.send.dh, y.state.recv, y.got)
    requires w.ct.aad.dh == y.state.recv.remote != ""
    ensures w.ct.key.CkMsg? && Base(w.ct.key.ck) == Base(y.state.recv.ck)
  {
    var base := x.chains[w.ct.aad.dh];
    AdvanceFacts(base, w.ct.aad.n);
    AdvanceFacts(base, y.state.recv.n);
  }

  // ---- the numbers -----------------------------------------------------

  /** The sending chain is the last thing the root was stepped for, as it is after anything sent. */
  predicate Settled(s: State) {
    !s.send.needsRatchet && ChainRank(Base(s.send.ck)) == Rank(s.rootKey)
  }

  /** Where sending stands after `w`: on its chain, one chain on, or further. */
  ghost predicate Stands(s: State, w: Wire) {
    && Settled(s) && w.h.Some? && w.ct.BodyBox? && w.ct.key.CkMsg?
    && var h, gap := w.h.value, Rank(s.rootKey) - ChainRank(Base(w.ct.key.ck));
       && gap >= 0 && gap % 2 == 0
       && (gap == 0 ==> (s.send.dh, s.send.n, s.send.pn) == (h.dh, h.n + 1, h.pn) && Base(s.send.ck) == Base(w.ct.key.ck))
       && (gap == 2 ==> s.send.n == 0 && s.send.pn == h.n + 1)
       && (gap > 2 ==> s.send.n == 0 && s.send.pn == 0)
  }

  lemma EncryptStands(s: State, body: string, own: Pub)
    requires Settled(s) || (s.send.needsRatchet && s.recv.remote != "")
    ensures Stands(Encrypt(s, body, own).0, Encrypt(s, body, own).1)
  {
  }

  /** A wire that opens a chain has the new key, `n` 0, and in `pn` what was sent before. */
  lemma OpeningWireIs(s: State, body: string, own: Pub)
    requires s.send.needsRatchet && s.recv.remote != ""
    ensures var h := Encrypt(s, body, own).1.h; h.Some? && (h.value.dh, h.value.n, h.value.pn) == (own, 0, s.send.n)
  {
  }

  lemma OpenInChainStands(s: State, w: Wire, h: Header, g: Wire)
    requires Stands(s, g)
    ensures Stands(OpenInChain(s, w, h).state, g)
  {
    if h.n >= s.recv.n { StoreSkippedInStep(s.recv, h.n); }
  }

  lemma DecryptStands(s: State, w: Wire, own: Pub, g: Wire)
    requires Stands(s, g) && Decrypt(s, w, own).Opened?
    ensures Stands(Decrypt(s, w, own).state, g)
  {
    var h := ReadHeader(s.recv.hk, w).value;
    if SkipId(h.dh, h.n) !in s.recv.skipped {
      if s.recv.remote == "" || h.dh != s.recv.remote {
        RatchetStands(s, h.dh, own, g);
        OpenInChainStands(DhRatchet(s, h.dh, own), w, h, g);
      } else {
        OpenInChainStands(s, w, h, g);
      }
    }
  }

  lemma RatchetStands(s: State, remote: Pub, own: Pub, g: Wire)
    requires Stands(s, g)
    ensures Stands(DhRatchet(s, remote, own), g)
  {
    assert Rank(DhRatchet(s, remote, own).rootKey) == Rank(s.rootKey) + 2;
  }

  /** Received wires only; the refused ones are rolled back. */
  ghost predicate OnlyReceives(es: seq<O.Event>) {
    forall e | e in es :: e.Receive? && e.rollback
  }

  lemma {:induction false} ReceivingStands(s: State, es: seq<O.Event>, g: Wire)
    requires Stands(s, g) && OnlyReceives(es)
    ensures Stands(O.Run(s, es), g)
    decreases |es|
  {
    if es != [] {
      assert es[0] in es;
      if Decrypt(s, es[0].w, es[0].own).Opened? { DecryptStands(s, es[0].w, es[0].own, g); }
      ReceivingStands(O.After(s, es[0]), es[1..], g);
    }
  }

  /**
   Two wires sent one after the other, whatever was received between them: on one chain
   `n` goes up by one and `pn` stays; the first wire of the next chain has `n` 0 and in
   `pn` the length of the chain before, which is 0 when that chain was skipped over.
   */
  lemma WiresAreNumbered(s: State, first: string, own: Pub, es: seq<O.Event>, second: string, own2: Pub)
    requires Settled(s) || (s.send.needsRatchet && s.recv.remote != "")
    requires OnlyReceives(es)
    ensures var (t, g) := Encrypt(s, first, own); var w := Encrypt(O.Run(t, es), second, own2).1;
      && g.h.Some? && w.h.Some? && g.ct.BodyBox? && w.ct.BodyBox? && g.ct.key.CkMsg? && w.ct.key.CkMsg?
      && var gap := ChainRank(Base(w.ct.key.ck)) - ChainRank(Base(g.ct.key.ck));
         && gap >= 0
         && (gap == 0 ==> (w.h.value.dh, w.h.value.n, w.h.value.pn) == (g.h.value.dh, g.h.value.n + 1, g.h.value.pn))
         && (gap == 2 ==> w.h.value.n == 0 && w.h.value.pn == g.h.value.n + 1)
         && (gap != 0 && gap != 2 ==> w.h.value.n == 0 && w.h.value.pn == 0)
  {
    var (t, g) := Encrypt(s, first, own);
    EncryptStands(s, first, own);
    ReceivingStands(t, es, g);
    SecondNumber(O.Run(t, es), g, second, own2);
  }

  lemma SecondNumber(u: State, g: Wire, body: string, own: Pub)
    requires Stands(u, g)
    ensures var h := Encrypt(u, body, own).1.h.value;
      Encrypt(u, body, own).1.ct.key == CkMsg(u.send.ck) && (h.dh, h.n, h.pn) == (u.send.dh, u.send.n, u.send.pn)
  {
  }
}
