/**
 What every run of two parties keeps. First over a network that reorders, loses,
 repeats and alters wires; then over one first-in-first-out queue per direction.
 */
module TwoPartyRuns {
  import opened Wrappers
  import opened Keys
  import opened Ratchet
  import opened TwoParty

  function Run(sys: System, es: seq<Event>): System
    decreases |es|
  {
    if es == [] then sys else Run(Step(sys, es[0]), es[1..])
  }

  ghost predicate Possible(sys: System, es: seq<Event>)
    decreases |es|
  {
    es == [] || (Enabled(sys, es[0]) && Possible(Step(sys, es[0]), es[1..]))
  }

  lemma {:induction false} RunKeepsInv(sys: System, es: seq<Event>)
    requires Inv(sys) && Possible(sys, es)
    ensures Inv(Run(sys, es))
    decreases |es|
  {
    if es != [] {
      StepKeepsInv(sys, es[0]);
      RunKeepsInv(Step(sys, es[0]), es[1..]);
    }
  }

  /** A system reached from a completed PQXDH start by any sequence of possible events. */
  ghost predicate Reachable(sys: System) {
    exists root, i0, r0, ctxI, ctxR, es ::
      && Paired(ctxI, ctxR) && Fresh(i0, {}) && Fresh(r0, {i0})
      && Possible(Start(root, i0, r0, ctxI, ctxR), es)
      && sys == Run(Start(root, i0, r0, ctxI, ctxR), es)
  }

  lemma ReachableIsInv(sys: System)
    requires Reachable(sys)
    ensures Inv(sys)
  {
    var root, i0, r0, ctxI, ctxR, es :|
      && Paired(ctxI, ctxR) && Fresh(i0, {}) && Fresh(r0, {i0})
      && Possible(Start(root, i0, r0, ctxI, ctxR), es)
      && sys == Run(Start(root, i0, r0, ctxI, ctxR), es);
    StartIsInv(root, i0, r0, ctxI, ctxR);
    RunKeepsInv(Start(root, i0, r0, ctxI, ctxR), es);
  }

  /**
   A wire of the peer decrypts if and only if its key is stored, or it lies in the
   receiver's current chain at or past `n_recv`, or in the sender's newest chain
   when that is the receiver's next one, and the skip limit fits. It gives its own
   body, and was never accepted before.
   */
  lemma OutOfOrderIsExact(sys: System, p: Party, w: Wire, own: Pub)
    requires Reachable(sys) && Fresh(own, sys.used) && w in Of(sys, Other(p)).sent
    ensures var y, d := Of(sys, p), Decrypt(Of(sys, p).state, w, own);
      && w.ct.BodyBox?
      && (d.Opened? <==> Deliverable(Of(sys, Other(p)).state.send.dh, y.state.recv, IdOf(w.ct.aad)))
      && (d.Opened? ==> d.body == w.ct.body && IdOf(w.ct.aad) !in y.got)
  {
    ReachableIsInv(sys);
    ReadySwaps(sys.initiator, sys.responder, sys.used);
    var x, y := Of(sys, Other(p)), Of(sys, p);
    assert Honest(x, w);
    GenuineWire(x, y, sys.used, w, own);
    var k := IdOf(w.ct.aad);
    if k in y.got { assert Reached(x.state.send.dh, y.state.recv, k); }
  }

  /** An accepted wire, altered or not, carries a box the peer sealed under exactly the header used. */
  lemma AcceptedIsAuthentic(sys: System, p: Party, w: Wire, own: Pub)
    requires Reachable(sys) && Fresh(own, sys.used) && Available(sys, w.ct)
    requires Decrypt(Of(sys, p).state, w, own).Opened?
    ensures exists g :: g in Of(sys, Other(p)).sent && g.ct == w.ct && g.h == ReadHeader(Of(sys, p).state.recv.hk, w)
  {
    ReachableIsInv(sys);
    ReadySwaps(sys.initiator, sys.responder, sys.used);
    var x, y := Of(sys, Other(p)), Of(sys, p);
    OpenedHeader(y.state, w, own);
    assert exists g :: (g in x.sent || g in y.sent) && g.ct == w.ct;
    OpenedIsGenuine(x, y, sys.used, w, own);
    var g :| g in x.sent && g.ct == w.ct;
    assert Honest(x, g);
  }

  /**
   Every index of the current chain below `n_recv` was accepted or is stored, never
   both; `skipped` has at most 1000 keys, each the right one for its index.
   */
  lemma EveryIndexAccounted(sys: System, p: Party, i: int)
    requires Reachable(sys)
    ensures var y := Of(sys, p); var r := y.state.recv; var k := SkipId(r.remote, i);
      && (r.remote != "" && 0 <= i < r.n ==> (k in y.got) != (k in r.skipped))
      && |r.skipped| <= MAX_SKIP_KEYS
      && (forall l | l in r.skipped :: StoredRight(Of(sys, Other(p)).chains, l, r.skipped[l]))
  {
    ReachableIsInv(sys);
  }

  /** Root lockstep: equal roots, or one root is one step past the other over the shared secret. */
  lemma RootsInLockstep(sys: System)
    requires Reachable(sys)
    ensures var i, r := sys.initiator.state, sys.responder.state;
      || i.rootKey == r.rootKey
      || i.rootKey == RkRoot(r.rootKey, Dh(i.send.dh, r.send.dh))
      || r.rootKey == RkRoot(i.rootKey, Dh(r.send.dh, i.send.dh))
  {
    ReachableIsInv(sys);
  }

  /** No wire is ever sealed under a key of the initial right chain. */
  lemma RightChainUnused(sys: System, p: Party, w: Wire)
    requires Reachable(sys) && w in Of(sys, p).sent
    ensures w.ct.BodyBox? && w.ct.key.CkMsg? && !Base(w.ct.key.ck).InitRight?
  {
    ReachableIsInv(sys);
    var x := Of(sys, p);
    assert Honest(x, w);
    AdvanceFacts(x.chains[w.ct.aad.dh], w.ct.aad.n);
  }

  // ---- the unread tail of a chain that was left ------------------------

  /** Index `k` lies on a chain of the peer that `p` has left, and its key was not stored. */
  ghost predicate LeftBehind(sys: System, p: Party, k: SkipId) {
    var x, r := Of(sys, Other(p)), Of(sys, p).state.recv;
    k.dh in x.chains && k.dh != x.state.send.dh && k.dh != r.remote && k !in r.skipped
  }

  /** What one event of `y` itself can do: `decrypt` on a wire of `x` stores no index of another chain. */
  lemma GenuineLeavesBehind(x: Side, y: Side, used: set<Pub>, g: Wire, own: Pub, k: SkipId)
    requires Ready(x, y, used) && Honest(x, g) && Decrypt(y.state, g, own).Opened?
    requires k.dh in x.chains && k.dh != x.state.send.dh && k.dh != y.state.recv.remote && k !in y.state.recv.skipped
    ensures var r := Decrypt(y.state, g, own).state.recv; k.dh != r.remote && k !in r.skipped
  {
    GenuineWire(x, y, used, g, own);
    var h, s := g.ct.aad, y.state;
    if IdOf(h) !in s.recv.skipped {
      var r := Entered(s, h, own).recv;
      var p := SkipUntil(r, h.n).value;
      assert k in p.skipped ==> StoredKey(r, p.n, k, p.skipped[k]);
    }
  }

  lemma DeliveryLeavesBehind(x: Side, y: Side, used: set<Pub>, w: Wire, own: Pub, remembered: set<string>, k: SkipId)
    requires Ready(x, y, used)
    requires w.ct == NotABox || exists g :: (g in x.sent || g in y.sent) && g.ct == w.ct
    requires k.dh in x.chains && k.dh != x.state.send.dh && k.dh != y.state.recv.remote && k !in y.state.recv.skipped
    ensures var r := ReceiveBy(y, w, own, remembered).state.recv; k.dh != r.remote && k !in r.skipped
  {
    if Decrypt(y.state, w, own).Opened? {
      OpenedHeader(y.state, w, own);
      OpenedIsGenuine(x, y, used, w, own);
      var g :| g in x.sent && g.ct == w.ct && Decrypt(y.state, g, own) == Decrypt(y.state, w, own);
      assert Honest(x, g);
      GenuineLeavesBehind(x, y, used, g, own, k);
    }
  }

  /** A side's own ratchet key changes only to the key pair just generated. */
  lemma OwnKeyAfter(x: Side, used: set<Pub>, e: Event, k: SkipId)
    requires Sends(x, used) && e.own !in used && k.dh in x.chains && k.dh != x.state.send.dh
    ensures var x' := if e.Send? then SendBy(x, e.body, e.own) else ReceiveBy(x, e.w, e.own, e.remembered);
      k.dh in x'.chains && k.dh != x'.state.send.dh && (forall w | w in x.sent :: w in x'.sent)
  {
    if e.Deliver? {
      var d := Decrypt(x.state, e.w, e.own);
      assert d.state.send.dh == x.state.send.dh || d.state.send.dh == e.own;
    }
  }

  lemma StepLeavesBehind(sys: System, e: Event, p: Party, k: SkipId)
    requires Inv(sys) && Enabled(sys, e) && LeftBehind(sys, p, k)
    ensures LeftBehind(Step(sys, e), p, k)
    ensures forall w | w in Of(sys, Other(p)).sent :: w in Of(Step(sys, e), Other(p)).sent
  {
    ReadySwaps(sys.initiator, sys.responder, sys.used);
    var x, y := Of(sys, Other(p)), Of(sys, p);
    if e.p != p {
      OwnKeyAfter(x, sys.used, e, k);
    } else if e.Deliver? {
      DeliveryLeavesBehind(x, y, sys.used, e.w, e.own, e.remembered, k);
    }
  }

  /** Entering the peer's next chain leaves behind exactly what was unread of the current one. */
  lemma EnteringLeavesTail(sys: System, p: Party, w: Wire, own: Pub, remembered: set<string>, k: SkipId)
    requires Reachable(sys) && w in Of(sys, Other(p)).sent && w.ct.BodyBox?
    requires Enabled(sys, Deliver(p, w, own, remembered))
    requires var r := Of(sys, p).state.recv;
      && Decrypt(Of(sys, p).state, w, own).Opened? && IdOf(w.ct.aad) !in r.skipped && w.ct.aad.dh != r.remote
      && k.dh == r.remote != "" && 0 <= k.n
    ensures var r := Of(sys, p).state.recv;
      LeftBehind(Step(sys, Deliver(p, w, own, remembered)), p, k) <==> k !in r.skipped && (k.n < r.n ==> k in Of(sys, p).got)
  {
    ReachableIsInv(sys);
    ReadySwaps(sys.initiator, sys.responder, sys.used);
    var x, y := Of(sys, Other(p)), Of(sys, p);
    assert Honest(x, w);
    OldChainKeepsKeys(x, y, sys.used, w, own, k);
    assert k == SkipId(y.state.recv.remote, k.n);
  }

  /** Entering the newest chain stores no key of the chain that was current, and drops none. */
  lemma OldChainKeepsKeys(x: Side, y: Side, used: set<Pub>, w: Wire, own: Pub, k: SkipId)
    requires Ready(x, y, used) && Honest(x, w) && Decrypt(y.state, w, own).Opened?
    requires IdOf(w.ct.aad) !in y.state.recv.skipped && w.ct.aad.dh != y.state.recv.remote && k.dh == y.state.recv.remote != ""
    ensures var r := Decrypt(y.state, w, own).state.recv;
      r.remote == x.state.send.dh != k.dh && k.dh in x.chains && (k in r.skipped <==> k in y.state.recv.skipped)
  {
    GenuineWire(x, y, used, w, own);
    var r := Entered(y.state, w.ct.aad, own).recv;
    var t := SkipUntil(r, w.ct.aad.n).value;
    assert k in t.skipped ==> StoredKey(r, t.n, k, t.skipped[k]);
  }

  lemma LeftBehindIsRefused(sys: System, p: Party, w: Wire, own: Pub)
    requires Inv(sys) && w in Of(sys, Other(p)).sent && w.ct.BodyBox? && LeftBehind(sys, p, IdOf(w.ct.aad))
    ensures Decrypt(Of(sys, p).state, w, own).Refused?
  {
    ReadySwaps(sys.initiator, sys.responder, sys.used);
    assert Honest(Of(sys, Other(p)), w);
    GenuineWire(Of(sys, Other(p)), Of(sys, p), sys.used, w, own);
  }

  lemma {:induction false} LeftBehindStaysRefused(sys: System, es: seq<Event>, p: Party, w: Wire, own: Pub)
    requires Inv(sys) && Possible(sys, es) && w in Of(sys, Other(p)).sent
    requires w.ct.BodyBox? && LeftBehind(sys, p, IdOf(w.ct.aad))
    ensures Decrypt(Of(Run(sys, es), p).state, w, own).Refused?
    decreases |es|
  {
    if es == [] {
      LeftBehindIsRefused(sys, p, w, own);
    } else {
      StepKeepsInv(sys, es[0]);
      StepLeavesBehind(sys, es[0], p, IdOf(w.ct.aad));
      LeftBehindStaysRefused(Step(sys, es[0]), es[1..], p, w, own);
    }
  }

  /**
   `pn` is never read: an index left behind stays so, and the wire carrying it opens
   at no point of any continuation of the run.
   */
  lemma UnreadTailIsLost(sys: System, es: seq<Event>, p: Party, w: Wire, own: Pub)
    requires Reachable(sys) && Possible(sys, es) && w in Of(sys, Other(p)).sent
    requires w.ct.BodyBox? && LeftBehind(sys, p, IdOf(w.ct.aad))
    ensures Decrypt(Of(Run(sys, es), p).state, w, own).Refused?
  {
    ReachableIsInv(sys);
    LeftBehindStaysRefused(sys, es, p, w, own);
  }
}
