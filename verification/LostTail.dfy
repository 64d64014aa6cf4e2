/**
 A run in which a wire is lost for good: the responder answers before it has read the
 initiator's second wire, the initiator takes the root step, and the responder follows.
 */
module LostTail {
  import opened Wrappers
  import opened Keys
  import opened Ratchet
  import opened TwoParty
  import opened TwoPartyRuns

  lemma {:induction false} RunAppends(sys: System, es: seq<Event>, e: Event)
    requires Possible(sys, es) && Enabled(Run(sys, es), e)
    ensures Possible(sys, es + [e]) && Run(sys, es + [e]) == Step(Run(sys, es), e)
    decreases |es|
  {
    if es != [] {
      assert (es + [e])[1..] == es[1..] + [e];
      RunAppends(Step(sys, es[0]), es[1..], e);
    } else {
      assert [e][1..] == [];
    }
  }

  /** A possible event leads from a reachable system to a reachable one. */
  lemma ReachableSteps(sys: System, e: Event)
    requires Reachable(sys) && Enabled(sys, e)
    ensures Reachable(Step(sys, e))
  {
    var root, i0, r0, ctxI, ctxR, es :|
      && Paired(ctxI, ctxR) && Fresh(i0, {}) && Fresh(r0, {i0})
      && Possible(Start(root, i0, r0, ctxI, ctxR), es)
      && sys == Run(Start(root, i0, r0, ctxI, ctxR), es);
    RunAppends(Start(root, i0, r0, ctxI, ctxR), es, e);
    assert Step(sys, e) == Run(Start(root, i0, r0, ctxI, ctxR), es + [e]);
  }

  lemma StartIsReachable(root: Key, i0: Pub, r0: Pub, ctxI: Context, ctxR: Context)
    requires Paired(ctxI, ctxR) && Fresh(i0, {}) && Fresh(r0, {i0})
    ensures Reachable(Start(root, i0, r0, ctxI, ctxR))
  {
    var start := Start(root, i0, r0, ctxI, ctxR);
    assert Possible(start, []) && start == Run(start, []);
  }

  /** A wire of `x`'s newest chain that `y` has not entered takes `y` there, and opens a chain of `y`. */
  lemma EntersNewest(x: Side, y: Side, used: set<Pub>, w: Wire, own: Pub)
    requires Ready(x, y, used) && Fresh(own, used) && w in x.sent && w.ct.BodyBox?
    requires IdOf(w.ct.aad) == SkipId(x.state.send.dh, 0) && y.state.recv.remote != x.state.send.dh && y.state.recv.skipped == map[]
    ensures var y' := ReceiveBy(y, w, own, {});
      && y'.state.recv.remote == x.state.send.dh && y'.state.recv.skipped == map[] && y'.state.send.dh == own
      && !y'.state.send.needsRatchet && y'.state.send.n == 0
      && y'.sent == y.sent && y.chains.Keys <= y'.chains.Keys
  {
    assert Honest(x, w);
    GenuineWire(x, y, used, w, own);
    var h := w.ct.aad;
    assert h.dh in used && y.state.send.dh in used;
    NextChain(x, y, h.dh);
    var r := Entered(y.state, h, own).recv;
    assert r.skipped == map[] && FitsSkip(r, 0);
    assert StoredUpTo(r, SkipUntil(r, 0).value) && SkipUntil(r, 0) == Some(r);
  }

  lemma DeliveredTo(sys: System, p: Party, w: Wire, own: Pub)
    ensures Step(sys, Deliver(p, w, own, {})) == With(sys, p, ReceiveBy(Of(sys, p), w, own, {}), own)
  {
  }

  /** A send on the current chain adds one wire of the next index. */
  lemma SendsNext(x: Side, used: set<Pub>, body: string, own: Pub)
    requires Sends(x, used) && !x.state.send.needsRatchet
    ensures var x' := SendBy(x, body, own);
      && |x'.sent| == |x.sent| + 1 && x'.sent[..|x.sent|] == x.sent && x'.sent[|x.sent|].ct.BodyBox?
      && IdOf(x'.sent[|x.sent|].ct.aad) == SkipId(x.state.send.dh, x.state.send.n)
      && x'.state.send.dh == x.state.send.dh && x'.chains == x.chains && x'.state.recv == x.state.recv && !x'.state.send.needsRatchet
  {
    PlainSends(x, SendBy(x, body, own), used, body, own);
  }

  /** The responder's first wire opens its first chain. */
  lemma SendsFirst(x: Side, y: Side, used: set<Pub>, body: string, own: Pub)
    requires Ready(x, y, used) && Fresh(own, used) && x.state.send.needsRatchet
    ensures var x' := SendBy(x, body, own);
      && |x'.sent| == 1 && x'.sent[0].ct.BodyBox? && IdOf(x'.sent[0].ct.aad) == SkipId(own, 0)
      && x'.state.send.dh == own && x'.state.recv == x.state.recv
  {
    FirstSendKeeps(x, y, used, body, own);
  }

  /** What the run is made of: a root, the ends' first key pairs and contexts, and a key pair for each event. */
  datatype Choice = Choice(root: Key, i0: Pub, r0: Pub, ctxI: Context, ctxR: Context, k1: Pub, k2: Pub, k3: Pub, k4: Pub, k5: Pub)

  ghost predicate Fits(c: Choice) {
    && Paired(c.ctxI, c.ctxR) && Fresh(c.i0, {}) && Fresh(c.r0, {c.i0}) && Fresh(c.k1, {c.i0, c.r0})
    && Fresh(c.k2, {c.i0, c.r0, c.k1}) && Fresh(c.k3, {c.i0, c.r0, c.k1, c.k2})
    && Fresh(c.k4, {c.i0, c.r0, c.k1, c.k2, c.k3}) && Fresh(c.k5, {c.i0, c.r0, c.k1, c.k2, c.k3, c.k4})
  }

  /** The initiator has sent a wire nobody has read. */
  ghost predicate Sent(c: Choice, sys: System) {
    && Reachable(sys) && sys.used == {c.i0, c.r0, c.k1} && |sys.initiator.sent| == 1
    && sys.initiator.sent[0].ct.BodyBox? && IdOf(sys.initiator.sent[0].ct.aad) == SkipId(c.i0, 1)
    && sys.initiator.state.recv.remote == "" && sys.initiator.state.send.dh == c.i0 && c.i0 in sys.initiator.chains
    && sys.initiator.state.recv.skipped == map[] == sys.responder.state.recv.skipped
    && sys.responder.state.recv.remote == c.i0 && sys.responder.state.send.needsRatchet
  }

  lemma FirstIsSent(c: Choice)
    requires Fits(c)
    ensures Sent(c, Step(Start(c.root, c.i0, c.r0, c.ctxI, c.ctxR), Send(Initiator, "", c.k1)))
  {
    var start := Start(c.root, c.i0, c.r0, c.ctxI, c.ctxR);
    StartIsReachable(c.root, c.i0, c.r0, c.ctxI, c.ctxR);
    ReachableIsInv(start);
    ReachableSteps(start, Send(Initiator, "", c.k1));
    SendsNext(start.initiator, start.used, "", c.k1);
  }

  /** The responder has answered without reading it. */
  ghost predicate Replied(c: Choice, sys: System) {
    && Reachable(sys) && sys.used == {c.i0, c.r0, c.k1, c.k2} && |sys.initiator.sent| == 1 && |sys.responder.sent| == 1
    && sys.initiator.sent[0].ct.BodyBox? && IdOf(sys.initiator.sent[0].ct.aad) == SkipId(c.i0, 1)
    && sys.responder.sent[0].ct.BodyBox? && IdOf(sys.responder.sent[0].ct.aad) == SkipId(c.k2, 0) && sys.responder.state.send.dh == c.k2
    && sys.initiator.state.recv.remote == "" && c.i0 in sys.initiator.chains
    && sys.initiator.state.recv.skipped == map[] == sys.responder.state.recv.skipped
    && sys.responder.state.recv.remote == c.i0
  }

  lemma SecondIsReplied(c: Choice, sys: System)
    requires Fits(c) && Sent(c, sys)
    ensures Replied(c, Step(sys, Send(Responder, "", c.k2)))
  {
    ReachableIsInv(sys);
    ReadySwaps(sys.initiator, sys.responder, sys.used);
    ReachableSteps(sys, Send(Responder, "", c.k2));
    SendsFirst(sys.responder, sys.initiator, sys.used, "", c.k2);
    assert sys.used + {c.k2} == {c.i0, c.r0, c.k1, c.k2};
  }

  /** The initiator has read the answer and opened a chain. */
  ghost predicate Turned(c: Choice, sys: System) {
    && Reachable(sys) && sys.used == {c.i0, c.r0, c.k1, c.k2, c.k3} && |sys.initiator.sent| == 1
    && sys.initiator.sent[0].ct.BodyBox? && IdOf(sys.initiator.sent[0].ct.aad) == SkipId(c.i0, 1)
    && sys.initiator.state.send.dh == c.k3 && sys.initiator.state.send.n == 0 && !sys.initiator.state.send.needsRatchet
    && c.i0 in sys.initiator.chains && sys.responder.state.recv.skipped == map[] && sys.responder.state.recv.remote == c.i0
  }

  lemma TurnedBy(c: Choice, sys: System, y: Side, sys': System)
    requires Replied(c, sys) && sys' == With(sys, Initiator, y, c.k3) && Reachable(sys')
    requires y.state.send.dh == c.k3 && !y.state.send.needsRatchet && y.state.send.n == 0
    requires y.sent == sys.initiator.sent && sys.initiator.chains.Keys <= y.chains.Keys
    ensures Turned(c, sys')
  {
    assert sys.used + {c.k3} == {c.i0, c.r0, c.k1, c.k2, c.k3};
  }

  lemma ThirdIsTurned(c: Choice, sys: System)
    requires Fits(c) && Replied(c, sys)
    ensures Turned(c, Step(sys, Deliver(Initiator, sys.responder.sent[0], c.k3, {})))
  {
    var w := sys.responder.sent[0];
    ReachableIsInv(sys);
    ReadySwaps(sys.initiator, sys.responder, sys.used);
    assert w in sys.responder.sent && Available(sys, w.ct);
    ReachableSteps(sys, Deliver(Initiator, w, c.k3, {}));
    DeliveredTo(sys, Initiator, w, c.k3);
    EntersNewest(sys.responder, sys.initiator, sys.used, w, c.k3);
    TurnedBy(c, sys, ReceiveBy(sys.initiator, w, c.k3, {}), Step(sys, Deliver(Initiator, w, c.k3, {})));
  }

  /** The initiator has sent on its new chain. */
  ghost predicate Resent(c: Choice, sys: System) {
    && Reachable(sys) && sys.used == {c.i0, c.r0, c.k1, c.k2, c.k3, c.k4} && |sys.initiator.sent| == 2
    && sys.initiator.sent[0].ct.BodyBox? && IdOf(sys.initiator.sent[0].ct.aad) == SkipId(c.i0, 1)
    && sys.initiator.sent[1].ct.BodyBox? && IdOf(sys.initiator.sent[1].ct.aad) == SkipId(c.k3, 0) && sys.initiator.state.send.dh == c.k3
    && c.i0 in sys.initiator.chains && sys.responder.state.recv.skipped == map[] && sys.responder.state.recv.remote == c.i0
  }

  lemma FourthIsResent(c: Choice, sys: System)
    requires Fits(c) && Turned(c, sys)
    ensures Resent(c, Step(sys, Send(Initiator, "", c.k4)))
  {
    ReachableIsInv(sys);
    ReachableSteps(sys, Send(Initiator, "", c.k4));
    SendsNext(sys.initiator, sys.used, "", c.k4);
    assert SendBy(sys.initiator, "", c.k4).sent[0] == sys.initiator.sent[0];
    assert sys.used + {c.k4} == {c.i0, c.r0, c.k1, c.k2, c.k3, c.k4};
  }

  lemma LostBy(c: Choice, sys: System, y: Side, sys': System)
    requires Fits(c) && Resent(c, sys) && sys' == With(sys, Responder, y, c.k5)
    requires y.state.recv.remote == c.k3 && y.state.recv.skipped == map[]
    ensures sys'.initiator == sys.initiator && LeftBehind(sys', Responder, SkipId(c.i0, 1))
  {
  }

  lemma FifthIsLost(c: Choice, sys: System)
    requires Fits(c) && Resent(c, sys)
    ensures var end := Step(sys, Deliver(Responder, sys.initiator.sent[1], c.k5, {}));
      Reachable(end) && end.initiator == sys.initiator && LeftBehind(end, Responder, SkipId(c.i0, 1))
  {
    var w := sys.initiator.sent[1];
    ReachesNewest(c, sys);
    ReachableSteps(sys, Deliver(Responder, w, c.k5, {}));
    DeliveredTo(sys, Responder, w, c.k5);
    LostBy(c, sys, ReceiveBy(sys.responder, w, c.k5, {}), Step(sys, Deliver(Responder, w, c.k5, {})));
  }

  lemma ReachesNewest(c: Choice, sys: System)
    requires Fits(c) && Resent(c, sys)
    ensures Enabled(sys, Deliver(Responder, sys.initiator.sent[1], c.k5, {}))
    ensures var y := ReceiveBy(sys.responder, sys.initiator.sent[1], c.k5, {}); y.state.recv.remote == c.k3 && y.state.recv.skipped == map[]
  {
    var w := sys.initiator.sent[1];
    ReachableIsInv(sys);
    assert w in sys.initiator.sent && Available(sys, w.ct);
    EntersNewest(sys.initiator, sys.responder, sys.used, w, c.k5);
  }

  /** The system before the last event. */
  lemma ReachesResent(c: Choice) returns (sys: System)
    requires Fits(c)
    ensures Resent(c, sys)
  {
    sys := Step(Start(c.root, c.i0, c.r0, c.ctxI, c.ctxR), Send(Initiator, "", c.k1));
    FirstIsSent(c);
    SecondIsReplied(c, sys);
    sys := Step(sys, Send(Responder, "", c.k2));
    ThirdIsTurned(c, sys);
    sys := Step(sys, Deliver(Initiator, sys.responder.sent[0], c.k3, {}));
    FourthIsResent(c, sys);
    sys := Step(sys, Send(Initiator, "", c.k4));
  }

  /** For any keys there is a run that loses a wire: it was sent, and it opens at no point of any continuation. */
  lemma SentWireIsLost(c: Choice) returns (sys: System, w: Wire)
    requires Fits(c)
    ensures Reachable(sys) && w in sys.initiator.sent && w.ct.BodyBox? && LeftBehind(sys, Responder, IdOf(w.ct.aad))
    ensures forall es, own | Possible(sys, es) :: Decrypt(Run(sys, es).responder.state, w, own).Refused?
  {
    var before := ReachesResent(c);
    sys, w := Step(before, Deliver(Responder, before.initiator.sent[1], c.k5, {})), before.initiator.sent[0];
    FifthIsLost(c, before);
    assert w in sys.initiator.sent;
    NeverOpens(sys, w);
  }

  lemma NeverOpens(sys: System, w: Wire)
    requires Reachable(sys) && w in sys.initiator.sent && w.ct.BodyBox? && LeftBehind(sys, Responder, IdOf(w.ct.aad))
    ensures forall es, own | Possible(sys, es) :: Decrypt(Run(sys, es).responder.state, w, own).Refused?
  {
    forall es, own | Possible(sys, es) ensures Decrypt(Run(sys, es).responder.state, w, own).Refused? {
      UnreadTailIsLost(sys, es, Responder, w, own);
    }
  }
}
