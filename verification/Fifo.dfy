/**
 Two parties over one first-in-first-out queue per direction, nothing lost: every
 wire decrypts, and each party hears exactly what the other said, in order.
 */
module Fifo {
  import opened Wrappers
  import opened Keys
  import opened Ratchet
  import opened TwoParty

  /** `said` and `heard` are plaintexts; the wires of `sent` past |heard of the peer| are in the queue. */
  datatype Link = Link(sys: System, saidI: seq<string>, saidR: seq<string>, heardI: seq<string>, heardR: seq<string>)

  datatype Act =
    | Say(p: Party, body: string, own: Pub)
    | Hear(p: Party, own: Pub, remembered: set<string>)

  function Said(l: Link, p: Party): seq<string> { if p == Initiator then l.saidI else l.saidR }

  function Heard(l: Link, p: Party): seq<string> { if p == Initiator then l.heardI else l.heardR }

  /** The wires on their way to `p`, oldest first. */
  function Queue(l: Link, p: Party): seq<Wire>
    requires |Heard(l, p)| <= |Of(l.sys, Other(p)).sent|
  {
    Of(l.sys, Other(p)).sent[|Heard(l, p)|..]
  }

  /** A party can always speak, and can hear when its queue is not empty. */
  ghost predicate CanAct(l: Link, a: Act) {
    && Fresh(a.own, l.sys.used)
    && (a.Hear? ==>
          && |Heard(l, a.p)| < |Of(l.sys, Other(a.p)).sent|
          && a.remembered <= SeenAfter(Of(l.sys, a.p).state, Queue(l, a.p)[0], a.own))
  }

  /** What the receiving client shows for a wire: its body, or the placeholder. */
  function Shown(d: Decryption): string {
    match d case Opened(_, body) => body case Refused(_, _) => "[Cannot decrypt]"
  }

  function Do(l: Link, a: Act): Link
    requires a.Hear? ==> |Heard(l, a.p)| < |Of(l.sys, Other(a.p)).sent|
  {
    match a
    case Say(p, body, own) =>
      var sys := Step(l.sys, Send(p, body, own));
      if p == Initiator then l.(sys := sys, saidI := l.saidI + [body]) else l.(sys := sys, saidR := l.saidR + [body])
    case Hear(p, own, remembered) =>
      var w := Queue(l, p)[0];
      var sys := Step(l.sys, Deliver(p, w, own, remembered));
      var shown := Shown(Decrypt(Of(l.sys, p).state, w, own));
      if p == Initiator then l.(sys := sys, heardI := l.heardI + [shown]) else l.(sys := sys, heardR := l.heardR + [shown])
  }

  // ---- the invariant ---------------------------------------------------

  /**
   The queue from `x` to a receiver `r`, from index `k` of `x.sent`: first `m` wires
   continue `r`'s current chain, the others start `x`'s newest one.
   */
  ghost predicate Pending(x: Side, r: Receiving, k: nat, m: nat) {
    && k + m <= |x.sent| && r.skipped == map[]
    && (forall j | k <= j < k + m :: x.sent[j].ct.BodyBox? && IdOf(x.sent[j].ct.aad) == SkipId(r.remote, r.n + (j - k)))
    && (forall j | k + m <= j < |x.sent| :: x.sent[j].ct.BodyBox? && IdOf(x.sent[j].ct.aad) == SkipId(x.state.send.dh, j - k - m))
    && (if r.remote == x.state.send.dh then k + m == |x.sent| && x.state.send.n == r.n + m
        else x.state.send.n == |x.sent| - k - m)
  }

  /** One direction: the queue is in order, and what was heard is what was said. */
  ghost predicate Flows(x: Side, y: Side, said: seq<string>, heard: seq<string>) {
    && |said| == |x.sent| && |heard| <= |said|
    && (forall j | 0 <= j < |said| :: x.sent[j].ct.BodyBox? && x.sent[j].ct.body == said[j])
    && (forall j | 0 <= j < |heard| :: heard[j] == said[j])
    && exists m: nat :: Pending(x, y.state.recv, |heard|, m)
  }

  ghost predicate InOrder(l: Link) {
    && Inv(l.sys)
    && Flows(l.sys.initiator, l.sys.responder, l.saidI, l.heardR)
    && Flows(l.sys.responder, l.sys.initiator, l.saidR, l.heardI)
  }

  // ---- speaking --------------------------------------------------------

  lemma PlainSayingPends(x: Side, r: Receiving, used: set<Pub>, k: nat, m: nat, body: string, own: Pub)
    requires Sends(x, used) && !x.state.send.needsRatchet && Pending(x, r, k, m)
    ensures Pending(SendBy(x, body, own), r, k, if r.remote == x.state.send.dh then m + 1 else m)
  {
    PlainSends(x, SendBy(x, body, own), used, body, own);
  }

  lemma FirstSayingPends(x: Side, y: Side, used: set<Pub>, k: nat, m: nat, body: string, own: Pub)
    requires Ready(x, y, used) && Fresh(own, used) && x.state.send.needsRatchet && Pending(x, y.state.recv, k, m)
    ensures Pending(SendBy(x, body, own), y.state.recv, k, m)
  {
    FirstSendKeeps(x, y, used, body, own);
  }

  lemma SayingFlows(x: Side, y: Side, used: set<Pub>, said: seq<string>, heard: seq<string>, body: string, own: Pub)
    requires Ready(x, y, used) && Fresh(own, used) && Flows(x, y, said, heard)
    ensures Flows(SendBy(x, body, own), y, said + [body], heard)
  {
    var m: nat :| Pending(x, y.state.recv, |heard|, m);
    if x.state.send.needsRatchet {
      FirstSayingPends(x, y, used, |heard|, m, body, own);
    } else {
      PlainSayingPends(x, y.state.recv, used, |heard|, m, body, own);
    }
  }

  // ---- hearing ---------------------------------------------------------

  /** The oldest wire of the queue opens. */
  lemma HeadOpens(x: Side, y: Side, used: set<Pub>, k: nat, m: nat, own: Pub)
    requires Ready(x, y, used) && Pending(x, y.state.recv, k, m) && k < |x.sent|
    ensures var w, r := x.sent[k], y.state.recv;
      && Honest(x, w)
      && (m > 0 ==> IdOf(w.ct.aad) == SkipId(r.remote, r.n))
      && (m == 0 ==> IdOf(w.ct.aad) == SkipId(x.state.send.dh, 0) && r.remote != x.state.send.dh)
      && Deliverable(x.state.send.dh, r, IdOf(w.ct.aad))
  {
    assert Honest(x, x.sent[k]);
  }

  /** Taking a key with nothing skipped. */
  lemma NothingSkipped(r: Receiving, p: Receiving)
    requires StoredUpTo(r, p) && p.n == r.n && r.skipped == map[]
    ensures p == r
  {
    assert forall k | k in p.skipped :: StoredKey(r, p.n, k, p.skipped[k]);
    assert p.skipped == map[];
  }

  lemma TakingCurrentPends(x: Side, r: Receiving, r': Receiving, k: nat, m: nat)
    requires Pending(x, r, k, m) && m > 0 && r'.remote == r.remote && r'.n == r.n + 1 && r'.skipped == map[]
    ensures Pending(x, r', k + 1, m - 1)
  {
  }

  lemma TakingNewestPends(x: Side, r: Receiving, r': Receiving, k: nat)
    requires Pending(x, r, k, 0) && k < |x.sent| && r.remote != x.state.send.dh
    requires r'.remote == x.state.send.dh && r'.n == 1 && r'.skipped == map[]
    ensures Pending(x, r', k + 1, |x.sent| - k - 1)
  {
  }

  /** The head of the queue opens with its own body, and the rest of the queue is still in order. */
  lemma HearingPends(x: Side, y: Side, used: set<Pub>, k: nat, m: nat, own: Pub)
    requires Ready(x, y, used) && Pending(x, y.state.recv, k, m) && k < |x.sent|
    ensures var w := x.sent[k]; var d := Decrypt(y.state, w, own);
      && Honest(x, w) && d == Opened(d.state, w.ct.body)
      && Pending(x, d.state.recv, k + 1, if m > 0 then m - 1 else |x.sent| - k - 1)
  {
    var w, r := x.sent[k], y.state.recv;
    HeadOpens(x, y, used, k, m, own);
    GenuineWire(x, y, used, w, own);
    var h, d := w.ct.aad, Decrypt(y.state, w, own);
    assert h.dh in used;
    var entered := Entered(y.state, h, own).recv;
    NothingSkipped(entered, SkipUntil(entered, h.n).value);
    if m > 0 {
      TakingCurrentPends(x, r, d.state.recv, k, m);
    } else {
      TakingNewestPends(x, r, d.state.recv, k);
    }
  }

  lemma HearingFlows(x: Side, y: Side, used: set<Pub>, said: seq<string>, heard: seq<string>, own: Pub, remembered: set<string>)
    requires Ready(x, y, used) && Fresh(own, used) && Flows(x, y, said, heard) && |heard| < |x.sent|
    ensures var w := x.sent[|heard|]; var d := Decrypt(y.state, w, own);
      && Honest(x, w) && d == Opened(d.state, said[|heard|])
      && Flows(x, ReceiveBy(y, w, own, remembered), said, heard + [Shown(d)])
  {
    var m: nat :| Pending(x, y.state.recv, |heard|, m);
    HearingPends(x, y, used, |heard|, m, own);
    var y' := ReceiveBy(y, x.sent[|heard|], own, remembered);
    FlowsOn(x, y', said, heard, if m > 0 then m - 1 else |x.sent| - |heard| - 1);
  }

  lemma FlowsOn(x: Side, y: Side, said: seq<string>, heard: seq<string>, m: nat)
    requires |said| == |x.sent| && |heard| < |said|
    requires (forall j | 0 <= j < |said| :: x.sent[j].ct.BodyBox? && x.sent[j].ct.body == said[j])
    requires (forall j | 0 <= j < |heard| :: heard[j] == said[j])
    requires Pending(x, y.state.recv, |heard| + 1, m)
    ensures Flows(x, y, said, heard + [said[|heard|]])
  {
  }

  /** A reader keeps its sending chain, or opens a new one after a root step of the peer. */
  lemma SendingAfterReading(x: Side, y: Side, used: set<Pub>, w: Wire, own: Pub, remembered: set<string>)
    requires Ready(x, y, used) && Honest(x, w) && Decrypt(y.state, w, own).Opened? && w.ct.aad.dh in used
    ensures var y' := ReceiveBy(y, w, own, remembered);
      y'.sent == y.sent && (y'.state.send == y.state.send || (Ahead(x, y) && y'.state.send.dh == own && y'.state.send.n == 0))
  {
    GenuineWire(x, y, used, w, own);
    var h := w.ct.aad;
    if IdOf(h) !in y.state.recv.skipped && h.dh != y.state.recv.remote { NextChain(x, y, h.dh); }
  }

  /** A chain opened after everything sent before leaves the queue as it is. */
  lemma NewChainPends(y: Side, y': Side, r: Receiving, k: nat, m: nat)
    requires Pending(y, r, k, m) && y'.sent == y.sent
    requires y'.state.send == y.state.send || (r.remote == y.state.send.dh && r.remote != y'.state.send.dh && y'.state.send.n == 0)
    ensures Pending(y', r, k, m)
  {
  }

  /** The other direction is not disturbed, even when the listener opens a new chain. */
  lemma HearingKeepsOther(x: Side, y: Side, used: set<Pub>, said: seq<string>, heard: seq<string>, w: Wire, own: Pub, remembered: set<string>)
    requires Ready(x, y, used) && Fresh(own, used) && Honest(x, w) && Decrypt(y.state, w, own).Opened?
    requires Flows(y, x, said, heard)
    ensures Flows(ReceiveBy(y, w, own, remembered), x, said, heard)
  {
    var m: nat :| Pending(y, x.state.recv, |heard|, m);
    SendingAfterReading(x, y, used, w, own, remembered);
    NewChainPends(y, ReceiveBy(y, w, own, remembered), x.state.recv, |heard|, m);
  }

  // ---- whole runs ------------------------------------------------------

  lemma SayKeepsOrder(l: Link, p: Party, body: string, own: Pub)
    requires InOrder(l) && Fresh(own, l.sys.used)
    ensures InOrder(Do(l, Say(p, body, own)))
  {
    ReadySwaps(l.sys.initiator, l.sys.responder, l.sys.used);
    StepKeepsInv(l.sys, Send(p, body, own));
    SayingFlows(Of(l.sys, p), Of(l.sys, Other(p)), l.sys.used, Said(l, p), Heard(l, Other(p)), body, own);
  }

  /** Both directions once the oldest wire of the queue was read. */
  lemma HearingFlowsBoth(x: Side, y: Side, used: set<Pub>, said: seq<string>, heard: seq<string>,
                         saidBack: seq<string>, heardBack: seq<string>, own: Pub, remembered: set<string>)
    requires Ready(x, y, used) && Fresh(own, used) && Flows(x, y, said, heard) && Flows(y, x, saidBack, heardBack) && |heard| < |x.sent|
    ensures var w := x.sent[|heard|];
      && Decrypt(y.state, w, own) == Opened(Decrypt(y.state, w, own).state, said[|heard|])
      && Flows(x, ReceiveBy(y, w, own, remembered), said, heard + [said[|heard|]])
      && Flows(ReceiveBy(y, w, own, remembered), x, saidBack, heardBack)
  {
    HearingFlows(x, y, used, said, heard, own, remembered);
    HearingKeepsOther(x, y, used, saidBack, heardBack, x.sent[|heard|], own, remembered);
  }

  /** What hearing the oldest wire makes of a link, given what it does to the two sides. */
  lemma HearAssembles(l: Link, p: Party, own: Pub, remembered: set<string>, text: string)
    requires CanAct(l, Hear(p, own, remembered)) && Inv(Step(l.sys, Deliver(p, Queue(l, p)[0], own, remembered)))
    requires var x, y, w := Of(l.sys, Other(p)), Of(l.sys, p), Queue(l, p)[0];
      && Shown(Decrypt(y.state, w, own)) == text
      && Flows(x, ReceiveBy(y, w, own, remembered), Said(l, Other(p)), Heard(l, p) + [text])
      && Flows(ReceiveBy(y, w, own, remembered), x, Said(l, p), Heard(l, Other(p)))
    ensures InOrder(Do(l, Hear(p, own, remembered))) && Heard(Do(l, Hear(p, own, remembered)), p) == Heard(l, p) + [text]
  {
  }

  lemma HearKeepsOrder(l: Link, p: Party, own: Pub, remembered: set<string>)
    requires InOrder(l) && CanAct(l, Hear(p, own, remembered))
    ensures InOrder(Do(l, Hear(p, own, remembered)))
    ensures Heard(Do(l, Hear(p, own, remembered)), p) == Heard(l, p) + [Said(l, Other(p))[|Heard(l, p)|]]
  {
    var x, y, w := Of(l.sys, Other(p)), Of(l.sys, p), Queue(l, p)[0];
    ReadySwaps(l.sys.initiator, l.sys.responder, l.sys.used);
    assert w == x.sent[|Heard(l, p)|];
    HearingFlowsBoth(x, y, l.sys.used, Said(l, Other(p)), Heard(l, p), Said(l, p), Heard(l, Other(p)), own, remembered);
    QueueIsAvailable(l, p);
    StepKeepsInv(l.sys, Deliver(p, w, own, remembered));
    HearAssembles(l, p, own, remembered, Said(l, Other(p))[|Heard(l, p)|]);
  }

  lemma QueueIsAvailable(l: Link, p: Party)
    requires |Heard(l, p)| < |Of(l.sys, Other(p)).sent|
    ensures Available(l.sys, Queue(l, p)[0].ct)
  {
    assert Queue(l, p)[0] in Of(l.sys, Other(p)).sent;
  }

  lemma DoKeepsOrder(l: Link, a: Act)
    requires InOrder(l) && CanAct(l, a)
    ensures InOrder(Do(l, a))
    ensures a.Hear? ==> Heard(Do(l, a), a.p) == Heard(l, a.p) + [Said(l, Other(a.p))[|Heard(l, a.p)|]]
  {
    match a
    case Say(p, body, own) => SayKeepsOrder(l, p, body, own);
    case Hear(p, own, remembered) => HearKeepsOrder(l, p, own, remembered);
  }

  function Perform(l: Link, acts: seq<Act>): Link
    requires CanPerform(l, acts)
    decreases |acts|
  {
    if acts == [] then l else Perform(Do(l, acts[0]), acts[1..])
  }

  ghost predicate CanPerform(l: Link, acts: seq<Act>)
    decreases |acts|
  {
    acts == [] || (CanAct(l, acts[0]) && CanPerform(Do(l, acts[0]), acts[1..]))
  }

  lemma {:induction false} PerformKeepsOrder(l: Link, acts: seq<Act>)
    requires InOrder(l) && CanPerform(l, acts)
    ensures InOrder(Perform(l, acts))
    decreases |acts|
  {
    if acts != [] {
      DoKeepsOrder(l, acts[0]);
      PerformKeepsOrder(Do(l, acts[0]), acts[1..]);
    }
  }

  /** A link just after the PQXDH start, nothing said yet. */
  function Connected(root: Key, i0: Pub, r0: Pub, ctxI: Context, ctxR: Context): Link {
    Link(Start(root, i0, r0, ctxI, ctxR), [], [], [], [])
  }

  lemma ConnectedIsInOrder(root: Key, i0: Pub, r0: Pub, ctxI: Context, ctxR: Context)
    requires Paired(ctxI, ctxR) && Fresh(i0, {}) && Fresh(r0, {i0})
    ensures InOrder(Connected(root, i0, r0, ctxI, ctxR))
  {
    var l := Connected(root, i0, r0, ctxI, ctxR);
    StartIsInv(root, i0, r0, ctxI, ctxR);
    assert Pending(l.sys.initiator, l.sys.responder.state.recv, 0, 0);
    assert Pending(l.sys.responder, l.sys.initiator.state.recv, 0, 0);
  }

  lemma OrderMeansAgreement(l: Link, p: Party, own: Pub)
    requires InOrder(l) && Fresh(own, l.sys.used)
    ensures Heard(l, p) <= Said(l, Other(p)) && |Said(l, Other(p))| == |Of(l.sys, Other(p)).sent|
    ensures |Heard(l, p)| < |Said(l, Other(p))| ==>
      var d := Decrypt(Of(l.sys, p).state, Queue(l, p)[0], own);
      d.Opened? && d.body == Said(l, Other(p))[|Heard(l, p)|]
  {
    ReadySwaps(l.sys.initiator, l.sys.responder, l.sys.used);
    if |Heard(l, p)| < |Said(l, Other(p))| {
      HearingFlows(Of(l.sys, Other(p)), Of(l.sys, p), l.sys.used, Said(l, Other(p)), Heard(l, p), own, {});
    }
  }

  /**
   In every interleaving of speaking and hearing, what each party has heard is a
   prefix of what the other has said; and whoever still has a wire in the queue
   will decrypt it to exactly the next thing said.
   */
  lemma FifoAgreement(root: Key, i0: Pub, r0: Pub, ctxI: Context, ctxR: Context, acts: seq<Act>, p: Party, own: Pub)
    requires Paired(ctxI, ctxR) && Fresh(i0, {}) && Fresh(r0, {i0})
    requires CanPerform(Connected(root, i0, r0, ctxI, ctxR), acts)
    requires Fresh(own, Perform(Connected(root, i0, r0, ctxI, ctxR), acts).sys.used)
    ensures var l := Perform(Connected(root, i0, r0, ctxI, ctxR), acts);
      && Heard(l, p) <= Said(l, Other(p)) && |Said(l, Other(p))| == |Of(l.sys, Other(p)).sent|
      && (|Heard(l, p)| < |Said(l, Other(p))| ==>
            var d := Decrypt(Of(l.sys, p).state, Queue(l, p)[0], own);
            d.Opened? && d.body == Said(l, Other(p))[|Heard(l, p)|])
  {
    ConnectedIsInOrder(root, i0, r0, ctxI, ctxR);
    PerformKeepsOrder(Connected(root, i0, r0, ctxI, ctxR), acts);
    OrderMeansAgreement(Perform(Connected(root, i0, r0, ctxI, ctxR), acts), p, own);
  }
}
