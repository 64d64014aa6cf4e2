/**
 Both ends of a DM may start a session before they hear of the other's start. All
 packets of a direction share one first-in-first-out queue; every end sends under
 the smallest session id it knows and reads a wire under the session it names.
 */
module SimultaneousStart {
  import opened Wrappers
  import opened Keys
  import opened Ratchet
  import opened TwoParty
  import opened Fifo
  import SessionMap
  import P = Pqxdh
  import Agreement = PqxdhAgreement
  import Text

  datatype End = A | B

  /**
   One session: `starter` sent the S3PQI message `wire`; `answered` says whether the other
   end has answered it. `reply` is the ratchet key that end will draw for its answer: until
   then its half of the link is what the answer is going to create.
   */
  datatype Session = Session(link: Link, starter: End, answered: bool, wire: P.InitWire, reply: Pub)

  datatype Packet = Init(sid: string, wire: P.InitWire) | Data(w: Wire)

  /** `said` and `shown` are the plaintexts of all sessions together, in order. */
  datatype Post = Post(queue: seq<Packet>, said: seq<string>, shown: seq<string>)

  /** User id and prekey store of an end. */
  datatype Account = Account(uid: int, store: P.Store)

  /** `toA` is the direction from B to A. */
  datatype World = World(sessions: map<string, Session>, toA: Post, toB: Post, atA: Account, atB: Account)

  /** What `initiate_pqxdh_dm` is given and draws, with the key its answer will draw. */
  datatype Opening = Opening(b: P.Bundle, identity: string, conversation: int, version: Option<int>, coins: P.Coins, body: string, reply: Pub)

  datatype Act =
    | Begin(p: End, o: Opening)
    | Speak(p: End, body: string, own: Pub)
    | Take(p: End, own: Pub, remembered: set<string>)

  function Far(p: End): End { if p == A then B else A }

  /** What is on its way to `p`. */
  function To(w: World, p: End): Post { if p == A then w.toA else w.toB }

  function WithTo(w: World, p: End, post: Post): World { if p == A then w.(toA := post) else w.(toB := post) }

  function At(w: World, p: End): Account { if p == A then w.atA else w.atB }

  function WithStore(w: World, p: End, store: P.Store): World {
    if p == A then w.(atA := w.atA.(store := store)) else w.(atB := w.atB.(store := store))
  }

  function RoleIn(x: Session, p: End): Party { if x.starter == p then Initiator else Responder }

  predicate Knows(x: Session, p: End) { x.starter == p || x.answered }

  function Known(w: World, p: End): set<string> {
    set s | s in w.sessions && Knows(w.sessions[s], p)
  }

  /** The current session of an end that has one. */
  function Current(w: World, p: End): string
    requires Known(w, p) != {}
  {
    Text.Min(Known(w, p))
  }

  /** The session that gets a wire, as `_state_for_double_ratchet_wire` selects it. */
  function Target(w: World, p: End, wire: Wire): string
    requires Known(w, p) != {}
  {
    SessionMap.TargetSid(Known(w, p), Current(w, p), wire)
  }

  // ---- steps -----------------------------------------------------------

  function SpokenLink(l: Link, r: Party, body: string, own: Pub): Link { Do(l, Say(r, body, own)) }

  /** A wire is read by one half of a session; the client shows its body or a placeholder. */
  function ReadLink(l: Link, r: Party, w: Wire, own: Pub, remembered: set<string>): Link {
    var sys := TwoParty.Step(l.sys, Deliver(r, w, own, remembered));
    var text := Shown(Decrypt(Of(l.sys, r).state, w, own));
    if r == Initiator then l.(sys := sys, heardI := l.heardI + [text]) else l.(sys := sys, heardR := l.heardR + [text])
  }

  function Put(w: World, s: string, l: Link): World
    requires s in w.sessions
  {
    w.(sessions := w.sessions[s := w.sessions[s].(link := l)])
  }

  /** What `pqxdh_initiate` makes of an opening. */
  function Made(w: World, p: End, o: Opening): Result<(P.InitWire, State, (string, string)), P.Error> {
    P.Initiate(o.b, At(w, p).store, o.identity, P.Parties(At(w, p).uid, At(w, Far(p)).uid, o.conversation, o.version), o.coins, o.body)
  }

  /** The ids a state is bound to, from the other side. */
  function Mirror(c: Context): Context { Context(c.sid, c.conversation, c.peer, c.me, c.identityVersion) }

  /** The session of a state just initiated. */
  function NewSession(w: World, p: End, o: Opening, wire: P.InitWire, si: State): Session {
    Session(Connected(P.InitiatorRoot(o.b, At(w, p).store, o.coins), o.coins.ratchet, o.reply, si.ctx, Mirror(si.ctx)), p, false, wire, o.reply)
  }

  /** The text of an S3PQI message, unless it is the marker of an empty start. */
  function TextsOf(body: string): seq<string> {
    match SessionMap.Shown(body) case Message(text) => [text] case _ => []
  }

  /** The texts a packet brings. */
  function Texts(x: Packet): seq<string> {
    match x
    case Init(_, wire) => if wire.ct.InitBox? then TextsOf(wire.ct.body) else []
    case Data(w) => if w.ct.BodyBox? then [w.ct.body] else []
  }

  /** What `pqxdh_respond` answers an S3PQI message with, as the store of `p` is. */
  function Answer(w: World, p: End, wire: P.InitWire, own: Pub): Result<P.Responded, P.Error> {
    P.Response(At(w, p).store, wire, At(w, p).uid, own, "")
  }

  /**
   A start needs no session and a bundle of the other end, made of keys its store has;
   whoever reads a start draws the key the start was told of.
   */
  ghost predicate CanDo(w: World, act: Act) {
    match act
    case Begin(p, o) =>
      && Known(w, p) == {} && o.coins.sid != "" && o.coins.sid !in w.sessions
      && Fresh(o.coins.ratchet, {}) && Fresh(o.reply, {o.coins.ratchet})
      && Made(w, p, o).Success? && o.b.identity == At(w, Far(p)).store.identity
      && Agreement.CanAnswer(At(w, Far(p)).store, o.b, Made(w, p, o).value.0.payload)
    case Speak(p, _, own) =>
      Known(w, p) != {} && Fresh(own, w.sessions[Current(w, p)].link.sys.used)
    case Take(p, own, remembered) =>
      && To(w, p).queue != []
      && (To(w, p).queue[0].Init? && To(w, p).queue[0].sid in w.sessions ==> own == w.sessions[To(w, p).queue[0].sid].reply)
      && (To(w, p).queue[0].Data? && Known(w, p) != {} ==>
            var x := w.sessions[Target(w, p, To(w, p).queue[0].w)];
            && Fresh(own, x.link.sys.used)
            && remembered <= SeenAfter(Of(x.link.sys, RoleIn(x, p)).state, To(w, p).queue[0].w, own))
  }

  /** The session whose answering half is now `state`. */
  function AnsweredWith(x: Session, state: State): Session {
    x.(answered := true, link := x.link.(sys := x.link.sys.(responder := x.link.sys.responder.(state := state))))
  }

  /** Reading a start: a known id changes nothing, nor does one that cannot be answered. */
  function TakeInit(w: World, p: End, s: string, wire: P.InitWire, own: Pub): World {
    if s in Known(w, p) || s !in w.sessions then w
    else
      match Answer(w, p, wire, own)
      case Failure(_) => w
      case Success(r) =>
        var post := To(w, p);
        WithTo(WithStore(w.(sessions := w.sessions[s := AnsweredWith(w.sessions[s], r.state)]), p, P.WithoutNamed(At(w, p).store, wire.payload)),
               p, post.(shown := post.shown + TextsOf(r.body)))
  }

  /** What `decrypt_live_message` does with a packet; without any session a wire stays unread. */
  function TakePacket(w: World, p: End, packet: Packet, own: Pub, remembered: set<string>): World {
    match packet
    case Init(s, wire) => TakeInit(w, p, s, wire, own)
    case Data(wire) =>
      if Known(w, p) == {} then w
      else
        var s := Target(w, p, wire);
        var x := w.sessions[s];
        var text := Shown(Decrypt(Of(x.link.sys, RoleIn(x, p)).state, wire, own));
        WithTo(Put(w, s, ReadLink(x.link, RoleIn(x, p), wire, own, remembered)), p, To(w, p).(shown := To(w, p).shown + [text]))
  }

  function Act1(w: World, act: Act): World
    requires CanDo(w, act)
  {
    match act
    case Begin(p, o) =>
      var (wire, si, _) := Made(w, p, o).value;
      var post := To(w, Far(p));
      WithTo(w.(sessions := w.sessions[o.coins.sid := NewSession(w, p, o, wire, si)]), Far(p),
             post.(queue := post.queue + [Init(o.coins.sid, wire)], said := post.said + Texts(Init(o.coins.sid, wire))))
    case Speak(p, body, own) =>
      var s := Current(w, p);
      var x, post := w.sessions[s], To(w, Far(p));
      var wire := Encrypt(Of(x.link.sys, RoleIn(x, p)).state, body, own).1;
      WithTo(Put(w, s, SpokenLink(x.link, RoleIn(x, p), body, own)), Far(p),
             post.(queue := post.queue + [Data(wire)], said := post.said + [body]))
    case Take(p, own, remembered) =>
      var post := To(w, p);
      TakePacket(WithTo(w, p, post.(queue := post.queue[1..])), p, post.queue[0], own, remembered)
  }

  // ---- the invariant ---------------------------------------------------

  /** The wires of session `s` in a queue. */
  function WiresOf(q: seq<Packet>, s: string): seq<Wire> {
    if q == [] then []
    else if q[0].Data? && q[0].w.sid == s then [q[0].w] + WiresOf(q[1..], s)
    else WiresOf(q[1..], s)
  }

  function Bodies(q: seq<Packet>): seq<string> {
    if q == [] then []
    else Texts(q[0]) + Bodies(q[1..])
  }

  /** What an end will know once it has read the queue. */
  function KnownAfter(q: seq<Packet>, known: set<string>): set<string> {
    if q == [] then known
    else KnownAfter(q[1..], if q[0].Init? then known + {q[0].sid} else known)
  }

  /** A session's start comes before its wires, and only once. */
  predicate StartsFirst(q: seq<Packet>, known: set<string>) {
    if q == [] then true
    else match q[0]
      case Init(s, _) => s !in known && StartsFirst(q[1..], known + {s})
      case Data(w) => w.sid in known && SessionMap.RoutingSid(w) == w.sid && w.ct.BodyBox? && StartsFirst(q[1..], known)
  }

  /** One session by itself: it is in order, under its own id, and unused by an end that has not heard of it. */
  ghost predicate Fine(s: string, x: Session) {
    && InOrder(x.link) && s != ""
    && x.link.sys.initiator.state.ctx.sid == s && x.link.sys.responder.state.ctx.sid == s
    && (!x.answered ==> x.link.saidR == [] && x.link.heardR == [])
  }

  /** The wires of every session in the queue to `p` are what its link says is on the way. */
  ghost predicate Carries(sessions: map<string, Session>, p: End, q: seq<Packet>) {
    forall s | s in sessions :: Pendings(sessions[s], p, WiresOf(q, s))
  }

  ghost predicate Pendings(x: Session, p: End, wires: seq<Wire>) {
    var r := RoleIn(x, p);
    |Heard(x.link, r)| <= |Of(x.link.sys, Other(r)).sent| && Queue(x.link, r) == wires
  }

  ghost predicate AllFine(sessions: map<string, Session>) {
    forall s | s in sessions :: Fine(s, sessions[s])
  }

  /** One direction: what was shown, with the queue, is what was said; the queue tells `p` of every session. */
  ghost predicate Delivers(sessions: map<string, Session>, p: End, known: set<string>, post: Post) {
    && Carries(sessions, p, post.queue)
    && StartsFirst(post.queue, known) && KnownAfter(post.queue, known) == sessions.Keys
    && post.shown + Bodies(post.queue) == post.said
  }

  /** The starts in the queue to `p` are those of sessions the other end started. */
  ghost predicate Announces(sessions: map<string, Session>, p: End, q: seq<Packet>) {
    forall i | 0 <= i < |q| && q[i].Init? :: Announced(sessions, p, q[i].sid, q[i].wire)
  }

  ghost predicate Announced(sessions: map<string, Session>, p: End, s: string, wire: P.InitWire) {
    s in sessions && sessions[s].wire == wire && sessions[s].starter == Far(p) && wire.payload.sid == s
  }

  /** The answer the other end will give creates the half it does not know of yet. */
  ghost predicate Awaits(x: Session, at: Account) {
    var r := P.Response(at.store, x.wire, at.uid, x.reply, "");
    r.Success? && r.value.state == x.link.sys.responder.state && x.wire.ct.InitBox? && r.value.body == x.wire.ct.body
  }

  /** Each end has started one session at most, and the other end can answer it. */
  ghost predicate Answerable(w: World) {
    && (forall s | s in w.sessions && !w.sessions[s].answered :: Awaits(w.sessions[s], At(w, Far(w.sessions[s].starter))))
    && (forall s, t | s in w.sessions && t in w.sessions && w.sessions[s].starter == w.sessions[t].starter :: s == t)
    && (forall p :: Announces(w.sessions, p, To(w, p).queue))
    && w.atA.uid != w.atB.uid && w.atA.uid != 0 && w.atB.uid != 0
  }

  ghost predicate Flowing(w: World) {
    Delivers(w.sessions, A, Known(w, A), w.toA) && Delivers(w.sessions, B, Known(w, B), w.toB)
  }

  ghost predicate Sound(w: World) {
    AllFine(w.sessions) && Flowing(w) && Answerable(w)
  }

  // ---- queues ----------------------------------------------------------

  lemma {:induction false} AppendWires(q: seq<Packet>, x: Packet, s: string)
    ensures WiresOf(q + [x], s) == WiresOf(q, s) + (if x.Data? && x.w.sid == s then [x.w] else [])
  {
    if q != [] {
      assert (q + [x])[1..] == q[1..] + [x];
      AppendWires(q[1..], x, s);
    }
  }

  lemma {:induction false} AppendBodies(q: seq<Packet>, x: Packet)
    ensures Bodies(q + [x]) == Bodies(q) + Texts(x)
  {
    if q != [] {
      assert (q + [x])[1..] == q[1..] + [x];
      AppendBodies(q[1..], x);
    }
  }

  /** A packet that may follow a queue: a start nobody knows, or a wire of a session known by then. */
  predicate MayFollow(x: Packet, known: set<string>) {
    match x
    case Init(s, _) => s !in known
    case Data(w) => w.sid in known && SessionMap.RoutingSid(w) == w.sid && w.ct.BodyBox?
  }

  lemma {:induction false} AppendStarts(q: seq<Packet>, x: Packet, known: set<string>)
    requires StartsFirst(q, known) && MayFollow(x, KnownAfter(q, known))
    ensures StartsFirst(q + [x], known)
    ensures KnownAfter(q + [x], known) == KnownAfter(q, known) + (if x.Init? then {x.sid} else {})
  {
    if q != [] {
      assert (q + [x])[1..] == q[1..] + [x];
      AppendStarts(q[1..], x, if q[0].Init? then known + {q[0].sid} else known);
    } else {
      assert (q + [x])[1..] == [];
    }
  }

  lemma {:induction false} KnownGrows(q: seq<Packet>, known: set<string>)
    ensures known <= KnownAfter(q, known)
  {
    if q != [] { KnownGrows(q[1..], if q[0].Init? then known + {q[0].sid} else known); }
  }

  /** A session nobody will know has no wires in the queue. */
  lemma {:induction false} UnknownHasNoWires(q: seq<Packet>, known: set<string>, s: string)
    requires StartsFirst(q, known) && s !in KnownAfter(q, known)
    ensures WiresOf(q, s) == []
  {
    if q != [] {
      KnownGrows(q, known);
      UnknownHasNoWires(q[1..], if q[0].Init? then known + {q[0].sid} else known, s);
    }
  }

  // ---- one session -----------------------------------------------------

  /** What speaking changes in a link: one wire and one text more. */
  lemma SpeakingMoves(l: Link, r: Party, body: string, own: Pub)
    ensures var l', o, wire := SpokenLink(l, r, body, own), Other(r), Encrypt(Of(l.sys, r).state, body, own).1;
      && Heard(l', r) == Heard(l, r) && Heard(l', o) == Heard(l, o) && Said(l', o) == Said(l, o)
      && Of(l'.sys, r).sent == Of(l.sys, r).sent + [wire] && Of(l'.sys, o) == Of(l.sys, o)
      && Of(l'.sys, r).state.ctx == Of(l.sys, r).state.ctx
  {
  }

  lemma SpokenWire(s: State, body: string, own: Pub)
    requires s.ctx.sid != ""
    ensures var wire := Encrypt(s, body, own).1;
      wire.sid == s.ctx.sid == SessionMap.RoutingSid(wire) && wire.ct.BodyBox? && wire.ct.body == body
  {
  }

  /** What reading changes in a link: one text more. */
  lemma ReadingMoves(l: Link, r: Party, w: Wire, own: Pub, remembered: set<string>)
    ensures var l', o, d := ReadLink(l, r, w, own, remembered), Other(r), Decrypt(Of(l.sys, r).state, w, own);
      && Heard(l', r) == Heard(l, r) + [Shown(d)] && Heard(l', o) == Heard(l, o) && Said(l', o) == Said(l, o) && Said(l', r) == Said(l, r)
      && Of(l'.sys, r).sent == Of(l.sys, r).sent && Of(l'.sys, o) == Of(l.sys, o)
      && Of(l'.sys, r).state.ctx == Of(l.sys, r).state.ctx
  {
    DecryptKeepsContext(Of(l.sys, r).state, w, own);
  }

  lemma ReadingIsHearing(l: Link, r: Party, own: Pub, remembered: set<string>)
    requires |Heard(l, r)| < |Of(l.sys, Other(r)).sent|
    ensures ReadLink(l, r, Queue(l, r)[0], own, remembered) == Do(l, Hear(r, own, remembered))
  {
  }

  lemma SpeakingIsFine(s: string, x: Session, p: End, body: string, own: Pub)
    requires Fine(s, x) && Knows(x, p) && Fresh(own, x.link.sys.used)
    ensures Fine(s, x.(link := SpokenLink(x.link, RoleIn(x, p), body, own)))
  {
    SpeakingMoves(x.link, RoleIn(x, p), body, own);
    DoKeepsOrder(x.link, Say(RoleIn(x, p), body, own));
  }

  lemma SpeakingPends(x: Session, p: End, body: string, own: Pub, q: seq<Wire>, back: seq<Wire>)
    requires Pendings(x, Far(p), q) && Pendings(x, p, back)
    ensures var x', wire := x.(link := SpokenLink(x.link, RoleIn(x, p), body, own)), Encrypt(Of(x.link.sys, RoleIn(x, p)).state, body, own).1;
      Pendings(x', Far(p), q + [wire]) && Pendings(x', p, back)
  {
    SpeakingMoves(x.link, RoleIn(x, p), body, own);
  }

  lemma ReadingPends(x: Session, p: End, wires: seq<Wire>, back: seq<Wire>, own: Pub, remembered: set<string>)
    requires wires != [] && Pendings(x, p, wires) && Pendings(x, Far(p), back)
    ensures var x' := x.(link := ReadLink(x.link, RoleIn(x, p), wires[0], own, remembered));
      Pendings(x', p, wires[1..]) && Pendings(x', Far(p), back)
  {
    ReadingMoves(x.link, RoleIn(x, p), wires[0], own, remembered);
  }

  lemma InOrderBody(l: Link, r: Party)
    requires InOrder(l) && |Heard(l, r)| < |Of(l.sys, Other(r)).sent|
    ensures var w := Queue(l, r)[0];
      |Heard(l, r)| < |Said(l, Other(r))| && w.ct.BodyBox? && w.ct.body == Said(l, Other(r))[|Heard(l, r)|]
  {
  }

  lemma ReadingIsFine(s: string, x: Session, p: End, wires: seq<Wire>, own: Pub, remembered: set<string>)
    requires Fine(s, x) && Knows(x, p) && Fresh(own, x.link.sys.used) && wires != [] && Pendings(x, p, wires)
    requires remembered <= SeenAfter(Of(x.link.sys, RoleIn(x, p)).state, wires[0], own)
    ensures Fine(s, x.(link := ReadLink(x.link, RoleIn(x, p), wires[0], own, remembered)))
    ensures var d := Decrypt(Of(x.link.sys, RoleIn(x, p)).state, wires[0], own);
      d.Opened? && wires[0].ct.BodyBox? && d.body == wires[0].ct.body
  {
    var r := RoleIn(x, p);
    ReadingMoves(x.link, r, wires[0], own, remembered);
    ReadingIsHearing(x.link, r, own, remembered);
    OrderMeansAgreement(x.link, r, own);
    InOrderBody(x.link, r);
    DoKeepsOrder(x.link, Hear(r, own, remembered));
  }

  lemma SpeakingInSession(s: string, x: Session, p: End, body: string, own: Pub, q: seq<Wire>, back: seq<Wire>)
    requires Fine(s, x) && Knows(x, p) && Fresh(own, x.link.sys.used) && Pendings(x, Far(p), q) && Pendings(x, p, back)
    ensures var x' := x.(link := SpokenLink(x.link, RoleIn(x, p), body, own));
            var wire := Encrypt(Of(x.link.sys, RoleIn(x, p)).state, body, own).1;
      && Fine(s, x') && Pendings(x', Far(p), q + [wire]) && Pendings(x', p, back)
      && wire.sid == s && SessionMap.RoutingSid(wire) == s && wire.ct.BodyBox? && wire.ct.body == body
  {
    SpeakingIsFine(s, x, p, body, own);
    SpokenWire(Of(x.link.sys, RoleIn(x, p)).state, body, own);
    SpeakingPends(x, p, body, own, q, back);
  }

  lemma ReadingInSession(s: string, x: Session, p: End, wires: seq<Wire>, back: seq<Wire>, own: Pub, remembered: set<string>)
    requires Fine(s, x) && Knows(x, p) && Fresh(own, x.link.sys.used) && wires != []
    requires Pendings(x, p, wires) && Pendings(x, Far(p), back)
    requires remembered <= SeenAfter(Of(x.link.sys, RoleIn(x, p)).state, wires[0], own)
    ensures var x' := x.(link := ReadLink(x.link, RoleIn(x, p), wires[0], own, remembered));
            var d := Decrypt(Of(x.link.sys, RoleIn(x, p)).state, wires[0], own);
      && Fine(s, x') && Pendings(x', p, wires[1..]) && Pendings(x', Far(p), back)
      && d.Opened? && wires[0].ct.BodyBox? && d.body == wires[0].ct.body
  {
    ReadingIsFine(s, x, p, wires, own, remembered);
    ReadingPends(x, p, wires, back, own, remembered);
  }

  lemma BeginIsFine(root: Key, i0: Pub, r0: Pub, ctxI: Context, ctxR: Context, p: End, wire: P.InitWire)
    requires Paired(ctxI, ctxR) && ctxI.sid != "" && Fresh(i0, {}) && Fresh(r0, {i0})
    ensures var x := Session(Connected(root, i0, r0, ctxI, ctxR), p, false, wire, r0);
      Fine(ctxI.sid, x) && Pendings(x, A, []) && Pendings(x, B, [])
  {
    ConnectedIsInOrder(root, i0, r0, ctxI, ctxR);
  }

  // ---- every step, one direction at a time -----------------------------

  lemma CarriesPut(sessions: map<string, Session>, s: string, x: Session, e: End, q: seq<Packet>, q': seq<Packet>)
    requires Carries(sessions, e, q) && Pendings(x, e, WiresOf(q', s))
    requires forall t | t in sessions && t != s :: WiresOf(q', t) == WiresOf(q, t)
    ensures Carries(sessions[s := x], e, q')
  {
    forall t | t in sessions[s := x] ensures Pendings(sessions[s := x][t], e, WiresOf(q', t)) {
      if t != s { assert Pendings(sessions[t], e, WiresOf(q, t)); }
    }
  }

  lemma CarriesPost(sessions: map<string, Session>, p: End, q: seq<Packet>, s: string, x: Session, packet: Packet)
    requires Carries(sessions, p, q) && ((packet.Init? && packet.sid == s) || (packet.Data? && packet.w.sid == s))
    requires Pendings(x, p, WiresOf(q, s) + (if packet.Data? then [packet.w] else []))
    ensures Carries(sessions[s := x], p, q + [packet])
  {
    forall t ensures WiresOf(q + [packet], t) == WiresOf(q, t) + (if packet.Data? && packet.w.sid == t then [packet.w] else []) {
      AppendWires(q, packet, t);
    }
    CarriesPut(sessions, s, x, p, q, q + [packet]);
  }

  /** A packet joins the queue, and session `s` moves or appears. */
  lemma PostingDelivers(sessions: map<string, Session>, p: End, known: set<string>, post: Post, s: string, x: Session, packet: Packet)
    requires Delivers(sessions, p, known, post) && MayFollow(packet, sessions.Keys)
    requires (packet.Init? && packet.sid == s) || (packet.Data? && packet.w.sid == s)
    requires Pendings(x, p, WiresOf(post.queue, s) + (if packet.Data? then [packet.w] else []))
    ensures Delivers(sessions[s := x], p, known, Post(post.queue + [packet], post.said + Texts(packet), post.shown))
  {
    CarriesPost(sessions, p, post.queue, s, x, packet);
    AppendStarts(post.queue, packet, known);
    AppendBodies(post.queue, packet);
    assert sessions[s := x].Keys == sessions.Keys + {s};
    TextsAppend(post.shown, Bodies(post.queue), Texts(packet), post.said);
  }

  lemma TextsAppend(shown: seq<string>, bodies: seq<string>, texts: seq<string>, said: seq<string>)
    requires shown + bodies == said
    ensures shown + (bodies + texts) == said + texts
  {
  }

  lemma SkipData(q: seq<Packet>, w: Wire)
    requires q != [] && q[0] == Data(w)
    ensures w.ct.BodyBox? ==> Bodies(q) == [w.ct.body] + Bodies(q[1..])
    ensures forall t | t != w.sid :: WiresOf(q, t) == WiresOf(q[1..], t)
  {
  }

  lemma SkipInit(q: seq<Packet>)
    requires q != [] && q[0].Init?
    ensures Bodies(q) == Texts(q[0]) + Bodies(q[1..]) && forall t :: WiresOf(q, t) == WiresOf(q[1..], t)
  {
  }

  /** The oldest packet is a wire of session `s`, which moves. */
  lemma TakingDelivers(sessions: map<string, Session>, p: End, known: set<string>, post: Post, x: Session)
    requires Delivers(sessions, p, known, post) && post.queue != [] && post.queue[0].Data?
    requires Pendings(x, p, WiresOf(post.queue[1..], post.queue[0].w.sid)) && post.queue[0].w.sid in sessions
    ensures Delivers(sessions[post.queue[0].w.sid := x], p, known, Post(post.queue[1..], post.said, post.shown + [post.queue[0].w.ct.body]))
  {
    var q, w := post.queue[1..], post.queue[0].w;
    SkipData(post.queue, w);
    assert Carries(sessions[w.sid := x], p, q) by { CarriesPut(sessions, w.sid, x, p, post.queue, q); }
    assert sessions[w.sid := x].Keys == sessions.Keys;
    TextsMove(post.shown, [w.ct.body], Bodies(q), post.said);
  }

  lemma TextsMove(shown: seq<string>, texts: seq<string>, bodies: seq<string>, said: seq<string>)
    requires shown + (texts + bodies) == said
    ensures shown + texts + bodies == said
  {
  }

  /** The oldest packet is the start of session `s`. */
  lemma LearningDelivers(sessions: map<string, Session>, p: End, known: set<string>, post: Post, s: string, x: Session)
    requires Delivers(sessions, p, known, post) && post.queue != [] && post.queue[0].Init? && post.queue[0].sid == s && s in sessions
    requires Pendings(x, p, WiresOf(post.queue, s))
    ensures Delivers(sessions[s := x], p, known + {s}, Post(post.queue[1..], post.said, post.shown + Texts(post.queue[0])))
  {
    var q := post.queue[1..];
    SkipInit(post.queue);
    TextsMove(post.shown, Texts(post.queue[0]), Bodies(q), post.said);
    assert Carries(sessions[s := x], p, q) by { CarriesPut(sessions, s, x, p, post.queue, q); }
    assert sessions[s := x].Keys == sessions.Keys;
  }

  /** The queue stands still while session `s`, known already, moves. */
  lemma StandingDelivers(sessions: map<string, Session>, p: End, known: set<string>, post: Post, s: string, x: Session)
    requires Delivers(sessions, p, known, post) && s in sessions && Pendings(x, p, WiresOf(post.queue, s))
    ensures Delivers(sessions[s := x], p, known, post)
  {
    CarriesPut(sessions, s, x, p, post.queue, post.queue);
  }

  lemma {:induction false} LearnEarly(q: seq<Packet>, known: set<string>, s: string)
    requires StartsFirst(q, known) && s !in KnownAfter(q, known)
    ensures StartsFirst(q, known + {s}) && KnownAfter(q, known + {s}) == KnownAfter(q, known) + {s}
  {
    if q != [] {
      KnownGrows(q, known);
      match q[0]
      case Data(_) => LearnEarly(q[1..], known, s);
      case Init(t, _) =>
        KnownGrows(q[1..], known + {t});
        assert known + {s} + {t} == known + {t} + {s};
        LearnEarly(q[1..], known + {t}, s);
    }
  }

  /** `p` itself starts session `s`. */
  lemma BeginningDelivers(sessions: map<string, Session>, p: End, known: set<string>, post: Post, s: string, x: Session)
    requires Delivers(sessions, p, known, post) && s !in sessions && Pendings(x, p, [])
    ensures Delivers(sessions[s := x], p, known + {s}, post)
  {
    UnknownHasNoWires(post.queue, known, s);
    CarriesPut(sessions, s, x, p, post.queue, post.queue);
    LearnEarly(post.queue, known, s);
  }

  /** The oldest packet of a queue, when it is a wire, is the oldest wire of its session. */
  lemma HeadWire(sessions: map<string, Session>, p: End, known: set<string>, post: Post)
    requires Delivers(sessions, p, known, post) && post.queue != [] && post.queue[0].Data?
    ensures var w := post.queue[0].w;
      && w.sid in known && SessionMap.RoutingSid(w) == w.sid && WiresOf(post.queue, w.sid) == [w] + WiresOf(post.queue[1..], w.sid)
  {
  }

  lemma FinePut(sessions: map<string, Session>, s: string, x: Session)
    requires AllFine(sessions) && Fine(s, x)
    ensures AllFine(sessions[s := x])
  {
    var m := sessions[s := x];
    forall t | t in m ensures Fine(t, m[t]) {
      if t != s { assert Fine(t, sessions[t]); }
    }
  }

  // ---- every step of the world -----------------------------------------

  /** Both directions, seen from either end. */
  lemma BothDeliver(w: World, p: End)
    ensures Flowing(w) <==>
      Delivers(w.sessions, p, Known(w, p), To(w, p)) && Delivers(w.sessions, Far(p), Known(w, Far(p)), To(w, Far(p)))
  {
  }

  lemma SessionsMove(w: World, s: string, x: Session, e: End, w': World)
    requires s in w.sessions && w'.sessions == w.sessions[s := x]
    requires Knows(x, e) <==> Knows(w.sessions[s], e)
    ensures Known(w', e) == Known(w, e)
  {
  }

  lemma SessionsLearn(w: World, s: string, x: Session, e: End, w': World)
    requires w'.sessions == w.sessions[s := x] && Knows(x, e)
    ensures Known(w', e) == Known(w, e) + {s}
  {
  }

  lemma SessionsUnheard(w: World, s: string, x: Session, e: End, w': World)
    requires s !in w.sessions && w'.sessions == w.sessions[s := x] && !Knows(x, e)
    ensures Known(w', e) == Known(w, e)
  {
  }

  /** Session `s` of `w` has moved, and `p` has put a wire of it in the other end's queue. */
  lemma WorldSpeaks(w: World, p: End, s: string, x: Session, wire: Wire, w': World)
    requires Flowing(w) && s in w.sessions && w'.sessions == w.sessions[s := x]
    requires forall e :: Knows(x, e) <==> Knows(w.sessions[s], e)
    requires MayFollow(Data(wire), w.sessions.Keys) && wire.sid == s
    requires var post := To(w, Far(p)); To(w', Far(p)) == Post(post.queue + [Data(wire)], post.said + [wire.ct.body], post.shown)
    requires To(w', p) == To(w, p)
    requires Pendings(x, Far(p), WiresOf(To(w, Far(p)).queue, s) + [wire]) && Pendings(x, p, WiresOf(To(w, p).queue, s))
    ensures Flowing(w')
  {
    BothDeliver(w, p);
    PostingDelivers(w.sessions, Far(p), Known(w, Far(p)), To(w, Far(p)), s, x, Data(wire));
    StandingDelivers(w.sessions, p, Known(w, p), To(w, p), s, x);
    SessionsMove(w, s, x, p, w');
    SessionsMove(w, s, x, Far(p), w');
    BothDeliver(w', p);
  }

  /** Session `s` of `w` has moved by reading the oldest packet of `p`'s queue. */
  lemma WorldReads(w: World, p: End, s: string, x: Session, w': World)
    requires Flowing(w) && s in w.sessions && w'.sessions == w.sessions[s := x]
    requires forall e :: Knows(x, e) <==> Knows(w.sessions[s], e)
    requires To(w, p).queue != [] && To(w, p).queue[0].Data? && To(w, p).queue[0].w.sid == s
    requires var post := To(w, p); To(w', p) == Post(post.queue[1..], post.said, post.shown + [post.queue[0].w.ct.body])
    requires To(w', Far(p)) == To(w, Far(p))
    requires Pendings(x, p, WiresOf(To(w, p).queue[1..], s)) && Pendings(x, Far(p), WiresOf(To(w, Far(p)).queue, s))
    ensures Flowing(w')
  {
    BothDeliver(w, p);
    TakingDelivers(w.sessions, p, Known(w, p), To(w, p), x);
    StandingDelivers(w.sessions, Far(p), Known(w, Far(p)), To(w, Far(p)), s, x);
    SessionsMove(w, s, x, p, w');
    SessionsMove(w, s, x, Far(p), w');
    BothDeliver(w', p);
  }

  /** The oldest packet of `p`'s queue has told it of session `s`. */
  lemma WorldLearns(w: World, p: End, s: string, x: Session, w': World)
    requires Flowing(w) && s in w.sessions && w'.sessions == w.sessions[s := x]
    requires !Knows(w.sessions[s], p) && Knows(x, A) && Knows(x, B) && Knows(w.sessions[s], Far(p))
    requires To(w, p).queue != [] && To(w, p).queue[0].Init? && To(w, p).queue[0].sid == s
    requires var post := To(w, p); To(w', p) == Post(post.queue[1..], post.said, post.shown + Texts(post.queue[0]))
    requires To(w', Far(p)) == To(w, Far(p))
    requires Pendings(x, p, WiresOf(To(w, p).queue, s)) && Pendings(x, Far(p), WiresOf(To(w, Far(p)).queue, s))
    ensures Flowing(w')
  {
    BothDeliver(w, p);
    LearningDelivers(w.sessions, p, Known(w, p), To(w, p), s, x);
    StandingDelivers(w.sessions, Far(p), Known(w, Far(p)), To(w, Far(p)), s, x);
    SessionsMove(w, s, x, Far(p), w');
    SessionsLearn(w, s, x, p, w');
    BothDeliver(w', p);
  }

  /** `p` has started session `s` and posted its start. */
  lemma WorldBegins(w: World, p: End, s: string, x: Session, wire: P.InitWire, w': World)
    requires Flowing(w) && s !in w.sessions && w'.sessions == w.sessions[s := x]
    requires Knows(x, p) && !Knows(x, Far(p))
    requires var post := To(w, Far(p)); To(w', Far(p)) == Post(post.queue + [Init(s, wire)], post.said + Texts(Init(s, wire)), post.shown)
    requires To(w', p) == To(w, p) && Pendings(x, A, []) && Pendings(x, B, [])
    ensures Flowing(w')
  {
    var post, known := To(w, Far(p)), Known(w, Far(p));
    BothDeliver(w, p);
    UnknownHasNoWires(post.queue, known, s);
    PostingDelivers(w.sessions, Far(p), known, post, s, x, Init(s, wire));
    BeginningDelivers(w.sessions, p, Known(w, p), To(w, p), s, x);
    SessionsLearn(w, s, x, p, w');
    SessionsUnheard(w, s, x, Far(p), w');
    BothDeliver(w', p);
  }

  /** What `Sound` says of one session and both queues. */
  lemma SoundParts(w: World, p: End, s: string)
    requires Sound(w) && s in w.sessions
    ensures Fine(s, w.sessions[s])
    ensures Pendings(w.sessions[s], p, WiresOf(To(w, p).queue, s)) && Pendings(w.sessions[s], Far(p), WiresOf(To(w, Far(p)).queue, s))
  {
    BothDeliver(w, p);
  }

  lemma SpeakShape(w: World, p: End, body: string, own: Pub)
    requires CanDo(w, Speak(p, body, own))
    ensures var w', s, post := Act1(w, Speak(p, body, own)), Current(w, p), To(w, Far(p));
      var x := w.sessions[s];
      && w'.sessions == w.sessions[s := x.(link := SpokenLink(x.link, RoleIn(x, p), body, own))] && To(w', p) == To(w, p)
      && To(w', Far(p)) == Post(post.queue + [Data(Encrypt(Of(x.link.sys, RoleIn(x, p)).state, body, own).1)], post.said + [body], post.shown)
      && w'.atA == w.atA && w'.atB == w.atB
  {
  }

  lemma TakeWireShape(w: World, p: End, own: Pub, remembered: set<string>, s: string)
    requires CanDo(w, Take(p, own, remembered)) && To(w, p).queue[0].Data?
    requires s in Known(w, p) && s == Target(w, p, To(w, p).queue[0].w)
    ensures var w', post, x := Act1(w, Take(p, own, remembered)), To(w, p), w.sessions[s];
      var text := Shown(Decrypt(Of(x.link.sys, RoleIn(x, p)).state, post.queue[0].w, own));
      && w'.sessions == w.sessions[s := x.(link := ReadLink(x.link, RoleIn(x, p), post.queue[0].w, own, remembered))]
      && To(w', Far(p)) == To(w, Far(p)) && To(w', p) == Post(post.queue[1..], post.said, post.shown + [text])
      && w'.atA == w.atA && w'.atB == w.atB
  {
    var w0 := WithTo(w, p, To(w, p).(queue := To(w, p).queue[1..]));
    assert Known(w0, p) == Known(w, p);
  }

  lemma TakeInitShape(w: World, p: End, own: Pub, remembered: set<string>)
    requires CanDo(w, Take(p, own, remembered)) && To(w, p).queue[0].Init?
    requires To(w, p).queue[0].sid in w.sessions && To(w, p).queue[0].sid !in Known(w, p)
    requires Answer(w, p, To(w, p).queue[0].wire, own).Success?
    ensures var w', s, wire, post := Act1(w, Take(p, own, remembered)), To(w, p).queue[0].sid, To(w, p).queue[0].wire, To(w, p);
      var r := Answer(w, p, wire, own).value;
      && w'.sessions == w.sessions[s := AnsweredWith(w.sessions[s], r.state)] && To(w', Far(p)) == To(w, Far(p))
      && To(w', p) == Post(post.queue[1..], post.said, post.shown + TextsOf(r.body))
      && At(w', p) == Account(At(w, p).uid, P.WithoutNamed(At(w, p).store, wire.payload)) && At(w', Far(p)) == At(w, Far(p))
  {
    var w0 := WithTo(w, p, To(w, p).(queue := To(w, p).queue[1..]));
    assert Known(w0, p) == Known(w, p) && At(w0, p) == At(w, p);
  }

  lemma BeginShape(w: World, p: End, o: Opening)
    requires CanDo(w, Begin(p, o))
    ensures var w', post := Act1(w, Begin(p, o)), To(w, Far(p));
      var (wire, si, _) := Made(w, p, o).value;
      && w'.sessions == w.sessions[o.coins.sid := NewSession(w, p, o, wire, si)] && To(w', p) == To(w, p)
      && To(w', Far(p)) == Post(post.queue + [Init(o.coins.sid, wire)], post.said + Texts(Init(o.coins.sid, wire)), post.shown)
      && w'.atA == w.atA && w'.atB == w.atB
  {
  }

  // ---- starts can be answered ------------------------------------------

  /** Sessions move without starting, and no store changes. */
  lemma MovingKeepsAnswerable(w: World, s: string, x: Session, w': World)
    requires Answerable(w) && s in w.sessions && w'.sessions == w.sessions[s := x] && w'.atA == w.atA && w'.atB == w.atB
    requires x.starter == w.sessions[s].starter && x.wire == w.sessions[s].wire && x.reply == w.sessions[s].reply
    requires x.answered == w.sessions[s].answered && (!x.answered ==> x.link.sys.responder.state == w.sessions[s].link.sys.responder.state)
    requires forall p :: QueueKeepsStarts(To(w, p).queue, To(w', p).queue)
    ensures Answerable(w')
  {
    forall t | t in w'.sessions && !w'.sessions[t].answered ensures Awaits(w'.sessions[t], At(w', Far(w'.sessions[t].starter))) {
      assert Awaits(w.sessions[t], At(w, Far(w.sessions[t].starter)));
    }
    forall p ensures Announces(w'.sessions, p, To(w', p).queue) { AnnouncesOn(w.sessions, w'.sessions, p, To(w, p).queue, To(w', p).queue); }
  }

  /** Every start of the new queue was in the old one. */
  ghost predicate QueueKeepsStarts(q: seq<Packet>, q': seq<Packet>) {
    forall i | 0 <= i < |q'| && q'[i].Init? :: q'[i] in q
  }

  lemma AnnouncesOn(sessions: map<string, Session>, sessions': map<string, Session>, p: End, q: seq<Packet>, q': seq<Packet>)
    requires Announces(sessions, p, q) && QueueKeepsStarts(q, q')
    requires forall s | s in sessions :: s in sessions' && sessions'[s].wire == sessions[s].wire && sessions'[s].starter == sessions[s].starter
    ensures Announces(sessions', p, q')
  {
    forall i | 0 <= i < |q'| && q'[i].Init? ensures Announced(sessions', p, q'[i].sid, q'[i].wire) {
      var j :| 0 <= j < |q| && q[j] == q'[i];
      assert Announced(sessions, p, q[j].sid, q[j].wire);
    }
  }

  /** What the end that has just started awaits. */
  lemma BeginAwaits(w: World, p: End, o: Opening)
    requires CanDo(w, Begin(p, o)) && At(w, p).uid != At(w, Far(p)).uid && At(w, p).uid != 0 && At(w, Far(p)).uid != 0
    ensures var (wire, si, _) := Made(w, p, o).value;
      && Awaits(NewSession(w, p, o, wire, si), At(w, Far(p))) && Paired(si.ctx, Mirror(si.ctx)) && si.ctx.sid == o.coins.sid == wire.payload.sid
      && NewSession(w, p, o, wire, si).link.sys.initiator.state == si
  {
    Agreement.StatesMirror(o.b, At(w, p).store, o.identity, P.Parties(At(w, p).uid, At(w, Far(p)).uid, o.conversation, o.version), o.coins, o.body,
                           At(w, Far(p)).store, o.reply, "");
  }

  lemma BeginKeepsAnswerable(w: World, p: End, s: string, x: Session, w': World)
    requires Answerable(w) && Known(w, p) == {} && s !in w.sessions && w'.sessions == w.sessions[s := x] && w'.atA == w.atA && w'.atB == w.atB
    requires x.starter == p && Awaits(x, At(w, Far(p))) && x.wire.payload.sid == s
    requires To(w', p) == To(w, p) && To(w', Far(p)).queue == To(w, Far(p)).queue + [Init(s, x.wire)]
    ensures Answerable(w')
  {
    forall t | t in w'.sessions && !w'.sessions[t].answered ensures Awaits(w'.sessions[t], At(w', Far(w'.sessions[t].starter))) {
      if t != s { assert Awaits(w.sessions[t], At(w, Far(w.sessions[t].starter))); }
    }
    forall t | t in w.sessions ensures w.sessions[t].starter != p { assert t !in Known(w, p); }
    forall e ensures Announces(w'.sessions, e, To(w', e).queue) {
      var q, q' := To(w, e).queue, To(w', e).queue;
      assert Announces(w.sessions, e, q);
      forall i | 0 <= i < |q'| && q'[i].Init? ensures Announced(w'.sessions, e, q'[i].sid, q'[i].wire) {
        if i < |q| { assert q'[i] == q[i] && Announced(w.sessions, e, q[i].sid, q[i].wire); }
      }
    }
  }

  /** The end that answers loses keys nobody else needs, for the other has started no other session. */
  lemma AnswerKeepsAnswerable(w: World, p: End, s: string, x: Session, w': World)
    requires Answerable(w) && s in w.sessions && w.sessions[s].starter == Far(p) && w'.sessions == w.sessions[s := x]
    requires x.answered && x.starter == Far(p) && x.wire == w.sessions[s].wire
    requires At(w', Far(p)) == At(w, Far(p)) && At(w', p).uid == At(w, p).uid
    requires To(w', Far(p)) == To(w, Far(p)) && To(w, p).queue != [] && To(w', p).queue == To(w, p).queue[1..]
    ensures Answerable(w')
  {
    forall t | t in w'.sessions && !w'.sessions[t].answered ensures Awaits(w'.sessions[t], At(w', Far(w'.sessions[t].starter))) {
      assert t != s && w.sessions[t].starter == p;
      assert Awaits(w.sessions[t], At(w, Far(w.sessions[t].starter)));
    }
    forall e ensures Announces(w'.sessions, e, To(w', e).queue) {
      assert e == p || e == Far(p);
      AnnouncesOn(w.sessions, w'.sessions, e, To(w, e).queue, To(w', e).queue);
    }
  }

  lemma StartsStay(q: seq<Packet>, wire: Wire)
    ensures QueueKeepsStarts(q, q + [Data(wire)]) && QueueKeepsStarts(q, q) && (q != [] ==> QueueKeepsStarts(q, q[1..]))
  {
  }

  /** A half of a session moves; an end that has not heard of the session has no half yet. */
  lemma HalfMoves(w: World, p: End, s: string, l: Link, w': World, wire: Wire)
    requires Answerable(w) && s in Known(w, p) && w'.sessions == w.sessions[s := w.sessions[s].(link := l)] && w'.atA == w.atA && w'.atB == w.atB
    requires Of(l.sys, Other(RoleIn(w.sessions[s], p))) == Of(w.sessions[s].link.sys, Other(RoleIn(w.sessions[s], p)))
    requires forall e :: To(w', e).queue == To(w, e).queue || To(w', e).queue == To(w, e).queue + [Data(wire)]
                         || (To(w, e).queue != [] && To(w', e).queue == To(w, e).queue[1..])
    ensures Answerable(w')
  {
    forall e ensures QueueKeepsStarts(To(w, e).queue, To(w', e).queue) { StartsStay(To(w, e).queue, wire); }
    MovingKeepsAnswerable(w, s, w.sessions[s].(link := l), w');
  }

  lemma SpeakKeepsAnswerable(w: World, p: End, body: string, own: Pub)
    requires Answerable(w) && CanDo(w, Speak(p, body, own))
    ensures Answerable(Act1(w, Speak(p, body, own)))
  {
    var s := Current(w, p);
    var x := w.sessions[s];
    SpeakShape(w, p, body, own);
    SpeakingMoves(x.link, RoleIn(x, p), body, own);
    HalfMoves(w, p, s, SpokenLink(x.link, RoleIn(x, p), body, own), Act1(w, Speak(p, body, own)),
              Encrypt(Of(x.link.sys, RoleIn(x, p)).state, body, own).1);
  }

  lemma TakeWireKeepsAnswerable(w: World, p: End, own: Pub, remembered: set<string>, s: string)
    requires Answerable(w) && CanDo(w, Take(p, own, remembered)) && To(w, p).queue[0].Data?
    requires s in Known(w, p) && s == Target(w, p, To(w, p).queue[0].w)
    ensures Answerable(Act1(w, Take(p, own, remembered)))
  {
    var x, wire := w.sessions[s], To(w, p).queue[0].w;
    TakeWireShape(w, p, own, remembered, s);
    ReadingMoves(x.link, RoleIn(x, p), wire, own, remembered);
    HalfMoves(w, p, s, ReadLink(x.link, RoleIn(x, p), wire, own, remembered), Act1(w, Take(p, own, remembered)), wire);
  }

  // ---- every act -------------------------------------------------------

  lemma SpeakKeeps(w: World, p: End, body: string, own: Pub)
    requires Sound(w) && CanDo(w, Speak(p, body, own))
    ensures Sound(Act1(w, Speak(p, body, own)))
  {
    var s := Current(w, p);
    var x := w.sessions[s];
    var wire := Encrypt(Of(x.link.sys, RoleIn(x, p)).state, body, own).1;
    SoundParts(w, p, s);
    SpeakingInSession(s, x, p, body, own, WiresOf(To(w, Far(p)).queue, s), WiresOf(To(w, p).queue, s));
    var x' := x.(link := SpokenLink(x.link, RoleIn(x, p), body, own));
    SpeakShape(w, p, body, own);
    WorldSpeaks(w, p, s, x', wire, Act1(w, Speak(p, body, own)));
    FinePut(w.sessions, s, x');
    SpeakKeepsAnswerable(w, p, body, own);
  }

  lemma TakeWireKeeps(w: World, p: End, own: Pub, remembered: set<string>)
    requires Sound(w) && CanDo(w, Take(p, own, remembered)) && To(w, p).queue[0].Data?
    ensures Sound(Act1(w, Take(p, own, remembered)))
  {
    TakeWireFlows(w, p, own, remembered);
    TakeWireKeepsAnswerable(w, p, own, remembered, To(w, p).queue[0].w.sid);
  }

  lemma TakeWireFlows(w: World, p: End, own: Pub, remembered: set<string>)
    requires Sound(w) && CanDo(w, Take(p, own, remembered)) && To(w, p).queue[0].Data?
    ensures var w' := Act1(w, Take(p, own, remembered)); AllFine(w'.sessions) && Flowing(w')
    ensures var wire := To(w, p).queue[0].w; wire.sid in Known(w, p) && wire.sid == Target(w, p, wire)
  {
    var wire := To(w, p).queue[0].w;
    var s := wire.sid;
    BothDeliver(w, p);
    HeadWire(w.sessions, p, Known(w, p), To(w, p));
    var x := w.sessions[s];
    SoundParts(w, p, s);
    ReadingInSession(s, x, p, WiresOf(To(w, p).queue, s), WiresOf(To(w, Far(p)).queue, s), own, remembered);
    var x' := x.(link := ReadLink(x.link, RoleIn(x, p), wire, own, remembered));
    TakeWireShape(w, p, own, remembered, s);
    WorldReads(w, p, s, x', Act1(w, Take(p, own, remembered)));
    FinePut(w.sessions, s, x');
  }

  lemma AnsweredIsFine(s: string, x: Session)
    requires Fine(s, x)
    ensures Fine(s, x.(answered := true))
  {
  }

  /** The start at the head of a queue: nobody else has read it, and it is answered as its session awaits. */
  lemma HeadInit(w: World, p: End, own: Pub, remembered: set<string>)
    requires Sound(w) && CanDo(w, Take(p, own, remembered)) && To(w, p).queue[0].Init?
    ensures var s, wire := To(w, p).queue[0].sid, To(w, p).queue[0].wire;
      && s in w.sessions && s !in Known(w, p) && w.sessions[s].starter == Far(p) && wire.payload.sid == s
      && Answer(w, p, wire, own).Success?
      && AnsweredWith(w.sessions[s], Answer(w, p, wire, own).value.state) == w.sessions[s].(answered := true)
      && TextsOf(Answer(w, p, wire, own).value.body) == Texts(To(w, p).queue[0])
  {
    var s, wire := To(w, p).queue[0].sid, To(w, p).queue[0].wire;
    BothDeliver(w, p);
    assert Announces(w.sessions, p, To(w, p).queue) && Announced(w.sessions, p, s, wire);
    assert s !in Known(w, p);
    assert Awaits(w.sessions[s], At(w, Far(w.sessions[s].starter)));
  }

  lemma TakeInitKeeps(w: World, p: End, own: Pub, remembered: set<string>)
    requires Sound(w) && CanDo(w, Take(p, own, remembered)) && To(w, p).queue[0].Init?
    ensures Sound(Act1(w, Take(p, own, remembered)))
  {
    var s := To(w, p).queue[0].sid;
    HeadInit(w, p, own, remembered);
    SoundParts(w, p, s);
    var x := w.sessions[s].(answered := true);
    AnsweredIsFine(s, w.sessions[s]);
    TakeInitShape(w, p, own, remembered);
    WorldLearns(w, p, s, x, Act1(w, Take(p, own, remembered)));
    FinePut(w.sessions, s, x);
    AnswerKeepsAnswerable(w, p, s, x, Act1(w, Take(p, own, remembered)));
  }

  lemma BeginKeeps(w: World, p: End, o: Opening)
    requires Sound(w) && CanDo(w, Begin(p, o))
    ensures Sound(Act1(w, Begin(p, o)))
  {
    var (wire, si, _) := Made(w, p, o).value;
    var x := NewSession(w, p, o, wire, si);
    BeginAwaits(w, p, o);
    BeginIsFine(P.InitiatorRoot(o.b, At(w, p).store, o.coins), o.coins.ratchet, o.reply, si.ctx, Mirror(si.ctx), p, wire);
    BeginShape(w, p, o);
    WorldBegins(w, p, o.coins.sid, x, wire, Act1(w, Begin(p, o)));
    FinePut(w.sessions, o.coins.sid, x);
    BeginKeepsAnswerable(w, p, o.coins.sid, x, Act1(w, Begin(p, o)));
  }

  lemma ActKeepsSound(w: World, act: Act)
    requires Sound(w) && CanDo(w, act)
    ensures Sound(Act1(w, act))
  {
    match act
    case Begin(p, o) => BeginKeeps(w, p, o);
    case Speak(p, body, own) => SpeakKeeps(w, p, body, own);
    case Take(p, own, remembered) =>
      if To(w, p).queue[0].Init? { TakeInitKeeps(w, p, own, remembered); } else { TakeWireKeeps(w, p, own, remembered); }
  }

  // ---- whole runs ------------------------------------------------------

  /** A conversation of two users in which nothing has happened. */
  ghost predicate Silent(w: World) {
    && w.sessions == map[] && w.toA == w.toB == Post([], [], [])
    && w.atA.uid != w.atB.uid && w.atA.uid != 0 && w.atB.uid != 0
  }

  function Acts(w: World, acts: seq<Act>): World
    requires CanActAll(w, acts)
    decreases |acts|
  {
    if acts == [] then w else Acts(Act1(w, acts[0]), acts[1..])
  }

  ghost predicate CanActAll(w: World, acts: seq<Act>)
    decreases |acts|
  {
    acts == [] || (CanDo(w, acts[0]) && CanActAll(Act1(w, acts[0]), acts[1..]))
  }

  lemma {:induction false} ActsKeepSound(w: World, acts: seq<Act>)
    requires Sound(w) && CanActAll(w, acts)
    ensures Sound(Acts(w, acts))
    decreases |acts|
  {
    if acts != [] {
      ActKeepsSound(w, acts[0]);
      ActsKeepSound(Act1(w, acts[0]), acts[1..]);
    }
  }

  lemma SilentIsSound(w: World)
    requires Silent(w)
    ensures Sound(w)
  {
    assert Known(w, A) == Known(w, B) == {};
  }

  /**
   Whoever starts when, and in whatever order packets are read: what an end was
   shown, followed by the texts in its queue, is what the other end said. The
   oldest wire goes to the session it names, current or not, and opens there.
   */
  lemma NothingSaidIsLost(start: World, acts: seq<Act>, p: End, own: Pub)
    requires Silent(start) && CanActAll(start, acts)
    ensures var w := Acts(start, acts);
      var post := To(w, p);
      && post.shown + Bodies(post.queue) == post.said
      && (post.queue != [] && post.queue[0].Data? ==>
            var wire := post.queue[0].w;
            && wire.sid in Known(w, p) && Target(w, p, wire) == wire.sid
            && var x := w.sessions[wire.sid];
               (Fresh(own, x.link.sys.used) ==>
                  var d := Decrypt(Of(x.link.sys, RoleIn(x, p)).state, wire, own);
                  d.Opened? && wire.ct.BodyBox? && d.body == wire.ct.body))
  {
    SilentIsSound(start);
    ActsKeepSound(start, acts);
    var w := Acts(start, acts);
    var post := To(w, p);
    BothDeliver(w, p);
    if post.queue != [] && post.queue[0].Data? {
      HeadWire(w.sessions, p, Known(w, p), post);
      var s := post.queue[0].w.sid;
      var x := w.sessions[s];
      assert Pendings(x, p, WiresOf(post.queue, s));
      assert Fine(s, x);
      if Fresh(own, x.link.sys.used) { ReadingIsFine(s, x, p, WiresOf(post.queue, s), own, {}); }
    }
  }

  /**
   Convergence: an end whose queue holds no start knows every session there is, so
   two such ends have the same current session, the one with the smallest id.
   */
  lemma BothSettleOnSmallest(start: World, acts: seq<Act>)
    requires Silent(start) && CanActAll(start, acts)
    ensures var w := Acts(start, acts);
      (forall p, i | 0 <= i < |To(w, p).queue| :: To(w, p).queue[i].Data?) && w.sessions != map[] ==>
        && Known(w, A) == Known(w, B) == w.sessions.Keys
        && Current(w, A) == Current(w, B) == Text.Min(w.sessions.Keys)
  {
    SilentIsSound(start);
    ActsKeepSound(start, acts);
    var w := Acts(start, acts);
    if forall p, i | 0 <= i < |To(w, p).queue| :: To(w, p).queue[i].Data? {
      forall p ensures Known(w, p) == w.sessions.Keys {
        BothDeliver(w, p);
        NoStartNoNews(To(w, p).queue, Known(w, p));
      }
    }
  }

  lemma {:induction false} NoStartNoNews(q: seq<Packet>, known: set<string>)
    requires forall i | 0 <= i < |q| :: q[i].Data?
    ensures KnownAfter(q, known) == known
  {
    if q != [] { NoStartNoNews(q[1..], known); }
  }

  // ---- the ends are the session layer's maps ---------------------------

  /** The state of every session an end knows. */
  function Held(w: World, p: End): map<string, State> {
    map s | s in Known(w, p) :: Of(w.sessions[s].link.sys, RoleIn(w.sessions[s], p)).state
  }

  /** Speaking is what the session layer's send does to those states, and leaves the other end's alone. */
  lemma SpeakIsSend(w: World, p: End, body: string, own: Pub)
    requires CanDo(w, Speak(p, body, own))
    ensures var w' := Act1(w, Speak(p, body, own));
      && Held(w, p) != map[] && Held(w', p) == SessionMap.AfterSend(Held(w, p), body, own)
      && Held(w', Far(p)) == Held(w, Far(p))
  {
    SpeakShape(w, p, body, own);
    var s := Current(w, p);
    var x := w.sessions[s];
    SpeakingMoves(x.link, RoleIn(x, p), body, own);
    assert Held(w, p).Keys == Known(w, p);
    var x' := x.(link := SpokenLink(x.link, RoleIn(x, p), body, own));
    HeldMoves(w, p, s, x', Act1(w, Speak(p, body, own)));
    assert Of(x'.link.sys, RoleIn(x', p)).state == Encrypt(Of(x.link.sys, RoleIn(x, p)).state, body, own).0;
  }

  /** Reading a wire is what the session layer's read does, and leaves the other end's states alone. */
  lemma TakeIsRead(w: World, p: End, own: Pub, remembered: set<string>)
    requires CanDo(w, Take(p, own, remembered)) && To(w, p).queue[0].Data? && Known(w, p) != {}
    ensures var w' := Act1(w, Take(p, own, remembered));
      && Held(w, p) != map[] && Held(w', p) == SessionMap.AfterRead(Held(w, p), To(w, p).queue[0].w, own, remembered)
      && Held(w', Far(p)) == Held(w, Far(p))
  {
    var wire := To(w, p).queue[0].w;
    var s := Target(w, p, wire);
    var x := w.sessions[s];
    TakeWireShape(w, p, own, remembered, s);
    ReadingMoves(x.link, RoleIn(x, p), wire, own, remembered);
    assert Held(w, p).Keys == Known(w, p);
    var x' := x.(link := ReadLink(x.link, RoleIn(x, p), wire, own, remembered));
    HeldMoves(w, p, s, x', Act1(w, Take(p, own, remembered)));
  }

  /** A session appears that only `p` knows. */
  lemma HeldBegins(w: World, p: End, s: string, x: Session, w': World)
    requires Known(w, p) == {} && s !in w.sessions && w'.sessions == w.sessions[s := x] && x.starter == p && !x.answered
    ensures Held(w, p) == map[] && Held(w', p) == map[s := x.link.sys.initiator.state] && Held(w', Far(p)) == Held(w, Far(p))
  {
    SessionsLearn(w, s, x, p, w');
    SessionsUnheard(w, s, x, Far(p), w');
    assert Held(w, p).Keys == {};
    assert Held(w', p).Keys == {s};
  }

  /** Starting leaves the end with the one state `initiate_pqxdh_dm` makes, and the other end as it was. */
  lemma BeginIsInitiate(w: World, p: End, o: Opening)
    requires Sound(w) && CanDo(w, Begin(p, o))
    ensures var w' := Act1(w, Begin(p, o));
      && Held(w, p) == map[] && Held(w', p) == map[o.coins.sid := Made(w, p, o).value.1]
      && Held(w', Far(p)) == Held(w, Far(p)) && At(w', p) == At(w, p) && At(w', Far(p)) == At(w, Far(p))
  {
    var (wire, si, _) := Made(w, p, o).value;
    BeginAwaits(w, p, o);
    BeginShape(w, p, o);
    HeldBegins(w, p, o.coins.sid, NewSession(w, p, o, wire, si), Act1(w, Begin(p, o)));
  }

  /** `p` hears of a session the other end started. */
  lemma HeldLearns(w: World, p: End, s: string, w': World)
    requires s in w.sessions && s !in Known(w, p) && w'.sessions == w.sessions[s := w.sessions[s].(answered := true)]
    ensures Held(w', p) == Held(w, p)[s := w.sessions[s].link.sys.responder.state] && Held(w', Far(p)) == Held(w, Far(p))
  {
    SessionsLearn(w, s, w.sessions[s].(answered := true), p, w');
    SessionsMove(w, s, w.sessions[s].(answered := true), Far(p), w');
  }

  /** Reading a start adds the state `pqxdh_respond` makes, and takes the named one-time keys out of the store. */
  lemma TakeIsAnswer(w: World, p: End, own: Pub, remembered: set<string>)
    requires Sound(w) && CanDo(w, Take(p, own, remembered)) && To(w, p).queue[0].Init?
    ensures var w', s, wire := Act1(w, Take(p, own, remembered)), To(w, p).queue[0].sid, To(w, p).queue[0].wire;
      && s !in Held(w, p) && wire.payload.sid == s && Answer(w, p, wire, own).Success?
      && Held(w', p) == Held(w, p)[s := Answer(w, p, wire, own).value.state] && Held(w', Far(p)) == Held(w, Far(p))
      && At(w', p).store == P.WithoutNamed(At(w, p).store, wire.payload) && At(w', Far(p)) == At(w, Far(p))
      && forall spare :: P.Response(At(w, p).store, wire, At(w, p).uid, own, spare) == Answer(w, p, wire, own)
  {
    var s, wire := To(w, p).queue[0].sid, To(w, p).queue[0].wire;
    HeadInit(w, p, own, remembered);
    TakeInitShape(w, p, own, remembered);
    HeldLearns(w, p, s, Act1(w, Take(p, own, remembered)));
    HalfIs(w.sessions[s], Answer(w, p, wire, own).value.state);
    assert Fine(s, w.sessions[s]);
    forall spare ensures P.Response(At(w, p).store, wire, At(w, p).uid, own, spare) == Answer(w, p, wire, own) {
      NamedIgnoresSpare(At(w, p).store, wire, At(w, p).uid, own, spare);
    }
  }

  /** A message with a session id is answered under it, whatever spare id is drawn. */
  lemma NamedIgnoresSpare(store: P.Store, wire: P.InitWire, uid: int, own: Pub, spare: string)
    requires wire.payload.sid != ""
    ensures P.Response(store, wire, uid, own, spare) == P.Response(store, wire, uid, own, "")
  {
  }

  lemma HalfIs(x: Session, state: State)
    requires AnsweredWith(x, state) == x.(answered := true)
    ensures x.link.sys.responder.state == state
  {
    assert AnsweredWith(x, state).link.sys.responder.state == state;
  }

  /** When one half of one session moves, one end's map moves at one place. */
  lemma HeldMoves(w: World, p: End, s: string, x: Session, w': World)
    requires s in Known(w, p) && w'.sessions == w.sessions[s := x]
    requires x.starter == w.sessions[s].starter && x.answered == w.sessions[s].answered
    requires var r := RoleIn(x, Far(p)); Of(x.link.sys, r) == Of(w.sessions[s].link.sys, r)
    ensures Held(w', p) == Held(w, p)[s := Of(x.link.sys, RoleIn(x, p)).state]
    ensures Held(w', Far(p)) == Held(w, Far(p))
  {
    SessionsMove(w, s, x, p, w');
    SessionsMove(w, s, x, Far(p), w');
  }
}
