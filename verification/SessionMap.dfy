/**
 The sessions of one DM conversation in `CryptoSession`: the current ratchet, and a
 map of every known one that shares objects with it. A failed decrypt swaps in a
 snapshot and may leave the damaged object in the map; `Observed` is what the
 session layer can still see.
 */
module SessionMap {
  import opened Wrappers
  import opened Keys
  import opened RatchetObject
  import R = Ratchet
  import P = Pqxdh
  import A = PqxdhAgreement
  import Text

  /** What a received wire comes to. */
  datatype Live = Message(body: string) | Control | Hidden | PendingKeys

  /** The session a wire is routed by: the visible header's id, or the one beside it. */
  function RoutingSid(w: R.Wire): string {
    if w.h.Some? && w.h.value.ctx.sid != "" then w.h.value.ctx.sid else w.sid
  }

  /** The known session that gets a wire: the named one, else the current one. */
  function TargetSid(known: set<string>, current: string, w: R.Wire): string {
    var sid := RoutingSid(w);
    if sid != "" && sid in known then sid else current
  }

  /** The id a new session gets. */
  function NewSid(w: P.InitWire, spareSid: string): string {
    if w.payload.sid != "" then w.payload.sid else spareSid
  }

  /** The body of an S3PQI wire is shown unless it is the marker of an empty start. */
  function Shown(body: string): Live {
    if body == "__S3_INIT__" then Control else Message(body)
  }

  // ---- what the operations do to the states of all known sessions ------

  /** The state a read leaves, the body opened or not; trimming leaves `remembered` of `seen`. */
  function Settled(s: R.State, outcome: R.Decryption, remembered: set<string>): R.State {
    match outcome
    case Opened(t, _) => t.(seen := remembered)
    case Refused(_, _) => s.(seen := remembered)
  }

  /** Reading a wire in session `sid`: no other session moves. */
  function ReadIn(held: map<string, R.State>, sid: string, w: R.Wire, own: Pub, remembered: set<string>): map<string, R.State>
    requires sid in held
  {
    held[sid := Settled(held[sid], R.Decrypt(held[sid], w, own), remembered)]
  }

  /** Reading a wire: only the session it is routed to moves. */
  function AfterRead(held: map<string, R.State>, w: R.Wire, own: Pub, remembered: set<string>): map<string, R.State>
    requires held != map[]
  {
    ReadIn(held, TargetSid(held.Keys, Text.Min(held.Keys), w), w, own, remembered)
  }

  /** A wire whose visible header names a known session is read in that one, and touches no other, whatever else it says. */
  lemma NamedSessionOnly(held: map<string, R.State>, w: R.Wire, own: Pub, remembered: set<string>, other: string)
    requires w.h.Some? && w.h.value.ctx.sid != "" && w.h.value.ctx.sid in held && other in held && other != w.h.value.ctx.sid
    ensures var after := AfterRead(held, w, own, remembered); other in after && after[other] == held[other]
  {
  }

  /** A wire that names no known session, in its header or beside it, is read in the one with the smallest id, and touches no other. */
  lemma UnnamedReadsSmallest(held: map<string, R.State>, w: R.Wire, own: Pub, remembered: set<string>, other: string, smallest: string)
    requires (w.h.Some? && w.h.value.ctx.sid != "" ==> w.h.value.ctx.sid !in held)
    requires (w.h.None? || w.h.value.ctx.sid == "" ==> w.sid == "" || w.sid !in held)
    requires smallest in held && (forall s | s in held :: Text.Le(smallest, s)) && other in held && other != smallest
    ensures var after := AfterRead(held, w, own, remembered); other in after && after[other] == held[other]
  {
    var m := Text.Min(held.Keys);
    assert m in held.Keys;
    Text.LeAntisymmetric(m, smallest);
  }

  /** Sending: only the session with the smallest id moves. */
  function AfterSend(held: map<string, R.State>, body: string, own: Pub): map<string, R.State>
    requires held != map[]
  {
    var c := Text.Min(held.Keys);
    held[c := R.Encrypt(held[c], body, own).0]
  }

  /** What a decrypt of outcome `d` that began at `s` shows, and the state it leaves. */
  ghost predicate Ends(s: R.State, d: R.Decryption, r: Live, last: R.State) {
    match d
    case Opened(t, body) => r == Message(body) && last == t.(seen := last.seen) && R.Remembers(t.seen, last.seen)
    case Refused(_, _) => r == Hidden && R.Restores(s, last)
  }

  /** What a decrypt of outcome `d` returns, and where it leaves the object when it opens the body. */
  ghost predicate Moved(d: R.Decryption, plain: Result<string, R.Error>, now: R.State) {
    match d
    case Opened(t, body) => plain == Success(body) && now == t.(seen := now.seen) && R.Remembers(t.seen, now.seen)
    case Refused(_, _) => plain.Failure?
  }

  /** Keeping the state or the snapshot, after the state has moved, settles the session. */
  lemma SettledInPlace(held: map<string, R.State>, sid: string, d: R.Decryption, plain: Result<string, R.Error>,
                       moved: R.State, snapshot: R.State, last: R.State)
    requires sid in held && snapshot == held[sid].(seen := snapshot.seen) && last == if plain.Success? then moved else snapshot
    requires match d case Opened(s, body) => plain.Success? && moved == s.(seen := moved.seen) case Refused(_, _) => plain.Failure?
    ensures held[sid := moved][sid := last] == held[sid := Settled(held[sid], d, last.seen)]
  {
  }

  lemma PutTwice(held: map<string, R.State>, sid: string, s: R.State)
    ensures held[sid := s][sid := s] == held[sid := s]
  {
  }

  lemma ReadRouted(held: map<string, R.State>, current: string, sid: string, w: R.Wire, own: Pub, remembered: set<string>)
    requires held != map[] && current == Text.Min(held.Keys) && sid == TargetSid(held.Keys, current, w)
    ensures AfterRead(held, w, own, remembered) == ReadIn(held, sid, w, own, remembered)
  {
  }

  lemma SendRouted(held: map<string, R.State>, current: string, body: string, own: Pub)
    requires held != map[] && current == Text.Min(held.Keys)
    ensures AfterSend(held, body, own) == held[current := R.Encrypt(held[current], body, own).0]
  {
  }

  /** Two maps that differ at one place at most. */
  lemma OneMoves(held: map<string, R.State>, after: map<string, R.State>, sid: string, s: R.State)
    requires held.Keys == after.Keys && sid in held && after[sid] == s
    requires forall k | k in held && k != sid :: after[k] == held[k]
    ensures after == held[sid := s]
  {
  }

  class DmSessions {
    var current: DoubleRatchet?
    var sessions: map<string, DoubleRatchet>
    var prekeys: A.PrekeySession
    const myUid: int
    /** Whether a data directory and a master key are set, so that saving does something. */
    const persistent: bool

    ghost function Objects(): set<object>
      reads this
    {
      (set s | s in sessions :: sessions[s] as object) + (if current != null then {current as object} else {})
    }

    function CurrentSid(): string
      reads this, current
    {
      if current != null then current.ctx.sid else ""
    }

    ghost function Known(): set<string>
      reads this, current
    {
      sessions.Keys + (if current != null then {current.ctx.sid} else {})
    }

    ghost function At(s: string): DoubleRatchet
      requires s in Known()
      reads this, current
    {
      if current != null && current.ctx.sid == s then current else sessions[s]
    }

    /** The state of every known session, the current object taking precedence over the map. */
    ghost function Observed(): map<string, R.State>
      reads this, current, Objects()
    {
      map s | s in Known() :: At(s).View()
    }

    /** Every object sits under its own session id. */
    ghost predicate Consistent()
      reads this, current, Objects()
    {
      && (forall s | s in sessions :: s != "" && sessions[s].ctx.sid == s)
      && (current != null ==> current.ctx.sid != "")
    }

    /** Between calls, moreover, the current session is the one with the smallest id known. */
    ghost predicate Valid()
      reads this, current, Objects()
    {
      && Consistent()
      && (current == null ==> sessions == map[])
      && (current != null ==> current.ctx.sid == Text.Min(Known()))
    }

    constructor (uid: int, disk: bool, store: P.Store)
      ensures Valid() && Observed() == map[] && CurrentSid() == ""
      ensures fresh(prekeys) && prekeys.prekeys != null && prekeys.prekeys.View() == store
    {
      current, sessions := null, map[];
      myUid, persistent := uid, disk;
      prekeys := new A.PrekeySession(store);
    }

    /** `load_double_ratchet_sessions`: the map is brought in step with the current object first. */
    method LoadSessions()
      requires Consistent()
      modifies this`sessions
      ensures Consistent() && Known() == old(Known()) == sessions.Keys
      ensures current != null ==> sessions[current.ctx.sid] == current
      ensures forall s | s in Known() :: At(s) == old(At(s)) == sessions[s]
      ensures Observed() == old(Observed())
    {
      if current != null {
        sessions := sessions[current.ctx.sid := current];
      }
    }

    /** `save_double_ratchet`: writing the session map also resynchronises it. */
    method Save()
      requires Consistent()
      modifies this`sessions
      ensures Consistent() && Known() == old(Known())
      ensures forall s | s in Known() :: At(s) == old(At(s))
      ensures Observed() == old(Observed())
    {
      if persistent { LoadSessions(); }
    }

    /** `_state_for_double_ratchet_wire`. */
    method StateForWire(w: R.Wire) returns (state: DoubleRatchet?)
      requires Valid()
      modifies this`sessions
      ensures Valid() && Known() == old(Known()) && forall s | s in Known() :: At(s) == old(At(s))
      ensures Observed() == old(Observed())
      ensures state == null <==> current == null
      ensures state != null ==> var t := TargetSid(Known(), CurrentSid(), w); t in Known() && state == At(t)
    {
      var sid := RoutingSid(w);
      if current != null && (sid == "" || current.ctx.sid == sid) { return current; }
      LoadSessions();
      if sid != "" && sid in sessions { return sessions[sid]; }
      state := current;
    }

    /** `_remember_double_ratchet_session`, for a new session or one already there. */
    method Remember(state: DoubleRatchet)
      requires Consistent() && state.ctx.sid != ""
      requires state.ctx.sid in Known() ==> At(state.ctx.sid) == state
      modifies this`sessions
      ensures Consistent() && Known() == old(Known()) + {state.ctx.sid} == sessions.Keys
      ensures sessions[state.ctx.sid] == state
      ensures forall s | s in old(Known()) :: At(s) == old(At(s)) == sessions[s]
      ensures Observed() == old(Observed())[state.ctx.sid := state.View()]
    {
      LoadSessions();
      PutIn(state);
    }

    /** One entry of a map that is in step. */
    method PutIn(state: DoubleRatchet)
      requires Consistent() && state.ctx.sid != "" && sessions.Keys == Known()
      requires state.ctx.sid in Known() ==> At(state.ctx.sid) == state
      requires forall s | s in Known() :: At(s) == sessions[s]
      modifies this`sessions
      ensures Consistent() && Known() == old(Known()) + {state.ctx.sid} == sessions.Keys
      ensures sessions[state.ctx.sid] == state
      ensures forall s | s in old(Known()) :: At(s) == old(At(s)) == sessions[s]
      ensures Observed() == old(Observed())[state.ctx.sid := state.View()]
    {
      sessions := sessions[state.ctx.sid := state];
    }

    /** `_select_canonical_double_ratchet_state`. */
    method SelectCanonical(candidate: DoubleRatchet)
      requires Consistent() && candidate.ctx.sid != ""
      requires candidate.ctx.sid in Known() ==> At(candidate.ctx.sid) == candidate
      modifies this`sessions, this`current
      ensures Valid() && Known() == old(Known()) + {candidate.ctx.sid} && CurrentSid() == Text.Min(Known())
      ensures At(candidate.ctx.sid) == candidate
      ensures forall s | s in old(Known()) :: At(s) == old(At(s))
      ensures Observed() == old(Observed())[candidate.ctx.sid := candidate.View()]
    {
      RememberBoth(candidate);
      Choose();
    }

    /** The current session and the candidate are in the map. */
    method RememberBoth(candidate: DoubleRatchet)
      requires Consistent() && candidate.ctx.sid != ""
      requires candidate.ctx.sid in Known() ==> At(candidate.ctx.sid) == candidate
      modifies this`sessions
      ensures Consistent() && Known() == old(Known()) + {candidate.ctx.sid} == sessions.Keys
      ensures At(candidate.ctx.sid) == candidate
      ensures forall s | s in old(Known()) :: At(s) == old(At(s))
      ensures Observed() == old(Observed())[candidate.ctx.sid := candidate.View()]
    {
      ghost var held := Observed();
      if current != null {
        Remember(current);
        assert Observed() == held;
      }
      Remember(candidate);
    }

    /** The smallest known id becomes current. */
    method Choose()
      requires Consistent() && Known() != {} && Known() == sessions.Keys
      modifies this`sessions, this`current
      ensures Valid() && Known() == old(Known()) && CurrentSid() == Text.Min(Known())
      ensures forall s | s in Known() :: At(s) == old(At(s))
      ensures Observed() == old(Observed())
    {
      LoadSessions();
      var chosen := Text.Min(sessions.Keys);
      MakeCurrent(chosen);
      Save();
    }

    /** Switching the current session is safe once the map is in step. */
    method MakeCurrent(sid: string)
      requires Consistent() && sid in sessions && sessions.Keys == Known()
      requires forall s | s in Known() :: At(s) == sessions[s]
      modifies this`current
      ensures Consistent() && current == sessions[sid] && Known() == old(Known()) == sessions.Keys
      ensures forall s | s in Known() :: At(s) == sessions[s]
      ensures Observed() == old(Observed())
    {
      current := sessions[sid];
    }

    /** The session `t` is replaced by a snapshot of it; `state` is the object that failed. */
    method RollBack(state: DoubleRatchet, snapshot: DoubleRatchet)
      requires Consistent() && state.ctx.sid in Known() && At(state.ctx.sid) == state && snapshot.ctx.sid == state.ctx.sid
      modifies this`sessions, this`current
      ensures Consistent() && Known() == old(Known()) && CurrentSid() == old(CurrentSid())
      ensures (current == null) == (old(current) == null)
      ensures At(state.ctx.sid) == snapshot
      ensures forall s | s in Known() && s != state.ctx.sid :: At(s) == old(At(s))
      ensures Observed() == old(Observed())[state.ctx.sid := snapshot.View()]
    {
      if current == state {
        current := snapshot;
      } else {
        sessions := sessions[state.ctx.sid := snapshot];
      }
    }

    /** After a successful decrypt the state stays where it is. */
    method Keep(state: DoubleRatchet)
      requires Consistent() && state.ctx.sid in Known() && At(state.ctx.sid) == state && current != null
      modifies this`sessions
      ensures Consistent() && Known() == old(Known())
      ensures forall s | s in Known() :: At(s) == old(At(s))
      ensures Observed() == old(Observed()) == old(Observed())[state.ctx.sid := state.View()]
    {
      if current != state { Remember(state); }
      Save();
    }

    /** What a decrypt by session `t` leaves: the plaintext and its new state, or the state before it. */
    twostate predicate Outcome(t: string, w: R.Wire, own: Pub, r: Live)
      requires old(t in Known()) && t in Known()
      reads this, current, Objects()
    {
      Ends(old(At(t).View()), R.Decrypt(old(At(t).View()), w, own), r, At(t).View())
    }

    /** The try block both receive paths share: snapshot, decrypt, keep or roll back. */
    method TryDecrypt(state: DoubleRatchet, w: R.Wire, own: Pub) returns (r: Live)
      requires Consistent() && current != null && state.ctx.sid in Known() && At(state.ctx.sid) == state
      modifies this`sessions, this`current, state
      ensures Consistent() && current != null && Known() == old(Known()) && CurrentSid() == old(CurrentSid())
      ensures forall s | s in Known() && s != old(state.ctx.sid) :: At(s) == old(At(s))
      ensures Outcome(old(state.ctx.sid), w, own, r)
      ensures Observed() == ReadIn(old(Observed()), old(state.ctx.sid), w, own, At(old(state.ctx.sid)).seen)
    {
      ghost var held, t := Observed(), state.ctx.sid;
      var plain, snapshot := DecryptIn(state, w, own);
      ghost var moved := state.View();
      r := Conclude(state, snapshot, plain);
      SettledInPlace(held, t, R.Decrypt(held[t], w, own), plain, moved, snapshot.View(), At(t).View());
    }

    /** Snapshot and decrypt: the object moves, the map and the current session stay. */
    method DecryptIn(state: DoubleRatchet, w: R.Wire, own: Pub) returns (plain: Result<string, R.Error>, snapshot: DoubleRatchet)
      requires Consistent() && current != null && state.ctx.sid in Known() && At(state.ctx.sid) == state
      modifies state
      ensures Consistent() && state.ctx.sid == old(state.ctx.sid) == snapshot.ctx.sid
      ensures Observed() == old(Observed())[state.ctx.sid := state.View()]
      ensures R.Restores(old(state.View()), snapshot.View())
      ensures Moved(R.Decrypt(old(state.View()), w, own), plain, state.View())
    {
      ghost var held, v := Observed(), state.View();
      snapshot := new DoubleRatchet.Copy(state);
      assert Observed() == held && state.View() == v;
      plain := MoveIn(state, w, own);
    }

    /** The decrypt itself: one known object moves. */
    method MoveIn(state: DoubleRatchet, w: R.Wire, own: Pub) returns (plain: Result<string, R.Error>)
      requires Consistent() && state.ctx.sid in Known() && At(state.ctx.sid) == state
      modifies state
      ensures Consistent() && state.ctx.sid == old(state.ctx.sid)
      ensures Observed() == old(Observed())[state.ctx.sid := state.View()]
      ensures Moved(R.Decrypt(old(state.View()), w, own), plain, state.View())
    {
      ghost var held, t := Observed(), state.ctx.sid;
      assert forall s | s in Known() && s != t :: At(s) != state;
      plain := state.Decrypt(w, own);
      OneMoves(held, Observed(), t, state.View());
    }

    /** Its two endings. */
    method Conclude(state: DoubleRatchet, snapshot: DoubleRatchet, plain: Result<string, R.Error>) returns (r: Live)
      requires Consistent() && current != null && state.ctx.sid in Known() && At(state.ctx.sid) == state
      requires snapshot.ctx.sid == state.ctx.sid
      modifies this`sessions, this`current
      ensures Consistent() && current != null && Known() == old(Known()) && CurrentSid() == old(CurrentSid())
      ensures forall s | s in Known() && s != state.ctx.sid :: At(s) == old(At(s))
      ensures At(state.ctx.sid) == if plain.Success? then state else snapshot
      ensures r == if plain.Success? then Message(plain.value) else Hidden
      ensures Observed() == old(Observed())[state.ctx.sid := if plain.Success? then state.View() else snapshot.View()]
    {
      if plain.Success? {
        Keep(state);
        r := Message(plain.value);
      } else {
        RollBack(state, snapshot);
        r := Hidden;
      }
    }

    /** `decrypt_live_message` for an S3DR wire. */
    method DecryptLive(w: R.Wire, own: Pub) returns (r: Live)
      requires Valid()
      modifies this`sessions, this`current, Objects()
      ensures Valid() && Known() == old(Known()) && CurrentSid() == old(CurrentSid())
      ensures r == PendingKeys <==> old(current) == null
      ensures r != PendingKeys ==>
        var t := TargetSid(old(Known()), old(CurrentSid()), w);
        && t in old(Known()) && Outcome(t, w, own, r)
        && (forall s | s in Known() && s != t :: At(s) == old(At(s)) && unchanged(At(s)))
        && old(Observed()) != map[] && Observed() == AfterRead(old(Observed()), w, own, At(t).seen)
    {
      var state := StateForWire(w);
      if state == null { return PendingKeys; }
      r := ReadBy(state, w, own);
    }

    /** The same once the session is found. */
    method ReadBy(state: DoubleRatchet, w: R.Wire, own: Pub) returns (r: Live)
      requires Valid() && current != null && state.ctx.sid == TargetSid(Known(), CurrentSid(), w)
      requires state.ctx.sid in Known() && At(state.ctx.sid) == state
      modifies this`sessions, this`current, state
      ensures Valid() && Known() == old(Known()) && CurrentSid() == old(CurrentSid()) && r != PendingKeys
      ensures forall s | s in Known() && s != old(state.ctx.sid) :: At(s) == old(At(s)) != state && unchanged(At(s))
      ensures Ends(old(state.View()), R.Decrypt(old(state.View()), w, own), r, At(old(state.ctx.sid)).View())
      ensures old(Observed()) != map[] && Observed() == AfterRead(old(Observed()), w, own, At(old(state.ctx.sid)).seen)
    {
      ghost var held, c, sid := Observed(), CurrentSid(), state.ctx.sid;
      assert held.Keys == Known();
      r := TryDecrypt(state, w, own);
      ReadRouted(held, c, sid, w, own, At(sid).seen);
    }

    /** Whether an S3PQI wire is answered at all, rather than taken for one already known. */
    ghost predicate IsNewInit(w: P.InitWire, fromMe: bool)
      reads this, current, prekeys
    {
      !fromMe && prekeys.prekeys != null && (w.payload.sid != "" ==> w.payload.sid !in Known())
    }

    /** What `pqxdh_respond` answers with the store as it is. */
    ghost function Answer(w: P.InitWire, own: Pub, spareSid: string): Result<P.Responded, P.Error>
      requires prekeys.prekeys != null
      reads this, prekeys, prekeys.prekeys
    {
      P.Response(prekeys.prekeys.View(), w, myUid, own, spareSid)
    }

    /**
     `decrypt_live_message` for an S3PQI wire: a session is added exactly for a new id
     that `pqxdh_respond` accepts, and only then do prekeys leave the store.
     `spareSid` is a random id nobody has, for a wire without one.
     */
    method ReceiveInit(w: P.InitWire, fromMe: bool, own: Pub, spareSid: string) returns (r: Live)
      requires Valid() && spareSid != "" && spareSid !in Known()
      modifies this`sessions, this`current, prekeys
      ensures Valid() && prekeys == old(prekeys)
      ensures forall s | s in old(Known()) :: s in Known() && At(s) == old(At(s))
      ensures old(IsNewInit(w, fromMe)) && old(Answer(w, own, spareSid)).Success? ==>
        var a, sid := old(Answer(w, own, spareSid)).value, NewSid(w, spareSid);
        && Known() == old(Known()) + {sid} && At(sid).View() == a.state
        && Observed() == old(Observed())[sid := a.state]
        && CurrentSid() == Text.Min(Known())
        && prekeys.prekeys != null && prekeys.prekeys.View() == P.WithoutNamed(old(prekeys.prekeys.View()), w.payload)
        && r == (if a.body == "__S3_INIT__" then Control else Message(a.body))
      ensures !(old(IsNewInit(w, fromMe)) && old(Answer(w, own, spareSid)).Success?) ==>
        && Known() == old(Known()) && CurrentSid() == old(CurrentSid()) && Observed() == old(Observed())
        && prekeys.prekeys == old(prekeys.prekeys)
        && r == if fromMe || (w.payload.sid != "" && w.payload.sid in old(Known())) then Control
                else if old(prekeys.prekeys) != null then Hidden
                else if old(current) != null then Control else PendingKeys
    {
      if fromMe { return Control; }
      if w.payload.sid != "" {
        LoadSessions();
        if w.payload.sid in sessions { return Control; }
      }
      if prekeys.prekeys == null { return if current != null then Control else PendingKeys; }
      r := AnswerInit(w, own, spareSid);
    }

    /** The try block for an S3PQI wire whose session is not known. */
    method AnswerInit(w: P.InitWire, own: Pub, spareSid: string) returns (r: Live)
      requires Valid() && prekeys.prekeys != null && NewSid(w, spareSid) != "" && NewSid(w, spareSid) !in Known()
      modifies this`sessions, this`current, prekeys
      ensures Valid() && prekeys == old(prekeys)
      ensures forall s | s in old(Known()) :: s in Known() && At(s) == old(At(s))
      ensures old(Answer(w, own, spareSid)).Success? ==>
        var a, sid := old(Answer(w, own, spareSid)).value, NewSid(w, spareSid);
        && Known() == old(Known()) + {sid} && At(sid).View() == a.state && CurrentSid() == Text.Min(Known())
        && Observed() == old(Observed())[sid := a.state]
        && prekeys.prekeys != null && prekeys.prekeys.View() == P.WithoutNamed(old(prekeys.prekeys.View()), w.payload)
        && r == (if a.body == "__S3_INIT__" then Control else Message(a.body))
      ensures old(Answer(w, own, spareSid)).Failure? ==>
        && Known() == old(Known()) && CurrentSid() == old(CurrentSid()) && prekeys.prekeys == old(prekeys.prekeys) && r == Hidden
        && Observed() == old(Observed())
    {
      var answer := TakeAnswer(w, own, spareSid);
      if answer.Failure? { return Hidden; }
      AddSession(answer.value.state);
      r := Shown(answer.value.body);
    }

    /** `pqxdh_respond` in the prekey store; no session moves. */
    method TakeAnswer(w: P.InitWire, own: Pub, spareSid: string) returns (answer: Result<P.Responded, P.Error>)
      requires Valid() && prekeys.prekeys != null
      modifies prekeys
      ensures Valid() && Known() == old(Known()) && CurrentSid() == old(CurrentSid()) && Observed() == old(Observed())
      ensures forall s | s in Known() :: At(s) == old(At(s))
      ensures answer == old(Answer(w, own, spareSid))
      ensures answer.Success? ==>
        && answer.value.state.ctx.sid == NewSid(w, spareSid)
        && prekeys.prekeys != null && prekeys.prekeys.View() == P.WithoutNamed(old(prekeys.prekeys.View()), w.payload)
      ensures answer.Failure? ==> prekeys.prekeys == old(prekeys.prekeys)
    {
      var a := prekeys.RespondWithCurrentPrekey(w, myUid, own, spareSid);
      answer := a.value;
    }

    /** A session answered for joins the map, and the smallest id becomes current. */
    method AddSession(s: R.State)
      requires Valid() && s.ctx.sid != "" && s.ctx.sid !in Known()
      modifies this`sessions, this`current
      ensures Valid() && Known() == old(Known()) + {s.ctx.sid} && At(s.ctx.sid).View() == s
      ensures CurrentSid() == Text.Min(Known())
      ensures forall t | t in old(Known()) :: At(t) == old(At(t))
      ensures Observed() == old(Observed())[s.ctx.sid := s]
    {
      ghost var held := Observed();
      var state := new DoubleRatchet.Of(s);
      assert Observed() == held;
      Enter(state);
    }

    /** A session that is not known yet enters the map, and the smallest id becomes current. */
    method Enter(state: DoubleRatchet)
      requires Valid() && state.ctx.sid != "" && state.ctx.sid !in Known()
      modifies this`sessions, this`current
      ensures Valid() && Known() == old(Known()) + {state.ctx.sid} && At(state.ctx.sid) == state
      ensures CurrentSid() == Text.Min(Known())
      ensures forall t | t in old(Known()) :: At(t) == old(At(t))
      ensures Observed() == old(Observed())[state.ctx.sid := state.View()]
    {
      ghost var held, v := Observed(), state.View();
      Remember(state);
      Settle(state);
      PutTwice(held, state.ctx.sid, v);
    }

    /** The smallest id becomes current, and the map is written. */
    method Settle(state: DoubleRatchet)
      requires Consistent() && state.ctx.sid in Known() && At(state.ctx.sid) == state && state.ctx.sid != ""
      modifies this`sessions, this`current
      ensures Valid() && Known() == old(Known()) && CurrentSid() == Text.Min(Known())
      ensures forall t | t in Known() :: At(t) == old(At(t))
      ensures Observed() == old(Observed())[state.ctx.sid := state.View()]
    {
      SelectCanonical(state);
      Save();
    }

    /** `initiate_pqxdh_dm`: only without a session. */
    method Initiate(b: P.Bundle, identity: string, who: P.Parties, coins: P.Coins, body: string) returns (w: Option<P.InitWire>)
      requires Valid() && coins.sid != ""
      modifies this`sessions, this`current
      ensures Valid()
      ensures w.Some? <==> old(current) == null && prekeys.prekeys != null
                           && P.Initiate(b, prekeys.prekeys.View(), identity, who, coins, body).Success?
      ensures w.Some? ==>
        var (wire, state, _) := P.Initiate(b, prekeys.prekeys.View(), identity, who, coins, body).value;
        && w.value == wire && Known() == {coins.sid} && At(coins.sid).View() == state && CurrentSid() == coins.sid
        && Observed() == map[coins.sid := state]
      ensures w.None? ==> current == old(current) && sessions == old(sessions)
    {
      if current != null || prekeys.prekeys == null { return None; }
      var started := P.Initiate(b, prekeys.prekeys.View(), identity, who, coins, body);
      if started.Failure? { return None; }
      var state := new DoubleRatchet.Of(started.value.1);
      current := state;
      assert Known() == {coins.sid};
      Remember(state);
      Save();
      w := Some(started.value.0);
    }

    /** The current object seals a body. */
    method EncryptCurrent(body: string, own: Pub) returns (wire: R.Wire)
      requires Valid() && current != null
      modifies current
      ensures Valid() && CurrentSid() == old(CurrentSid())
      ensures (current.View(), wire) == R.Encrypt(old(current.View()), body, own)
      ensures Observed() == old(Observed())[CurrentSid() := current.View()]
    {
      ghost var held := Observed();
      wire := current.Encrypt(body, own);
      OneMoves(held, Observed(), CurrentSid(), current.View());
    }

    /** `encrypt_for_conv` in a DM: the current session sends. */
    method EncryptForConv(body: string, own: Pub) returns (w: Option<R.Wire>)
      requires Valid()
      modifies this`sessions, current
      ensures Valid() && Known() == old(Known()) && current == old(current)
      ensures w.Some? <==> current != null
      ensures w.Some? ==> (current.View(), w.value) == R.Encrypt(old(current.View()), body, own)
      ensures forall s | s in Known() :: At(s) == old(At(s))
      ensures w.Some? ==> old(Observed()) != map[] && Observed() == AfterSend(old(Observed()), body, own)
    {
      if current == null { return None; }
      ghost var held := Observed();
      assert held.Keys == Known();
      var wire := EncryptCurrent(body, own);
      Save();
      SendRouted(held, CurrentSid(), body, own);
      w := Some(wire);
    }
  }
}
