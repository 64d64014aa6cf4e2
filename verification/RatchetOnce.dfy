/**
 At-most-once acceptance: whatever wires a state is given, forged or not, and
 however much of `seen` is forgotten, no body box is opened twice.
 */
module RatchetOnce {
  import opened Wrappers
  import opened Keys
  import opened Ratchet

  /**
   One use of a state. `rollback` restores the state before a refused wire, as the
   session layer does; without it the damaged state stays. `remembered` is whatever
   trimming, saving and loading leave of `seen`: nothing is assumed about it.
   */
  datatype Event =
    | Send(body: string, own: Pub)
    | Receive(w: Wire, own: Pub, rollback: bool, remembered: set<string>)

  function After(s: State, e: Event): State {
    match e
    case Send(body, own) => Encrypt(s, body, own).0
    case Receive(w, own, rollback, remembered) =>
      var d := Decrypt(s, w, own);
      (if d.Refused? && rollback then s else d.state).(seen := remembered)
  }

  /** The state after a whole run. */
  function Run(s: State, es: seq<Event>): State
    decreases |es|
  {
    if es == [] then s else Run(After(s, es[0]), es[1..])
  }

  /** The box an event opens, if it opens one. */
  function OpenedBox(s: State, e: Event): Option<BodyBox> {
    if e.Receive? && Decrypt(s, e.w, e.own).Opened? then Some(e.w.ct) else None
  }

  /** The boxes opened along a run, event by event. */
  function OpenedBoxes(s: State, es: seq<Event>): (os: seq<Option<BodyBox>>)
    ensures |os| == |es|
    decreases |es|
  {
    if es == [] then [] else [OpenedBox(s, es[0])] + OpenedBoxes(After(s, es[0]), es[1..])
  }

  // ---- the invariant ---------------------------------------------------

  /** A message key the receiving chain has already gone past. */
  predicate Past(ck: Key, mk: Key) {
    mk.CkMsg? &&
    (ChainRank(Base(mk.ck)) < ChainRank(Base(ck)) || (Base(mk.ck) == Base(ck) && Steps(mk.ck) < Steps(ck)))
  }

  /** Used keys and stored keys are past, and no key is both used and stored or stored twice. */
  ghost predicate Spent(r: Receiving, used: set<Key>) {
    && (forall mk | mk in used :: Past(r.ck, mk))
    && (forall k | k in r.skipped :: Past(r.ck, r.skipped[k]) && r.skipped[k] !in used)
    && (forall k, l | k in r.skipped && l in r.skipped && r.skipped[k] == r.skipped[l] :: k == l)
  }

  ghost predicate Inv(s: State, used: set<Key>) {
    Spent(s.recv, used) && ChainRank(Base(s.recv.ck)) <= Rank(s.rootKey)
  }

  lemma NextIsNotPast(ck: Key)
    ensures !Past(ck, CkMsg(ck)) && Past(CkNext(ck), CkMsg(ck))
    ensures forall mk | Past(ck, mk) :: Past(CkNext(ck), mk) && mk != CkMsg(ck)
  {
  }

  lemma StoreOneKeeps(r: Receiving, used: set<Key>)
    requires Spent(r, used)
    ensures Spent(StoreOne(r), used)
  {
    NextIsNotPast(r.ck);
    var t := StoreOne(r);
    var added := SkipId(r.remote, r.n);
    assert t.skipped == r.skipped[added := CkMsg(r.ck)];
    assert forall k | k in t.skipped :: k == added || (k in r.skipped && t.skipped[k] == r.skipped[k]);
  }

  lemma {:induction false} StoreSkippedKeeps(r: Receiving, until: nat, used: set<Key>)
    requires Spent(r, used) && r.n <= until
    ensures Spent(StoreSkipped(r, until), used)
    ensures Base(StoreSkipped(r, until).ck) == Base(r.ck)
    decreases until - r.n
  {
    if r.n < until {
      StoreSkippedKeeps(r, until - 1, used);
      StoreOneKeeps(StoreSkipped(r, until - 1), used);
    }
  }

  lemma DhRatchetKeeps(s: State, remote: Pub, own: Pub, used: set<Key>)
    requires Inv(s, used)
    ensures Inv(DhRatchet(s, remote, own), used)
  {
    var t := DhRatchet(s, remote, own);
    assert ChainRank(Base(t.recv.ck)) == 1 + Rank(s.rootKey);
    forall mk | Past(s.recv.ck, mk) ensures Past(t.recv.ck, mk) {
    }
  }

  lemma OpenInChainKeeps(s: State, w: Wire, h: Header, used: set<Key>)
    requires Inv(s, used)
    ensures var d := OpenInChain(s, w, h);
      && (d.Refused? ==> Inv(d.state, used))
      && (d.Opened? ==> w.ct.BodyBox? && w.ct.key !in used && Inv(d.state, used + {w.ct.key}))
  {
    match SkipUntil(s.recv, h.n) {
      case None =>
      case Some(r) =>
        if h.n >= s.recv.n { StoreSkippedKeeps(s.recv, h.n, used); }
        NextIsNotPast(r.ck);
        var t := r.(ck := CkNext(r.ck), n := r.n + 1);
        assert Spent(t, used) && Spent(t, used + {CkMsg(r.ck)});
    }
  }

  lemma OpenStoredKeeps(s: State, w: Wire, h: Header, used: set<Key>)
    requires Inv(s, used) && SkipId(h.dh, h.n) in s.recv.skipped
    ensures var d := OpenStored(s, w, h);
      && (d.Refused? ==> Inv(d.state, used))
      && (d.Opened? ==> w.ct.BodyBox? && w.ct.key !in used && Inv(d.state, used + {w.ct.key}))
  {
    var k := SkipId(h.dh, h.n);
    var t := s.recv.(skipped := s.recv.skipped - {k});
    assert Spent(t, used) && Spent(t, used + {s.recv.skipped[k]});
  }

  lemma DecryptKeeps(s: State, w: Wire, own: Pub, used: set<Key>)
    requires Inv(s, used)
    ensures var d := Decrypt(s, w, own);
      && (d.Refused? ==> Inv(d.state, used))
      && (d.Opened? ==> w.ct.BodyBox? && w.ct.key !in used && Inv(d.state, used + {w.ct.key}))
  {
    var header := ReadHeader(s.recv.hk, w);
    if header.Some? && CheckHeader(s.ctx, s.seen, header.value).None? {
      var h := header.value;
      if SkipId(h.dh, h.n) in s.recv.skipped {
        OpenStoredKeeps(s, w, h, used);
      } else if s.recv.remote == "" || h.dh != s.recv.remote {
        DhRatchetKeeps(s, h.dh, own, used);
        OpenInChainKeeps(DhRatchet(s, h.dh, own), w, h, used);
      } else {
        OpenInChainKeeps(s, w, h, used);
      }
    }
  }

  /** The keys used once an event is over. */
  function UsedAfter(s: State, e: Event, used: set<Key>): set<Key> {
    match OpenedBox(s, e)
    case Some(BodyBox(key, _, _)) => used + {key}
    case _ => used
  }

  lemma StepKeeps(s: State, e: Event, used: set<Key>)
    requires Inv(s, used)
    ensures Inv(After(s, e), UsedAfter(s, e, used))
    ensures var box := OpenedBox(s, e); box.Some? ==> box.value.BodyBox? && box.value.key !in used
  {
    if e.Receive? { DecryptKeeps(s, e.w, e.own, used); }
  }

  // ---- whole runs ------------------------------------------------------

  lemma OpenedLater(s: State, es: seq<Event>, j: nat)
    requires j < |es|
    ensures OpenedBoxes(s, es)[j] == if j == 0 then OpenedBox(s, es[0]) else OpenedBoxes(After(s, es[0]), es[1..])[j - 1]
  {
  }

  /** Once a key is used, no later event of any run opens a box with it. */
  lemma {:induction false} UsedKeysStayUsed(s: State, es: seq<Event>, used: set<Key>, j: nat)
    requires Inv(s, used) && j < |es|
    ensures var box := OpenedBoxes(s, es)[j]; box.Some? ==> box.value.BodyBox? && box.value.key !in used
    decreases |es|
  {
    StepKeeps(s, es[0], used);
    OpenedLater(s, es, j);
    if j > 0 { UsedKeysStayUsed(After(s, es[0]), es[1..], UsedAfter(s, es[0], used), j - 1); }
  }

  /** Two events of one run never open the same box, nor two boxes under one key. */
  lemma {:induction false} AtMostOnce(s: State, es: seq<Event>, used: set<Key>, i: nat, j: nat)
    requires Inv(s, used) && i < j < |es|
    ensures var os := OpenedBoxes(s, es);
      os[i].Some? && os[j].Some? ==> os[i].value.BodyBox? && os[j].value.BodyBox? && os[i].value.key != os[j].value.key
    decreases |es|
  {
    StepKeeps(s, es[0], used);
    OpenedLater(s, es, i);
    OpenedLater(s, es, j);
    if i == 0 {
      UsedKeysStayUsed(After(s, es[0]), es[1..], UsedAfter(s, es[0], used), j - 1);
    } else {
      AtMostOnce(After(s, es[0]), es[1..], UsedAfter(s, es[0], used), i - 1, j - 1);
    }
  }

  /**
   A new session satisfies the invariant with no key used, and so does the responder's
   after `pqxdh_respond` has taken the first key of its chain for the initial body.
   */
  lemma NewSession(root: Key, initiator: bool, own: Pub, remote: Pub, sid: string)
    ensures var s := New(root, initiator, own, remote, sid);
      && Inv(s, {})
      && Inv(s.(recv := s.recv.(ck := CkNext(s.recv.ck), n := 1)), {CkMsg(s.recv.ck)})
  {
  }

  /** So in a session that starts with `DoubleRatchet.new`, no box is ever opened twice. */
  lemma NewSessionOpensOnce(root: Key, initiator: bool, own: Pub, remote: Pub, sid: string,
                            es: seq<Event>, i: nat, j: nat)
    requires i < j < |es|
    ensures var os := OpenedBoxes(New(root, initiator, own, remote, sid), es);
      os[i].Some? && os[j].Some? ==> os[i] != os[j]
  {
    NewSession(root, initiator, own, remote, sid);
    AtMostOnce(New(root, initiator, own, remote, sid), es, {}, i, j);
  }
}
