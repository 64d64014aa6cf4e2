/**
 What a disclosed ratchet state gives away: forward secrecy of the message keys a
 run has used, and recovery once a secret nobody knows has been mixed in.
 */
module Secrecy {
  import opened Wrappers
  import opened Keys
  import opened Ratchet
  import opened RatchetOnce
  import P = Pqxdh

  /** Disclosed key material: keys, private halves of key pairs, and secrets of encapsulations. */
  datatype Knowledge = Knowledge(keys: set<Key>, secrets: set<Pub>, kems: set<KemSecret>)

  /** Either private key is enough for the shared value. */
  predicate Opens(k: Knowledge, dh: Shared) { dh.ends * k.secrets != {} }

  /** Whether the initial agreement can be made from what is known. */
  predicate Agrees(k: Knowledge, parts: seq<Shared>, kem: KemSecret) {
    kem in k.kems && forall i | 0 <= i < |parts| :: Opens(k, parts[i])
  }

  /** What the derivations lead to from `k`. */
  predicate Derivable(k: Knowledge, key: Key) {
    key in k.keys ||
    match key
    case PqxdhRoot(parts, kem) => Agrees(k, parts, kem)
    case InitLeft(root) => Derivable(k, root)
    case InitRight(root) => Derivable(k, root)
    case HeaderLeft(root) => Derivable(k, root)
    case HeaderRight(root) => Derivable(k, root)
    case RkRoot(root, dh) => Opens(k, dh) && Derivable(k, root)
    case RkChain(root, dh) => Opens(k, dh) && Derivable(k, root)
    case CkMsg(ck) => Derivable(k, ck)
    case CkNext(ck) => Derivable(k, ck)
    case HeaderChain(root, ck) => Derivable(k, root) && Derivable(k, ck)
  }

  // ---- the least closed set --------------------------------------------

  /** Every derivation from members of `ds` stays in `ds`. */
  ghost predicate Closed(k: Knowledge, ds: iset<Key>) {
    && (forall key | key in k.keys :: key in ds)
    && (forall parts, kem | Agrees(k, parts, kem) :: PqxdhRoot(parts, kem) in ds)
    && (forall root | root in ds :: InitLeft(root) in ds && InitRight(root) in ds && HeaderLeft(root) in ds && HeaderRight(root) in ds)
    && (forall root, dh | root in ds && Opens(k, dh) :: RkRoot(root, dh) in ds && RkChain(root, dh) in ds)
    && (forall ck | ck in ds :: CkMsg(ck) in ds && CkNext(ck) in ds)
    && (forall root, ck | root in ds && ck in ds :: HeaderChain(root, ck) in ds)
  }

  /** `Derivable` is the least set that the derivations do not lead out of. */
  lemma DerivableIsLeast(k: Knowledge, key: Key)
    ensures Derivable(k, key) <==> forall ds | Closed(k, ds) :: key in ds
  {
    var all := iset d | Derivable(k, d);
    assert Closed(k, all);
    if Derivable(k, key) {
      forall ds | Closed(k, ds) ensures key in ds { InEveryClosed(k, key, ds); }
    }
  }

  lemma {:induction false} InEveryClosed(k: Knowledge, key: Key, ds: iset<Key>)
    requires Closed(k, ds) && Derivable(k, key)
    ensures key in ds
  {
    if key !in k.keys {
      match key
      case PqxdhRoot(_, _) =>
      case InitLeft(root) => InEveryClosed(k, root, ds);
      case InitRight(root) => InEveryClosed(k, root, ds);
      case HeaderLeft(root) => InEveryClosed(k, root, ds);
      case HeaderRight(root) => InEveryClosed(k, root, ds);
      case RkRoot(root, _) => InEveryClosed(k, root, ds);
      case RkChain(root, _) => InEveryClosed(k, root, ds);
      case CkMsg(ck) => InEveryClosed(k, ck, ds);
      case CkNext(ck) => InEveryClosed(k, ck, ds);
      case HeaderChain(root, ck) => InEveryClosed(k, root, ds); InEveryClosed(k, ck, ds);
    }
  }

  // ---- chains and roots ------------------------------------------------

  /** A chain can be entered where it opened, or at a known key no further on. */
  ghost predicate Enters(k: Knowledge, chain: Key) {
    Derivable(k, Base(chain)) || exists x :: x in k.keys && Base(x) == Base(chain) && Steps(x) <= Steps(chain)
  }

  lemma {:induction false} ChainDerivableIff(k: Knowledge, chain: Key)
    ensures Derivable(k, chain) <==> Enters(k, chain)
  {
    ChainShape(chain);
    if chain in k.keys {
    } else if chain.CkNext? {
      ChainDerivableIff(k, chain.ck);
      EntersNext(k, chain);
    }
  }

  lemma EntersNext(k: Knowledge, chain: Key)
    requires chain.CkNext? && chain !in k.keys
    ensures Enters(k, chain) <==> Enters(k, chain.ck)
  {
    forall x | x in k.keys && Base(x) == Base(chain) && Steps(x) <= Steps(chain) ensures Steps(x) <= Steps(chain.ck) {
      if Steps(x) == Steps(chain) {
        ChainShape(x);
        ChainShape(chain);
      }
    }
  }

  /** The root the first chains came from. */
  function Origin(root: Key): Key {
    if root.RkRoot? then Origin(root.root) else root
  }

  /** `r` was reached from `r0` by root steps. */
  predicate Above(r: Key, r0: Key) {
    r == r0 || (r.RkRoot? && Above(r.root, r0))
  }

  /** Every shared value mixed in between has a known end. */
  predicate AllOpen(k: Knowledge, r: Key, r0: Key)
    requires Above(r, r0)
  {
    r == r0 || (Opens(k, r.dh) && AllOpen(k, r.root, r0))
  }

  // ---- roots -----------------------------------------------------------

  /** A root below every known one cannot be made again. */
  lemma {:induction false} OldRootClosed(k: Knowledge, r: Key, top: Key)
    requires KnowsOneRoot(k, top) && Rank(r) < Rank(top)
    requires Origin(r).PqxdhRoot? && !Agrees(k, Origin(r).parts, Origin(r).kem)
    ensures !Derivable(k, r)
  {
    if r.RkRoot? { OldRootClosed(k, r.root, top); }
  }

  /** No root but `top` is among the known keys. */
  ghost predicate KnowsOneRoot(k: Knowledge, top: Key) {
    forall x | x in k.keys && (x.PqxdhRoot? || x.RkRoot?) :: x == top
  }

  lemma {:induction false} AboveRank(r: Key, r0: Key)
    requires Above(r, r0)
    ensures Rank(r0) <= Rank(r) && Origin(r) == Origin(r0) && (Rank(r) == Rank(r0) ==> r == r0)
  {
    if r != r0 { AboveRank(r.root, r0); }
  }

  /** A root above the known one is made exactly with one end of every pair mixed in since. */
  lemma {:induction false} RootDerivableIff(k: Knowledge, r: Key, r0: Key)
    requires Above(r, r0) && KnowsOneRoot(k, r0) && r0 in k.keys
    ensures Derivable(k, r) <==> AllOpen(k, r, r0)
  {
    if r != r0 {
      AboveRank(r.root, r0);
      assert r !in k.keys;
      RootDerivableIff(k, r.root, r0);
    }
  }

  /** A secret with no known end stays in the way. */
  lemma {:induction false} ClosedStaysClosed(k: Knowledge, r: Key, r1: Key, r0: Key)
    requires Above(r, r1) && Above(r1, r0) && !AllOpen(k, r1, r0)
    ensures Above(r, r0) && !AllOpen(k, r, r0)
  {
    if r != r1 {
      ClosedStaysClosed(k, r.root, r1, r0);
      AboveRank(r.root, r0);
    }
  }

  // ---- runs ------------------------------------------------------------

  /** Everything secret a state holds but its private ratchet key. */
  function KeysOf(s: State): set<Key> {
    {s.rootKey, s.send.ck, s.send.hk, s.recv.ck, s.recv.hk} + s.recv.skipped.Values
  }

  /** The message key an event uses, if it sends or opens a body. */
  function UsedBy(s: State, e: Event): set<Key> {
    match e
    case Send(body, own) => var box := Encrypt(s, body, own).1.ct; (if box.BodyBox? then {box.key} else {})
    case Receive(_, _, _, _) => UsedAfter(s, e, {})
  }

  /** The message keys a run uses. */
  function UsedIn(s: State, es: seq<Event>): set<Key>
    decreases |es|
  {
    if es == [] then {} else UsedBy(s, es[0]) + UsedIn(After(s, es[0]), es[1..])
  }

  // ---- forward secrecy -------------------------------------------------

  /** Opening keys of the sending and receiving chains so far, and message keys used on them. */
  datatype Ledger = Ledger(mine: set<Key>, theirs: set<Key>, sent: set<Key>, heard: set<Key>)

  /** A chain of a session that started from `origin`, opened by one of its first `rank` root steps. */
  predicate Opening(b: Key, origin: Key, rank: nat) {
    && (b == InitLeft(origin) || b == InitRight(origin) || (b.RkChain? && Origin(b.root) == origin))
    && ChainRank(b) <= rank
  }

  predicate IsHeaderKey(hk: Key) { hk.HeaderLeft? || hk.HeaderRight? || hk.HeaderChain? }

  /** A message key of one of the chains in `bases`. */
  predicate OnChain(mk: Key, bases: set<Key>) { mk.CkMsg? && Base(mk.ck) in bases }

  ghost predicate Chains(s: State, origin: Key, mine: set<Key>, theirs: set<Key>) {
    && Origin(s.rootKey) == origin && mine !! theirs
    && (forall b | b in mine + theirs :: Opening(b, origin, Rank(s.rootKey)))
    && Base(s.send.ck) in mine && Base(s.recv.ck) in theirs
    && IsHeaderKey(s.send.hk) && IsHeaderKey(s.recv.hk)
    && (forall i | i in s.recv.skipped :: OnChain(s.recv.skipped[i], theirs))
  }

  ghost predicate Kept(s: State, origin: Key, l: Ledger) {
    && Inv(s, l.heard) && Chains(s, origin, l.mine, l.theirs)
    && (forall mk | mk in l.sent :: OnChain(mk, l.mine) && Past(s.send.ck, mk))
    && (forall mk | mk in l.heard :: OnChain(mk, l.theirs))
  }

  /** A receiving chain opened by a root step is new. */
  lemma NewReceiving(s: State, t: State, origin: Key, mine: set<Key>, theirs: set<Key>, dh: Shared)
    requires Chains(s, origin, mine, theirs)
    requires t.rootKey == RkRoot(s.rootKey, dh) && t.recv.ck == RkChain(s.rootKey, dh) && IsHeaderKey(t.recv.hk)
    requires t.recv.skipped == s.recv.skipped && t.send.ck == s.send.ck && t.send.hk == s.send.hk
    ensures Chains(t, origin, mine, theirs + {t.recv.ck})
  {
    assert t.recv.ck !in mine by { assert !Opening(t.recv.ck, origin, Rank(s.rootKey)); }
    forall b | b in mine + (theirs + {t.recv.ck}) ensures Opening(b, origin, Rank(t.rootKey)) {
      assert b == t.recv.ck || b in mine + theirs;
    }
  }

  /** And so is a sending one. */
  lemma NewSending(s: State, t: State, origin: Key, mine: set<Key>, theirs: set<Key>, dh: Shared)
    requires Chains(s, origin, mine, theirs)
    requires t.rootKey == RkRoot(s.rootKey, dh) && t.send.ck == RkChain(s.rootKey, dh) && IsHeaderKey(t.send.hk)
    requires t.recv.skipped == s.recv.skipped && t.recv.ck == s.recv.ck && t.recv.hk == s.recv.hk
    ensures Chains(t, origin, mine + {t.send.ck}, theirs)
    ensures forall mk | Past(s.send.ck, mk) :: Past(t.send.ck, mk)
  {
    assert t.send.ck !in theirs by { assert !Opening(t.send.ck, origin, Rank(s.rootKey)); }
    forall b | b in (mine + {t.send.ck}) + theirs ensures Opening(b, origin, Rank(t.rootKey)) {
      assert b == t.send.ck || b in mine + theirs;
    }
    assert Opening(Base(s.send.ck), origin, Rank(s.rootKey));
  }

  lemma DhRatchetChains(s: State, t: State, remote: Pub, own: Pub, origin: Key, mine: set<Key>, theirs: set<Key>)
    requires Chains(s, origin, mine, theirs) && t == DhRatchet(s, remote, own)
    ensures Chains(t, origin, mine + {t.send.ck}, theirs + {t.recv.ck}) && !t.send.ck.CkNext? && !t.recv.ck.CkNext?
    ensures forall mk | Past(s.send.ck, mk) :: Past(t.send.ck, mk)
  {
    var mid := OpenReceiving(EnterChain(s, remote));
    NewReceiving(s, mid, origin, mine, theirs, Dh(s.send.dh, remote));
    NewSending(mid, t, origin, mine, theirs + {mid.recv.ck}, Dh(own, remote));
  }

  lemma {:induction false} StoreSkippedOnChain(r: Receiving, until: nat, theirs: set<Key>)
    requires r.n <= until && Base(r.ck) in theirs && forall i | i in r.skipped :: OnChain(r.skipped[i], theirs)
    ensures var t := StoreSkipped(r, until);
      Base(t.ck) == Base(r.ck) && t.hk == r.hk && forall i | i in t.skipped :: OnChain(t.skipped[i], theirs)
    decreases until - r.n
  {
    if r.n < until { StoreSkippedOnChain(r, until - 1, theirs); }
  }

  /** What a decrypt on the current chain leaves. */
  lemma OpenInChainChains(s: State, w: Wire, h: Header, d: Decryption, origin: Key, mine: set<Key>, theirs: set<Key>)
    requires Chains(s, origin, mine, theirs) && d == OpenInChain(s, w, h)
    ensures Chains(d.state, origin, mine, theirs) && d.state.send == s.send && Base(d.state.recv.ck) == Base(s.recv.ck)
    ensures d.Opened? ==> w.ct.BodyBox? && OnChain(w.ct.key, theirs)
  {
    if h.n >= s.recv.n { StoreSkippedOnChain(s.recv, h.n, theirs); }
  }

  lemma OpenStoredChains(s: State, w: Wire, h: Header, d: Decryption, origin: Key, mine: set<Key>, theirs: set<Key>)
    requires Chains(s, origin, mine, theirs) && SkipId(h.dh, h.n) in s.recv.skipped && d == OpenStored(s, w, h)
    ensures Chains(d.state, origin, mine, theirs) && d.state.send == s.send && d.state.recv.ck == s.recv.ck
    ensures d.Opened? ==> w.ct.BodyBox? && OnChain(w.ct.key, theirs)
  {
  }

  /** The chains after a decrypt, opened or refused. */
  lemma DecryptChains(s: State, w: Wire, own: Pub, d: Decryption, origin: Key, mine: set<Key>, theirs: set<Key>)
    requires Chains(s, origin, mine, theirs) && d == Decrypt(s, w, own)
    ensures Chains(d.state, origin, mine + {Base(d.state.send.ck)}, theirs + {Base(d.state.recv.ck)})
    ensures forall mk | Past(s.send.ck, mk) :: Past(d.state.send.ck, mk)
    ensures d.Opened? ==> w.ct.BodyBox? && OnChain(w.ct.key, theirs + {Base(d.state.recv.ck)})
  {
    assert mine + {Base(s.send.ck)} == mine && theirs + {Base(s.recv.ck)} == theirs;
    var header := ReadHeader(s.recv.hk, w);
    if header.Some? && CheckHeader(s.ctx, s.seen, header.value).None? {
      var h := header.value;
      if SkipId(h.dh, h.n) in s.recv.skipped {
        OpenStoredChains(s, w, h, d, origin, mine, theirs);
      } else if s.recv.remote == "" || h.dh != s.recv.remote {
        if IsPublicKey(h.dh) {
          var t := DhRatchet(s, h.dh, own);
          DhRatchetChains(s, t, h.dh, own, origin, mine, theirs);
          OpenInChainChains(t, w, h, d, origin, mine + {t.send.ck}, theirs + {t.recv.ck});
        }
      } else {
        OpenInChainChains(s, w, h, d, origin, mine, theirs);
      }
    }
  }

  function LedgerAfter(s: State, e: Event, l: Ledger): Ledger {
    var t := After(s, e);
    Ledger(l.mine + {Base(t.send.ck)}, l.theirs + {Base(t.recv.ck)},
           if e.Send? then l.sent + UsedBy(s, e) else l.sent, UsedAfter(s, e, l.heard))
  }

  lemma SendKept(s: State, body: string, own: Pub, origin: Key, l: Ledger)
    requires Kept(s, origin, l)
    ensures Kept(After(s, Send(body, own)), origin, LedgerAfter(s, Send(body, own), l))
  {
    var t, after := MaybeSendRatchet(s, own), After(s, Send(body, own));
    if s.send.needsRatchet && s.recv.remote != "" {
      NewSending(s, t, origin, l.mine, l.theirs, Dh(own, s.recv.remote));
    }
    NextIsNotPast(t.send.ck);
    StepKeeps(s, Send(body, own), l.heard);
    assert l.mine + {Base(t.send.ck)} == l.mine + {Base(after.send.ck)} && l.theirs + {Base(s.recv.ck)} == l.theirs;
    assert t == s ==> l.mine + {Base(t.send.ck)} == l.mine;
  }

  lemma ReceiveKept(s: State, e: Event, origin: Key, l: Ledger)
    requires Kept(s, origin, l) && e.Receive?
    ensures Kept(After(s, e), origin, LedgerAfter(s, e, l))
  {
    DecryptChains(s, e.w, e.own, Decrypt(s, e.w, e.own), origin, l.mine, l.theirs);
    StepKeeps(s, e, l.heard);
    assert l.mine + {Base(s.send.ck)} == l.mine && l.theirs + {Base(s.recv.ck)} == l.theirs;
  }

  /** The ledger after a whole run. */
  function LedgerOf(s: State, es: seq<Event>, l: Ledger): Ledger
    decreases |es|
  {
    if es == [] then l else LedgerOf(After(s, es[0]), es[1..], LedgerAfter(s, es[0], l))
  }

  lemma StepRecords(s: State, e: Event, l: Ledger)
    ensures var m := LedgerAfter(s, e, l); m.sent + m.heard == UsedBy(s, e) + l.sent + l.heard
  {
  }

  lemma {:induction false} RunKept(s: State, es: seq<Event>, origin: Key, l: Ledger)
    requires Kept(s, origin, l)
    ensures Kept(Run(s, es), origin, LedgerOf(s, es, l))
    ensures var m := LedgerOf(s, es, l); UsedIn(s, es) + l.sent + l.heard == m.sent + m.heard
    decreases |es|
  {
    if es != [] {
      if es[0].Send? { SendKept(s, es[0].body, es[0].own, origin, l); } else { ReceiveKept(s, es[0], origin, l); }
      RunKept(After(s, es[0]), es[1..], origin, LedgerAfter(s, es[0], l));
      StepRecords(s, es[0], l);
    }
  }

  /** A session as it starts: new, or with the key of the initial body used. */
  function Started(root: Key, initiator: bool, own: Pub, remote: Pub, ctx: Context, initial: bool): State {
    var s := New(root, initiator, own, remote, ctx.sid).(ctx := ctx);
    if !initial then s
    else if initiator then s.(send := s.send.(ck := CkNext(s.send.ck), n := 1))
    else s.(recv := s.recv.(ck := CkNext(s.recv.ck), n := 1))
  }

  function UsedAtStart(root: Key, initial: bool): set<Key> { if initial then {CkMsg(InitLeft(root))} else {} }

  lemma StartedKept(root: Key, initiator: bool, own: Pub, remote: Pub, ctx: Context, initial: bool)
    requires root.PqxdhRoot?
    ensures var s, u := Started(root, initiator, own, remote, ctx, initial), UsedAtStart(root, initial);
      var left, right := {InitLeft(root)}, {InitRight(root)};
      Kept(s, root, if initiator then Ledger(left, right, u, {}) else Ledger(right, left, {}, u))
  {
    var s, left, right := Started(root, initiator, own, remote, ctx, initial), InitLeft(root), InitRight(root);
    assert Base(left) == left && Base(right) == right && Steps(left) == 0;
    assert Opening(left, root, 0) && Opening(right, root, 0);
    if initiator {
      assert Chains(s, root, {left}, {right});
    } else {
      assert Chains(s, root, {right}, {left});
    }
  }

  /** The disclosed keys let a used chain be entered only at the very root of the session. */
  lemma UsedKeyDerivableIff(s: State, k: Knowledge, origin: Key, l: Ledger, mk: Key)
    requires Kept(s, origin, l) && mk in l.sent + l.heard && k.keys == KeysOf(s)
    requires origin.PqxdhRoot? && !Agrees(k, origin.parts, origin.kem)
    ensures Derivable(k, mk) <==> s.rootKey == origin
  {
    UsedKeyNotKept(s, origin, l, mk);
    ChainDerivableIff(k, mk.ck);
    ChainNotEntered(s, k, origin, l, mk);
    StateIsOld(s, k, origin, l);
    BaseIsBase(mk.ck);
    OpeningDerivableIff(s, k, origin, Base(mk.ck));
  }

  lemma {:induction false} BaseIsBase(chain: Key)
    ensures Base(Base(chain)) == Base(chain) && Steps(Base(chain)) == 0
  {
    if chain.CkNext? { BaseIsBase(chain.ck); }
  }

  lemma UsedKeyNotKept(s: State, origin: Key, l: Ledger, mk: Key)
    requires Kept(s, origin, l) && mk in l.sent + l.heard && origin.PqxdhRoot?
    ensures mk.CkMsg? && mk !in KeysOf(s) && Opening(Base(mk.ck), origin, Rank(s.rootKey))
  {
    assert Opening(Base(s.send.ck), origin, Rank(s.rootKey)) && Opening(Base(s.recv.ck), origin, Rank(s.rootKey));
    assert mk != s.rootKey && mk != s.send.ck && mk != s.recv.ck;
    forall i | i in s.recv.skipped ensures s.recv.skipped[i] != mk {
      assert OnChain(s.recv.skipped[i], l.theirs);
      assert mk in l.sent ==> OnChain(mk, l.mine);
    }
  }

  lemma ChainNotEntered(s: State, k: Knowledge, origin: Key, l: Ledger, mk: Key)
    requires Kept(s, origin, l) && mk in l.sent + l.heard && k.keys == KeysOf(s) && mk.CkMsg?
    requires origin.PqxdhRoot?
    ensures forall x | x in k.keys && Base(x) == Base(mk.ck) :: Steps(x) > Steps(mk.ck)
  {
    forall x | x in k.keys && Base(x) == Base(mk.ck) ensures Steps(x) > Steps(mk.ck) { KeyIsPast(s, origin, l, mk, x); }
  }

  lemma KeyIsPast(s: State, origin: Key, l: Ledger, mk: Key, x: Key)
    requires Kept(s, origin, l) && mk in l.sent + l.heard && origin.PqxdhRoot?
    requires x in KeysOf(s) && mk.CkMsg? && Base(x) == Base(mk.ck)
    ensures Steps(x) > Steps(mk.ck)
  {
    assert mk in l.sent ==> OnChain(mk, l.mine) && Past(s.send.ck, mk);
    assert mk in l.heard ==> OnChain(mk, l.theirs) && Past(s.recv.ck, mk);
    assert Opening(Base(mk.ck), origin, Rank(s.rootKey));
    assert forall i | i in s.recv.skipped :: OnChain(s.recv.skipped[i], l.theirs);
  }

  lemma OpeningDerivableIff(s: State, k: Knowledge, origin: Key, b: Key)
    requires Origin(s.rootKey) == origin && Opening(b, origin, Rank(s.rootKey)) && k.keys == KeysOf(s)
    requires origin.PqxdhRoot? && !Agrees(k, origin.parts, origin.kem)
    requires b !in k.keys && KnowsOneRoot(k, s.rootKey)
    ensures Derivable(k, b) <==> s.rootKey == origin
  {
    if b.RkChain? { OldRootClosed(k, b.root, s.rootKey); }
  }

  /**
   After any run of a session, the disclosed state gives away a message key used
   before exactly when the session still holds its first root; any private keys may be known.
   */
  lemma ForwardSecrecy(root: Key, initiator: bool, own: Pub, remote: Pub, ctx: Context, initial: bool, es: seq<Event>, k: Knowledge, mk: Key)
    requires root.PqxdhRoot? && !Agrees(k, root.parts, root.kem)
    requires var s := Started(root, initiator, own, remote, ctx, initial);
      k.keys == KeysOf(Run(s, es)) && mk in UsedAtStart(root, initial) + UsedIn(s, es)
    ensures Derivable(k, mk) <==> Run(Started(root, initiator, own, remote, ctx, initial), es).rootKey == root
  {
    var s, u := Started(root, initiator, own, remote, ctx, initial), UsedAtStart(root, initial);
    var left, right := {InitLeft(root)}, {InitRight(root)};
    var l := if initiator then Ledger(left, right, u, {}) else Ledger(right, left, {}, u);
    StartedKept(root, initiator, own, remote, ctx, initial);
    RunKept(s, es, root, l);
    UsedKeyDerivableIff(Run(s, es), k, root, LedgerOf(s, es, l), mk);
  }

  /**
   What an agreement rests on: the hidden secret, the peer's signed key or both of the
   initiator's, and with a curve one-time key that one or the initiator's ephemeral.
   */
  lemma AgreementNeeds(k: Knowledge, b: P.Bundle, store: P.Store, coins: P.Coins)
    ensures var root := P.InitiatorRoot(b, store, coins); var otk := b.curveOtk.keyId > 0 && b.curveOtk.key != "";
      root.PqxdhRoot? &&
      (Agrees(k, root.parts, root.kem) <==>
        && root.kem in k.kems
        && (b.curve.key in k.secrets || (store.curveSigned.key in k.secrets && coins.eph in k.secrets))
        && (otk ==> b.curveOtk.key in k.secrets || coins.eph in k.secrets))
  {
    var root := P.InitiatorRoot(b, store, coins);
    OpensIff(k, store.curveSigned.key, b.curve.key);
    OpensIff(k, coins.eph, b.curve.key);
    OpensIff(k, coins.eph, b.curveOtk.key);
    assert root.parts[0] == Dh(store.curveSigned.key, b.curve.key) && root.parts[1] == Dh(coins.eph, b.curve.key);
    if P.ChosenCurveOtk(b) != "" { assert root.parts[2] == Dh(coins.eph, b.curveOtk.key); }
  }

  lemma {:induction false} RootStays(s: State, es: seq<Event>)
    requires !s.send.needsRatchet && forall e | e in es :: e.Send?
    ensures Run(s, es).rootKey == s.rootKey
    decreases |es|
  {
    if es != [] {
      assert es[0] in es;
      RootStays(After(s, es[0]), es[1..]);
    }
  }

  /** An initiator that has heard nothing yet: its keys alone give away all it has sent. */
  lemma UnansweredIsOpen(root: Key, own: Pub, ctx: Context, initial: bool, es: seq<Event>, mk: Key)
    requires root.PqxdhRoot? && forall e | e in es :: e.Send?
    requires mk in UsedAtStart(root, initial) + UsedIn(Started(root, true, own, "", ctx, initial), es)
    ensures Derivable(Knowledge(KeysOf(Run(Started(root, true, own, "", ctx, initial), es)), {}, {}), mk)
  {
    var s := Started(root, true, own, "", ctx, initial);
    RootStays(s, es);
    ForwardSecrecy(root, true, own, "", ctx, initial, es, Knowledge(KeysOf(Run(s, es)), {}, {}), mk);
  }

  /** The states both ends of a key agreement begin with. */
  lemma AgreementStarts(b: P.Bundle, store: P.Store, identity: string, who: P.Parties, coins: P.Coins, body: string,
                        w: P.InitWire, expected: int, own: Pub, spareSid: string)
    ensures var i := P.Initiate(b, store, identity, who, coins, body);
      i.Success? ==>
        && i.value.0.ct.key in UsedAtStart(P.InitiatorRoot(b, store, coins), true)
        && i.value.1 == Started(P.InitiatorRoot(b, store, coins), true, coins.ratchet, "", i.value.1.ctx, true)
    ensures var r := P.Response(store, w, expected, own, spareSid);
      r.Success? ==>
        && w.ct.key in UsedAtStart(P.ResponderRoot(store, w.payload), true)
        && r.value.state == Started(P.ResponderRoot(store, w.payload), false, own, w.payload.drPub, r.value.state.ctx, true)
    ensures P.InitiatorRoot(b, store, coins).PqxdhRoot? && P.ResponderRoot(store, w.payload).PqxdhRoot?
  {
  }

  // ---- recovery --------------------------------------------------------

  /** A chain that the root step to `r`, or a later one, has opened. */
  predicate OpenedFrom(b: Key, r: Key) {
    b.RkChain? && Above(RkRoot(b.root, b.dh), r)
  }

  /** A chain opened by a root step after `r`. */
  predicate OpenedAfter(b: Key, r: Key) {
    b.RkChain? && Above(b.root, r)
  }

  function ChainOf(x: Key): Key { if x.CkMsg? then x.ck else x }

  /** A key of a chain opened since the disclosure, or one that the disclosure gives away. */
  predicate Traced(k: Knowledge, r0: Key, x: Key) {
    OpenedAfter(Base(ChainOf(x)), r0) || Derivable(k, x)
  }

  ghost predicate AllTraced(k: Knowledge, r0: Key, s: State) {
    && Above(s.rootKey, r0) && Traced(k, r0, s.send.ck) && Traced(k, r0, s.recv.ck) && !s.send.ck.CkMsg? && !s.recv.ck.CkMsg?
    && forall i | i in s.recv.skipped :: Traced(k, r0, s.recv.skipped[i])
  }

  lemma {:induction false} StoreSkippedTraced(k: Knowledge, r0: Key, r: Receiving, until: nat)
    requires r.n <= until && Traced(k, r0, r.ck) && !r.ck.CkMsg? && forall i | i in r.skipped :: Traced(k, r0, r.skipped[i])
    ensures var t := StoreSkipped(r, until);
      Traced(k, r0, t.ck) && !t.ck.CkMsg? && forall i | i in t.skipped :: Traced(k, r0, t.skipped[i])
    decreases until - r.n
  {
    if r.n < until { StoreSkippedTraced(k, r0, r, until - 1); }
  }

  lemma OpenInChainTraced(k: Knowledge, r0: Key, s: State, w: Wire, h: Header, d: Decryption)
    requires AllTraced(k, r0, s) && d == OpenInChain(s, w, h)
    ensures AllTraced(k, r0, d.state) && (d.Opened? ==> w.ct.BodyBox? && Traced(k, r0, w.ct.key))
  {
    if h.n >= s.recv.n { StoreSkippedTraced(k, r0, s.recv, h.n); }
  }

  lemma OpenStoredTraced(k: Knowledge, r0: Key, s: State, w: Wire, h: Header, d: Decryption)
    requires AllTraced(k, r0, s) && SkipId(h.dh, h.n) in s.recv.skipped && d == OpenStored(s, w, h)
    ensures AllTraced(k, r0, d.state) && (d.Opened? ==> w.ct.BodyBox? && Traced(k, r0, w.ct.key))
  {
  }

  lemma DecryptTraced(k: Knowledge, r0: Key, s: State, w: Wire, own: Pub, d: Decryption)
    requires AllTraced(k, r0, s) && d == Decrypt(s, w, own)
    ensures AllTraced(k, r0, d.state) && (d.Opened? ==> w.ct.BodyBox? && Traced(k, r0, w.ct.key))
  {
    var header := ReadHeader(s.recv.hk, w);
    if header.Some? && CheckHeader(s.ctx, s.seen, header.value).None? {
      var h := header.value;
      if SkipId(h.dh, h.n) in s.recv.skipped {
        OpenStoredTraced(k, r0, s, w, h, d);
      } else if s.recv.remote == "" || h.dh != s.recv.remote {
        if IsPublicKey(h.dh) { OpenInChainTraced(k, r0, DhRatchet(s, h.dh, own), w, h, d); }
      } else {
        OpenInChainTraced(k, r0, s, w, h, d);
      }
    }
  }

  lemma {:induction false} RunTraced(k: Knowledge, r0: Key, s: State, es: seq<Event>)
    requires AllTraced(k, r0, s)
    ensures AllTraced(k, r0, Run(s, es)) && forall mk | mk in UsedIn(s, es) :: mk.CkMsg? ==> Traced(k, r0, mk)
    decreases |es|
  {
    if es != [] {
      if es[0].Receive? { DecryptTraced(k, r0, s, es[0].w, es[0].own, Decrypt(s, es[0].w, es[0].own)); }
      RunTraced(k, r0, After(s, es[0]), es[1..]);
    }
  }

  /** No key of a state is newer than its root. */
  lemma StateIsOld(s: State, k: Knowledge, origin: Key, l: Ledger)
    requires Kept(s, origin, l) && origin.PqxdhRoot? && k.keys == KeysOf(s)
    ensures KnowsOneRoot(k, s.rootKey) && s.rootKey in k.keys
    ensures forall x | x in k.keys :: !OpenedAfter(Base(ChainOf(x)), s.rootKey)
  {
    forall x | x in k.keys ensures !OpenedAfter(Base(ChainOf(x)), s.rootKey) {
      KeyIsOld(s, origin, l, x);
      var b := Base(ChainOf(x));
      if OpenedAfter(b, s.rootKey) { AboveRank(b.root, s.rootKey); }
    }
    forall x | x in k.keys && (x.PqxdhRoot? || x.RkRoot?) ensures x == s.rootKey { KeyIsOld(s, origin, l, x); }
  }

  lemma KeyIsOld(s: State, origin: Key, l: Ledger, x: Key)
    requires Kept(s, origin, l) && origin.PqxdhRoot? && x in KeysOf(s)
    ensures x == s.rootKey || (!x.PqxdhRoot? && !x.RkRoot?)
    ensures var b := Base(ChainOf(x)); b.RkChain? ==> ChainRank(b) <= Rank(s.rootKey)
  {
    assert Opening(Base(s.send.ck), origin, Rank(s.rootKey)) && Opening(Base(s.recv.ck), origin, Rank(s.rootKey));
    if x in s.recv.skipped.Values {
      var i :| i in s.recv.skipped && s.recv.skipped[i] == x;
      assert OnChain(x, l.theirs) && Opening(Base(x.ck), origin, Rank(s.rootKey));
    }
  }

  /** A message key of a chain opened since is derived exactly with one end of every pair mixed in up to its root step. */
  lemma NewKeyDerivableIff(k: Knowledge, r0: Key, mk: Key)
    requires KnowsOneRoot(k, r0) && r0 in k.keys && mk.CkMsg? && OpenedAfter(Base(mk.ck), r0)
    requires forall x | x in k.keys :: !OpenedAfter(Base(ChainOf(x)), r0)
    ensures var b := Base(mk.ck); Above(RkRoot(b.root, b.dh), r0) && (Derivable(k, mk) <==> AllOpen(k, RkRoot(b.root, b.dh), r0))
  {
    var b := Base(mk.ck);
    ChainDerivableIff(k, mk.ck);
    assert forall x | x in k.keys && Base(x) == b :: ChainOf(x) == x;
    RootDerivableIff(k, b.root, r0);
    AboveRank(b.root, r0);
    assert ChainOf(b) == b && Base(b) == b;
  }

  lemma RecoversIff(s: State, origin: Key, l: Ledger, es: seq<Event>, k: Knowledge, mk: Key)
    requires Kept(s, origin, l) && origin.PqxdhRoot? && k.keys == KeysOf(s) && mk in UsedIn(s, es)
    ensures mk.CkMsg? && (Derivable(k, mk) <==> GivenAway(k, s.rootKey, Base(mk.ck)))
  {
    StateIsOld(s, k, origin, l);
    UsedIsTraced(s, origin, l, es, k, mk);
    if OpenedAfter(Base(mk.ck), s.rootKey) { NewKeyDerivableIff(k, s.rootKey, mk); }
  }

  lemma UsedIsTraced(s: State, origin: Key, l: Ledger, es: seq<Event>, k: Knowledge, mk: Key)
    requires Kept(s, origin, l) && k.keys == KeysOf(s) && mk in UsedIn(s, es)
    ensures mk.CkMsg? && (OpenedAfter(Base(mk.ck), s.rootKey) || Derivable(k, mk))
  {
    UsedIsMessageKey(s, es, origin, l, mk);
    ChainsAreNoMessageKeys(s, origin, l);
    StateIsTraced(k, s);
    RunTraced(k, s.rootKey, s, es);
  }

  lemma ChainsAreNoMessageKeys(s: State, origin: Key, l: Ledger)
    requires Kept(s, origin, l)
    ensures !s.send.ck.CkMsg? && !s.recv.ck.CkMsg?
  {
    assert Opening(Base(s.send.ck), origin, Rank(s.rootKey)) && Opening(Base(s.recv.ck), origin, Rank(s.rootKey));
  }

  lemma UsedIsMessageKey(s: State, es: seq<Event>, origin: Key, l: Ledger, mk: Key)
    requires Kept(s, origin, l) && mk in UsedIn(s, es)
    ensures mk.CkMsg?
  {
    RunKept(s, es, origin, l);
    var m := LedgerOf(s, es, l);
    assert mk in m.sent + m.heard;
    assert mk in m.sent ==> OnChain(mk, m.mine);
    assert mk in m.heard ==> OnChain(mk, m.theirs);
  }

  lemma StateIsTraced(k: Knowledge, s: State)
    requires k.keys == KeysOf(s) && !s.send.ck.CkMsg? && !s.recv.ck.CkMsg?
    ensures AllTraced(k, s.rootKey, s)
  {
    assert forall i | i in s.recv.skipped :: s.recv.skipped[i] in k.keys;
  }

  /** A chain that was open at root `r0`, or has had only pairs with a known end mixed in since. */
  predicate GivenAway(k: Knowledge, r0: Key, b: Key) {
    OpenedAfter(b, r0) ==> Above(RkRoot(b.root, b.dh), r0) && AllOpen(k, RkRoot(b.root, b.dh), r0)
  }

  /**
   A state is disclosed in the middle of a run. A message key used later is given away
   exactly when its chain was open already, or one end of every pair mixed into it since is known.
   */
  lemma RecoveryIff(root: Key, initiator: bool, own: Pub, remote: Pub, ctx: Context, initial: bool,
                    before: seq<Event>, es: seq<Event>, k: Knowledge, mk: Key)
    requires root.PqxdhRoot?
    requires var s := Run(Started(root, initiator, own, remote, ctx, initial), before); k.keys == KeysOf(s) && mk in UsedIn(s, es)
    ensures mk.CkMsg?
    ensures Derivable(k, mk) <==> GivenAway(k, Run(Started(root, initiator, own, remote, ctx, initial), before).rootKey, Base(mk.ck))
  {
    var s := Run(Started(root, initiator, own, remote, ctx, initial), before);
    var l := ReachedKept(root, initiator, own, remote, ctx, initial, before);
    RecoversIff(s, root, l, es, k, mk);
  }

  /** Every state of a run keeps its ledger. */
  lemma ReachedKept(root: Key, initiator: bool, own: Pub, remote: Pub, ctx: Context, initial: bool, es: seq<Event>) returns (l: Ledger)
    requires root.PqxdhRoot?
    ensures Kept(Run(Started(root, initiator, own, remote, ctx, initial), es), root, l)
    ensures UsedAtStart(root, initial) + UsedIn(Started(root, initiator, own, remote, ctx, initial), es) == l.sent + l.heard
  {
    var u, left, right := UsedAtStart(root, initial), {InitLeft(root)}, {InitRight(root)};
    var first := if initiator then Ledger(left, right, u, {}) else Ledger(right, left, {}, u);
    StartedKept(root, initiator, own, remote, ctx, initial);
    RunKept(Started(root, initiator, own, remote, ctx, initial), es, root, first);
    l := LedgerOf(Started(root, initiator, own, remote, ctx, initial), es, first);
  }

  // ---- sending after a recovery ----------------------------------------

  /** The message keys of what a run sends. */
  function SentIn(s: State, es: seq<Event>): set<Key>
    decreases |es|
  {
    if es == [] then {} else (if es[0].Send? then UsedBy(s, es[0]) else {}) + SentIn(After(s, es[0]), es[1..])
  }

  predicate SendsFrom(s: State, r: Key) {
    Above(s.rootKey, r) && OpenedFrom(Base(s.send.ck), r)
  }

  lemma StepSendsFrom(s: State, e: Event, r: Key)
    requires SendsFrom(s, r)
    ensures SendsFrom(After(s, e), r)
    ensures e.Send? ==> forall mk | mk in UsedBy(s, e) :: mk.CkMsg? && OpenedFrom(Base(mk.ck), r)
  {
    if e.Receive? { DecryptMovesRoot(s, e.w, e.own, Decrypt(s, e.w, e.own)); }
  }

  /** A decrypt leaves root and sending chain as they are, or takes both root steps. */
  lemma DecryptMovesRoot(s: State, w: Wire, own: Pub, d: Decryption)
    requires d == Decrypt(s, w, own)
    ensures (d.state.rootKey == s.rootKey && d.state.send.ck == s.send.ck)
         || var mid := RkRoot(s.rootKey, Dh(s.send.dh, d.state.recv.remote));
            d.state.rootKey == RkRoot(mid, Dh(own, d.state.recv.remote)) && d.state.send.ck == RkChain(mid, Dh(own, d.state.recv.remote))
  {
    var header := ReadHeader(s.recv.hk, w);
    if header.Some? && CheckHeader(s.ctx, s.seen, header.value).None? {
      var h := header.value;
      if SkipId(h.dh, h.n) !in s.recv.skipped && IsPublicKey(h.dh) {
        ChainMovesNoRoot(s, w, h, OpenInChain(s, w, h));
        ChainMovesNoRoot(DhRatchet(s, h.dh, own), w, h, OpenInChain(DhRatchet(s, h.dh, own), w, h));
      }
    }
  }

  lemma ChainMovesNoRoot(s: State, w: Wire, h: Header, d: Decryption)
    requires d == OpenInChain(s, w, h)
    ensures d.state.rootKey == s.rootKey && d.state.send == s.send && d.state.recv.remote == s.recv.remote
  {
    if h.n >= s.recv.n { StoreSkippedFacts(s.recv, h.n); }
  }

  lemma {:induction false} RunSendsFrom(s: State, es: seq<Event>, r: Key)
    requires SendsFrom(s, r)
    ensures forall mk | mk in SentIn(s, es) :: mk.CkMsg? && OpenedFrom(Base(mk.ck), r)
    decreases |es|
  {
    if es != [] {
      StepSendsFrom(s, es[0], r);
      RunSendsFrom(After(s, es[0]), es[1..], r);
    }
  }

  /** An event that moves the root opens a sending chain with it. */
  lemma RootStepSends(s: State, e: Event)
    requires After(s, e).rootKey != s.rootKey
    ensures var t := After(s, e);
      && t.rootKey.RkRoot? && Above(t.rootKey, s.rootKey) && SendsFrom(t, t.rootKey)
      && (e.Send? ==> forall mk | mk in UsedBy(s, e) :: mk.CkMsg? && OpenedFrom(Base(mk.ck), t.rootKey))
  {
    if e.Receive? { DecryptMovesRoot(s, e.w, e.own, Decrypt(s, e.w, e.own)); }
  }

  /**
   Once an event mixes a pair of which neither private key is known into the root,
   nothing it or any later event sends is given away, whatever is received meanwhile.
   */
  lemma SentIsSecretAgain(root: Key, initiator: bool, own: Pub, remote: Pub, ctx: Context, initial: bool,
                          before: seq<Event>, es: seq<Event>, k: Knowledge, mk: Key)
    requires root.PqxdhRoot? && es != []
    requires var s := Run(Started(root, initiator, own, remote, ctx, initial), before); var t := After(s, es[0]);
      && k.keys == KeysOf(s) && t.rootKey != s.rootKey && (t.rootKey.RkRoot? ==> !Opens(k, t.rootKey.dh))
      && mk in SentIn(s, es)
    ensures !Derivable(k, mk)
  {
    var s := Run(Started(root, initiator, own, remote, ctx, initial), before);
    var t := After(s, es[0]);
    var l := ReachedKept(root, initiator, own, remote, ctx, initial, before);
    StateIsOld(s, k, root, l);
    RootStepSends(s, es[0]);
    RunSendsFrom(t, es[1..], t.rootKey);
    var b := Base(mk.ck);
    ClosedStaysClosed(k, RkRoot(b.root, b.dh), t.rootKey, s.rootKey);
    NewKeyDerivableIff(k, s.rootKey, mk);
  }

  /** One answer from the peer: the chain it opens can still be read with the old private key, the one sent on cannot. */
  lemma OneExchangeHeals(s: State, remote: Pub, own: Pub, k: Knowledge, origin: Key, l: Ledger)
    requires Kept(s, origin, l) && origin.PqxdhRoot? && k.keys == KeysOf(s)
    ensures var t, known := DhRatchet(s, remote, own), s.send.dh in k.secrets || remote in k.secrets;
      && (Derivable(k, t.recv.ck) <==> known)
      && (Derivable(k, t.send.ck) <==> known && (own in k.secrets || remote in k.secrets))
      && (Derivable(k, t.rootKey) <==> known && (own in k.secrets || remote in k.secrets))
  {
    StateIsOld(s, k, origin, l);
    var t := DhRatchet(s, remote, own);
    var first, second := Dh(s.send.dh, remote), Dh(own, remote);
    var mid := RkRoot(s.rootKey, first);
    assert t.rootKey == RkRoot(mid, second) && t.recv.ck == RkChain(s.rootKey, first) && t.send.ck == RkChain(mid, second);
    assert Above(mid, s.rootKey) && OpenedAfter(t.send.ck, s.rootKey) && OpenedAfter(t.recv.ck, s.rootKey);
    assert t.send.ck !in k.keys && t.recv.ck !in k.keys;
    OpensIff(k, s.send.dh, remote);
    OpensIff(k, own, remote);
    RootDerivableIff(k, mid, s.rootKey);
    RootDerivableIff(k, t.rootKey, s.rootKey);
    AboveRank(mid, s.rootKey);
  }

  lemma OpensIff(k: Knowledge, a: Pub, b: Pub)
    ensures Opens(k, Dh(a, b)) <==> a in k.secrets || b in k.secrets
  {
    var ends := Dh(a, b).ends;
    assert a in ends && b in ends;
    if Opens(k, Dh(a, b)) {
      var p :| p in ends && p in k.secrets;
    } else {
      assert a !in ends * k.secrets && b !in ends * k.secrets;
    }
  }
}
