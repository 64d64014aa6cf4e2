/**
 What a pass over a history shows of each message the first time: which are read,
 with which text, and that the peer's wires in order give what the peer said.
 */
module HistoryReading {
  import opened Wrappers
  import opened Keys
  import opened HistoryCache
  import R = Ratchet
  import S = SessionMap
  import T = TwoParty
  import F = Fifo
  import Text

  // ---- the cache -------------------------------------------------------

  /** The line is of the message: under its id, if it has one, or under the hash of its wire. */
  predicate LineOf(c: Client, l: Line, item: Item) {
    (item.id != 0 && l.id == item.id) || l.wire == Some(c.hash(item.wire))
  }

  ghost predicate HasLine(c: Client, lines: seq<Line>, item: Item) {
    c.cached && exists l :: l in lines && LineOf(c, l, item)
  }

  lemma {:induction false} FindIdIs(lines: seq<Line>, id: int)
    ensures FindId(lines, id).Some? <==> exists l :: l in lines && l.id == id
    ensures FindId(lines, id).Some? ==> exists l :: l in lines && l.id == id && l.body == FindId(lines, id).value
  {
    if lines != [] {
      FindIdIs(lines[..|lines| - 1], id);
      assert lines == lines[..|lines| - 1] + [lines[|lines| - 1]];
    }
  }

  lemma {:induction false} FindWireIs(lines: seq<Line>, hash: string)
    ensures FindWire(lines, hash).Some? <==> exists l :: l in lines && l.wire == Some(hash)
    ensures FindWire(lines, hash).Some? ==> exists l :: l in lines && l.wire == Some(hash) && l.body == FindWire(lines, hash).value
  {
    if lines != [] {
      FindWireIs(lines[..|lines| - 1], hash);
      assert lines == lines[..|lines| - 1] + [lines[|lines| - 1]];
    }
  }

  /** A message is found exactly when the cache has a line of it, and what is found is such a line's text. */
  lemma HitIff(c: Client, lines: seq<Line>, item: Item)
    ensures Hit(c, lines, item).Some? <==> HasLine(c, lines, item)
    ensures Hit(c, lines, item).Some? ==> exists l :: l in lines && LineOf(c, l, item) && l.body == Hit(c, lines, item).value
  {
    FindIdIs(lines, item.id);
    FindWireIs(lines, c.hash(item.wire));
  }

  // ---- one message -----------------------------------------------------

  /** The session that gets a wire: the one its header or the field beside it names, else the one with the smallest id. */
  ghost predicate Routed(held: map<string, R.State>, w: R.Wire, t: string) {
    var named := if w.h.Some? && w.h.value.ctx.sid != "" then w.h.value.ctx.sid else w.sid;
    && t in held
    && if named != "" && named in held then t == named else forall s | s in held :: Text.Le(t, s)
  }

  /**
   A message of somebody else without a line in the cache is shown exactly when the
   session it is routed to opens it, with what was sealed in it, unpacked.
   */
  lemma PeerIsShownIff(c: Client, s: Reader, items: seq<Item>, owns: seq<Pub>, i: nat, t: string)
    requires |owns| == |items| && i < |items| && !items[i].deleted && items[i].sender != c.me && !HasLine(c, s.lines, items[i])
    requires var held := Pass(c, s, items[..i], owns[..i]).held; held != map[] ==> Routed(held, items[i].wire, t)
    ensures var held, shown := Pass(c, s, items[..i], owns[..i]).held, ShownAt(c, s, items, owns, i);
      && (held == map[] ==> shown == Hidden)
      && (held != map[] ==>
            var d := R.Decrypt(held[t], items[i].wire, owns[i]);
            (shown.Body? <==> d.Opened?) && shown == if d.Opened? then Body(c.unpack(d.body)) else Hidden)
  {
    HitIff(c, s.lines, items[i]);
    var held := Pass(c, s, items[..i], owns[..i]).held;
    if held != map[] { RoutedIsTarget(held, items[i].wire, t); }
  }

  lemma RoutedIsTarget(held: map<string, R.State>, w: R.Wire, t: string)
    requires held != map[] && Routed(held, w, t)
    ensures t == S.TargetSid(held.Keys, Text.Min(held.Keys), w)
  {
    var m := Text.Min(held.Keys);
    assert m in held.Keys;
    if Text.Le(t, m) && Text.Le(m, t) { Text.LeAntisymmetric(t, m); }
  }

  /** A message of one's own is shown exactly when it is cached, by id or by wire, whatever the sessions hold. */
  lemma OwnIsShownIff(c: Client, s: Reader, items: seq<Item>, owns: seq<Pub>, i: nat)
    requires |owns| == |items| && i < |items| && !items[i].deleted && items[i].sender == c.me
    ensures var shown := ShownAt(c, s, items, owns, i);
      && (shown.Body? <==> HasLine(c, s.lines, items[i]))
      && (!shown.Body? ==> shown == Hidden)
    ensures Pass(c, s, items[..i + 1], owns[..i + 1]).held == Pass(c, s, items[..i], owns[..i]).held
  {
    HitIff(c, s.lines, items[i]);
    assert items[..i + 1][..i] == items[..i] && owns[..i + 1][..i] == owns[..i];
  }

  /** Whoever sent it, a cached message is shown as a line of it says, and a deleted one as deleted. */
  lemma CachedIsShownAs(c: Client, s: Reader, items: seq<Item>, owns: seq<Pub>, i: nat)
    requires |owns| == |items| && i < |items|
    ensures ShownAt(c, s, items, owns, i) == Deleted <==> items[i].deleted
    ensures !items[i].deleted && HasLine(c, s.lines, items[i]) ==>
      exists l :: l in s.lines && LineOf(c, l, items[i]) && ShownAt(c, s, items, owns, i) == Body(c.unpack(l.body))
  {
    HitIff(c, s.lines, items[i]);
    if !items[i].deleted && HasLine(c, s.lines, items[i]) {
      var l :| l in s.lines && LineOf(c, l, items[i]) && l.body == Hit(c, s.lines, items[i]).value;
    }
  }

  // ---- the peer's wires in order ---------------------------------------

  function UsedUpTo(owns: seq<Pub>, n: nat): set<Pub>
    requires n <= |owns|
  {
    set j | 0 <= j < n :: owns[j]
  }

  /** Key pairs that are new, each to those before it. */
  ghost predicate AllFresh(owns: seq<Pub>, used: set<Pub>) {
    forall i | 0 <= i < |owns| :: T.Fresh(owns[i], used + UsedUpTo(owns, i))
  }

  /** The first wires on their way to `p`, as undeleted messages of the peer that are not in the cache. */
  ghost predicate IsHistory(c: Client, lines: seq<Line>, l: F.Link, p: T.Party, items: seq<Item>) {
    && |F.Heard(l, p)| + |items| <= |T.Of(l.sys, T.Other(p)).sent|
    && forall i | 0 <= i < |items| ::
         && !items[i].deleted && items[i].sender != c.me && !HasLine(c, lines, items[i])
         && items[i].wire == T.Of(l.sys, T.Other(p)).sent[|F.Heard(l, p)| + i]
  }

  /** Where the pass is after `n` messages, as a link in which they were heard. */
  ghost predicate Follows(l: F.Link, m: F.Link, p: T.Party, n: nat, owns: seq<Pub>, s: Reader, sid: string)
    requires n <= |owns|
  {
    && F.InOrder(m) && s.held == map[sid := T.Of(m.sys, p).state]
    && T.Of(m.sys, T.Other(p)) == T.Of(l.sys, T.Other(p)) && F.Said(m, T.Other(p)) == F.Said(l, T.Other(p))
    && |F.Heard(m, p)| == |F.Heard(l, p)| + n
    && m.sys.used == l.sys.used + UsedUpTo(owns, n)
  }

  /** One more wire of the queue is read. */
  lemma ReadsNext(c: Client, index: seq<Line>, s: Reader, l: F.Link, m: F.Link, p: T.Party, items: seq<Item>, owns: seq<Pub>, n: nat, sid: string)
      returns (m': F.Link)
    requires n < |items| == |owns| && IsHistory(c, index, l, p, items) && AllFresh(owns, l.sys.used) && Follows(l, m, p, n, owns, s, sid)
    ensures var (t, shown) := ReadOne(c, index, s, items[n], owns[n]);
      && shown == Body(c.unpack(F.Said(l, T.Other(p))[|F.Heard(l, p)| + n]))
      && Follows(l, m', p, n + 1, owns, t, sid)
  {
    var w, own := items[n].wire, owns[n];
    assert T.Fresh(own, m.sys.used) && F.Queue(m, p)[0] == w;
    F.OrderMeansAgreement(m, p, own);
    var d := R.Decrypt(T.Of(m.sys, p).state, w, own);
    var remembered := Trimmed(T.Of(m.sys, p).state, d);
    m' := HearsNext(m, p, w, own, remembered);
    OpenedIsShown(c, index, s, items[n], own, sid, T.Of(m.sys, p).state);
    UsedGrows(l.sys.used, owns, n);
  }

  lemma UsedGrows(used: set<Pub>, owns: seq<Pub>, n: nat)
    requires n < |owns|
    ensures used + UsedUpTo(owns, n + 1) == used + UsedUpTo(owns, n) + {owns[n]}
  {
  }

  lemma HearsNext(m: F.Link, p: T.Party, w: R.Wire, own: Pub, remembered: set<string>) returns (m': F.Link)
    requires F.InOrder(m) && T.Fresh(own, m.sys.used) && |F.Heard(m, p)| < |T.Of(m.sys, T.Other(p)).sent| && F.Queue(m, p)[0] == w
    requires var d := R.Decrypt(T.Of(m.sys, p).state, w, own); d.Opened? && remembered == Trimmed(T.Of(m.sys, p).state, d)
    ensures F.InOrder(m')
      && T.Of(m'.sys, p).state == R.Decrypt(T.Of(m.sys, p).state, w, own).state.(seen := remembered)
      && T.Of(m'.sys, T.Other(p)) == T.Of(m.sys, T.Other(p)) && F.Said(m', T.Other(p)) == F.Said(m, T.Other(p))
      && |F.Heard(m', p)| == |F.Heard(m, p)| + 1 && m'.sys.used == m.sys.used + {own}
  {
    Text.LargestOfIs(R.Decrypt(T.Of(m.sys, p).state, w, own).state.seen, R.SEEN_KEPT);
    assert F.CanAct(m, F.Hear(p, own, remembered));
    m' := F.Do(m, F.Hear(p, own, remembered));
    F.DoKeepsOrder(m, F.Hear(p, own, remembered));
    HearingMoves(m, p, own, remembered);
  }

  /** A wire the only session opens is shown, and leaves that session's new state. */
  lemma OpenedIsShown(c: Client, index: seq<Line>, s: Reader, item: Item, own: Pub, sid: string, state: R.State)
    requires !item.deleted && item.sender != c.me && !HasLine(c, index, item)
    requires s.held == map[sid := state] && R.Decrypt(state, item.wire, own).Opened?
    ensures var (t, shown) := ReadOne(c, index, s, item, own); var d := R.Decrypt(state, item.wire, own);
      shown == Body(c.unpack(d.body)) && t.held == map[sid := d.state.(seen := Trimmed(state, d))]
  {
    HitIff(c, index, item);
    OneSession(s.held, sid, item.wire);
    assert s.held != map[] && s.held[sid] == state;
  }

  lemma HearingMoves(m: F.Link, p: T.Party, own: Pub, remembered: set<string>)
    requires F.CanAct(m, F.Hear(p, own, remembered)) && R.Decrypt(T.Of(m.sys, p).state, F.Queue(m, p)[0], own).Opened?
    ensures var m' := F.Do(m, F.Hear(p, own, remembered));
      && T.Of(m'.sys, p).state == R.Decrypt(T.Of(m.sys, p).state, F.Queue(m, p)[0], own).state.(seen := remembered)
      && T.Of(m'.sys, T.Other(p)) == T.Of(m.sys, T.Other(p)) && F.Said(m', T.Other(p)) == F.Said(m, T.Other(p))
      && |F.Heard(m', p)| == |F.Heard(m, p)| + 1 && m'.sys.used == m.sys.used + {own}
  {
  }

  lemma OneSession(held: map<string, R.State>, sid: string, w: R.Wire)
    requires held.Keys == {sid}
    ensures S.TargetSid(held.Keys, Text.Min(held.Keys), w) == sid
  {
    assert Text.Min(held.Keys) in held.Keys;
  }

  lemma NothingRead(c: Client, s: Reader, l: F.Link, p: T.Party, items: seq<Item>, owns: seq<Pub>, sid: string)
    requires |items| == |owns| && F.InOrder(l) && s.held == map[sid := T.Of(l.sys, p).state]
    ensures Follows(l, l, p, 0, owns, Pass(c, s, items[..0], owns[..0]), sid)
  {
    assert UsedUpTo(owns, 0) == {};
  }

  lemma ReadsOne(c: Client, s: Reader, l: F.Link, m: F.Link, p: T.Party, items: seq<Item>, owns: seq<Pub>, k: nat, sid: string)
      returns (m': F.Link)
    requires k < |items| == |owns| && IsHistory(c, s.lines, l, p, items) && AllFresh(owns, l.sys.used)
    requires Follows(l, m, p, k, owns, Pass(c, s, items[..k], owns[..k]), sid)
    ensures Follows(l, m', p, k + 1, owns, Pass(c, s, items[..k + 1], owns[..k + 1]), sid)
    ensures |F.Heard(l, p)| + k < |F.Said(l, T.Other(p))| && ShownAt(c, s, items, owns, k) == Body(c.unpack(F.Said(l, T.Other(p))[|F.Heard(l, p)| + k]))
  {
    m' := ReadsNext(c, s.lines, Pass(c, s, items[..k], owns[..k]), l, m, p, items, owns, k, sid);
    PassNext(c, s, items, owns, k);
  }

  /** What the messages of a pass are shown as. */
  ghost predicate AreShown(c: Client, s: Reader, items: seq<Item>, owns: seq<Pub>, shown: seq<Shown>) {
    |shown| == |items| == |owns| && forall i | 0 <= i < |items| :: shown[i] == ShownAt(c, s, items, owns, i)
  }

  /** The messages are shown as the texts said from `from` on. */
  predicate ShowsSaid(c: Client, shown: seq<Shown>, said: seq<string>, from: nat) {
    from + |shown| <= |said| && forall i | 0 <= i < |shown| :: shown[i] == Body(c.unpack(said[from + i]))
  }

  lemma {:induction false} ReadsQueue(c: Client, s: Reader, l: F.Link, p: T.Party, items: seq<Item>, owns: seq<Pub>, n: nat, sid: string)
      returns (m: F.Link)
    requires n <= |items| == |owns| && IsHistory(c, s.lines, l, p, items) && AllFresh(owns, l.sys.used)
    requires F.InOrder(l) && s.held == map[sid := T.Of(l.sys, p).state]
    ensures Follows(l, m, p, n, owns, Pass(c, s, items[..n], owns[..n]), sid)
  {
    if n == 0 {
      NothingRead(c, s, l, p, items, owns, sid);
      m := l;
    } else {
      var before := ReadsQueue(c, s, l, p, items, owns, n - 1, sid);
      m := ReadsOne(c, s, l, before, p, items, owns, n - 1, sid);
    }
  }

  lemma MessageIsShown(c: Client, s: Reader, l: F.Link, p: T.Party, items: seq<Item>, owns: seq<Pub>, i: nat, sid: string)
    requires i < |items| == |owns| && IsHistory(c, s.lines, l, p, items) && AllFresh(owns, l.sys.used)
    requires F.InOrder(l) && s.held == map[sid := T.Of(l.sys, p).state]
    ensures |F.Heard(l, p)| + i < |F.Said(l, T.Other(p))| && ShownAt(c, s, items, owns, i) == Body(c.unpack(F.Said(l, T.Other(p))[|F.Heard(l, p)| + i]))
  {
    var before := ReadsQueue(c, s, l, p, items, owns, i, sid);
    var after := ReadsOne(c, s, l, before, p, items, owns, i, sid);
  }

  lemma QueueIsShown(c: Client, s: Reader, l: F.Link, p: T.Party, items: seq<Item>, owns: seq<Pub>, sid: string, shown: seq<Shown>)
    requires |items| == |owns| && IsHistory(c, s.lines, l, p, items) && AllFresh(owns, l.sys.used) && AreShown(c, s, items, owns, shown)
    requires F.InOrder(l) && s.held == map[sid := T.Of(l.sys, p).state]
    ensures ShowsSaid(c, shown, F.Said(l, T.Other(p)), |F.Heard(l, p)|)
  {
    HeardIsSaid(l, p);
    if items != [] { MessageIsShown(c, s, l, p, items, owns, |items| - 1, sid); }
    forall i | 0 <= i < |items| ensures shown[i] == Body(c.unpack(F.Said(l, T.Other(p))[|F.Heard(l, p)| + i])) {
      MessageIsShown(c, s, l, p, items, owns, i, sid);
    }
  }

  lemma HeardIsSaid(l: F.Link, p: T.Party)
    requires F.InOrder(l)
    ensures |F.Heard(l, p)| <= |F.Said(l, T.Other(p))|
  {
  }

  lemma PassNext(c: Client, s: Reader, items: seq<Item>, owns: seq<Pub>, k: nat)
    requires k < |items| == |owns|
    ensures ReadOne(c, s.lines, Pass(c, s, items[..k], owns[..k]), items[k], owns[k])
         == (Pass(c, s, items[..k + 1], owns[..k + 1]), ShownAt(c, s, items, owns, k))
  {
    assert items[..k + 1][..k] == items[..k] && owns[..k + 1][..k] == owns[..k];
  }

  lemma TalkIsInOrder(root: Key, i0: Pub, r0: Pub, ctxI: R.Context, ctxR: R.Context, acts: seq<F.Act>)
    requires T.Paired(ctxI, ctxR) && T.Fresh(i0, {}) && T.Fresh(r0, {i0}) && F.CanPerform(F.Connected(root, i0, r0, ctxI, ctxR), acts)
    ensures F.InOrder(F.Perform(F.Connected(root, i0, r0, ctxI, ctxR), acts))
  {
    F.ConnectedIsInOrder(root, i0, r0, ctxI, ctxR);
    F.PerformKeepsOrder(F.Connected(root, i0, r0, ctxI, ctxR), acts);
  }

  /**
   After any talk over queues in order, a history of the wires on their way, read
   with nothing of them in the cache, shows exactly what the peer said, in order.
   */
  lemma HistoryShowsWhatWasSaid(root: Key, i0: Pub, r0: Pub, ctxI: R.Context, ctxR: R.Context, acts: seq<F.Act>, p: T.Party,
                                c: Client, s: Reader, items: seq<Item>, owns: seq<Pub>, sid: string, shown: seq<Shown>)
    requires T.Paired(ctxI, ctxR) && T.Fresh(i0, {}) && T.Fresh(r0, {i0}) && F.CanPerform(F.Connected(root, i0, r0, ctxI, ctxR), acts)
    requires var l := F.Perform(F.Connected(root, i0, r0, ctxI, ctxR), acts);
      IsHistory(c, s.lines, l, p, items) && |owns| == |items| && AllFresh(owns, l.sys.used) && s.held == map[sid := T.Of(l.sys, p).state]
    requires AreShown(c, s, items, owns, shown)
    ensures var l := F.Perform(F.Connected(root, i0, r0, ctxI, ctxR), acts);
      ShowsSaid(c, shown, F.Said(l, T.Other(p)), |F.Heard(l, p)|)
  {
    TalkIsInOrder(root, i0, r0, ctxI, ctxR, acts);
    var l := F.Perform(F.Connected(root, i0, r0, ctxI, ctxR), acts);
    QueueIsShown(c, s, l, p, items, owns, sid, shown);
  }
}
