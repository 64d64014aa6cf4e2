/**
 What a load shows for each thing the server sent and each the client had: the
 records and events themselves, not the entries made of them.
 */
module TimelineRecords {
  import opened Wrappers
  import opened Edits
  import opened PendingEdits
  import opened StableSort
  import opened Timeline
  import opened TimelineFacts
  import C = ChatPageObject

  // ---- the server's events ---------------------------------------------

  /** A key the event is known by: its positive id, or its name. */
  predicate IsKeyOf(k: EventKey, ev: EventRecord) {
    (ev.sid > 0 && k == SystemId(ev.sid)) || (ev.name.Some? && k == NamedKey(ev.name.value))
  }

  predicate SameEvent(a: EventRecord, b: EventRecord) {
    (a.sid > 0 && a.sid == b.sid) || (a.name.Some? && a.name == b.name)
  }

  /** The events taken over: those with a text that are not the same as one taken before. */
  ghost predicate AreTaken(evs: seq<EventRecord>, taken: set<int>) {
    forall i :: i in taken <==> 0 <= i < |evs| && evs[i].text != "" && !Repeats(evs, taken, i)
  }

  /** The event is the same as one taken before it. */
  ghost predicate Repeats(evs: seq<EventRecord>, taken: set<int>, i: int)
    requires 0 <= i < |evs|
  {
    exists j :: 0 <= j < i && j in taken && SameEvent(evs[j], evs[i])
  }

  /** There is one such set for every list. */
  function TakenOf(evs: seq<EventRecord>): (taken: set<int>)
    ensures AreTaken(evs, taken)
  {
    if evs == [] then {}
    else
      var n := |evs| - 1;
      var before := TakenOf(evs[..n]);
      TakenGrows(evs, before);
      if evs[n].text != "" && forall j | j in before :: j < 0 || j >= n || !SameEvent(evs[j], evs[n]) then before + {n} else before
  }

  lemma TakenGrows(evs: seq<EventRecord>, before: set<int>)
    requires evs != [] && AreTaken(evs[..|evs| - 1], before)
    ensures var n := |evs| - 1;
      AreTaken(evs, if evs[n].text != "" && !Repeats(evs, before, n) then before + {n} else before)
  {
    var n := |evs| - 1;
    var taken := if evs[n].text != "" && !Repeats(evs, before, n) then before + {n} else before;
    assert n !in before && forall j | j in before :: 0 <= j < n;
    forall i | 0 <= i < n ensures Repeats(evs, taken, i) <==> Repeats(evs[..n], before, i) {
      RepeatsBefore(evs, n, before, taken, i);
    }
    assert Repeats(evs, taken, n) <==> Repeats(evs, before, n);
  }

  lemma RepeatsBefore(evs: seq<EventRecord>, n: nat, before: set<int>, taken: set<int>, i: nat)
    requires i < n < |evs| && before <= taken <= before + {n}
    ensures Repeats(evs, taken, i) <==> Repeats(evs[..n], before, i)
  {
    if Repeats(evs, taken, i) {
      var j :| 0 <= j < i && j in taken && SameEvent(evs[j], evs[i]);
      assert SameEvent(evs[..n][j], evs[..n][i]);
    }
    if Repeats(evs[..n], before, i) {
      var j :| 0 <= j < i && j in before && SameEvent(evs[..n][j], evs[..n][i]);
      assert SameEvent(evs[j], evs[i]);
    }
  }

  /** An entry that says what the event says. */
  ghost predicate IsEntryOf(e: Entry, ev: EventRecord) {
    && e.id <= 0 && e.body == ev.text && e.ts == ev.ts && e.event.Event?
    && e.event.sid == ev.sid && e.event.after == ev.after && e.event.persisted
    && (forall k :: k in e.event.keys <==> IsKeyOf(k, ev))
    && (ev.sid > 0 ==> e.id == -1_000_000_000 - ev.sid)
  }

  lemma KeysAre(ev: EventRecord)
    ensures forall k :: k in KeysFor(ev.sid, ev.name) <==> IsKeyOf(k, ev)
  {
  }

  /** The keys seen after `n` events are those of the ones taken. */
  ghost predicate KeysOfTaken(evs: seq<EventRecord>, taken: set<int>, n: nat, keys: set<EventKey>)
    requires n <= |evs|
  {
    forall k :: k in keys <==> KeyTaken(evs, taken, n, k)
  }

  ghost predicate KeyTaken(evs: seq<EventRecord>, taken: set<int>, n: nat, k: EventKey)
    requires n <= |evs|
  {
    exists i :: 0 <= i < n && i in taken && IsKeyOf(k, evs[i])
  }

  /** The entries are one for each event taken. */
  ghost predicate EntriesOfTaken(evs: seq<EventRecord>, taken: set<int>, n: nat, es: seq<Entry>)
    requires n <= |evs|
  {
    && (forall i | 0 <= i < n && i in taken :: Shown(es, evs[i]))
    && (forall e | e in es :: Says(evs, taken, n, e))
  }

  ghost predicate Shown(es: seq<Entry>, ev: EventRecord) { exists e :: e in es && IsEntryOf(e, ev) }

  ghost predicate Says(evs: seq<EventRecord>, taken: set<int>, n: nat, e: Entry)
    requires n <= |evs|
  {
    exists i :: 0 <= i < n && i in taken && IsEntryOf(e, evs[i])
  }

  /** The next event is taken exactly when it has a text and none of its keys was seen. */
  lemma NextTaken(evs: seq<EventRecord>, taken: set<int>, n: nat, keys: set<EventKey>)
    requires n < |evs| && AreTaken(evs, taken) && KeysOfTaken(evs, taken, n, keys)
    ensures n in taken <==> evs[n].text != "" && !KnownKey(keys, KeysFor(evs[n].sid, evs[n].name))
  {
    var ev := evs[n];
    KeysAre(ev);
    if KnownKey(keys, KeysFor(ev.sid, ev.name)) {
      var k :| k in KeysFor(ev.sid, ev.name) && k in keys;
      assert KeyTaken(evs, taken, n, k);
      var i :| 0 <= i < n && i in taken && IsKeyOf(k, evs[i]);
      assert SameEvent(evs[i], ev) && Repeats(evs, taken, n);
    }
    if Repeats(evs, taken, n) {
      var j :| 0 <= j < n && j in taken && SameEvent(evs[j], ev);
      var k := if ev.sid > 0 && evs[j].sid == ev.sid then SystemId(ev.sid) else NamedKey(ev.name.value);
      assert IsKeyOf(k, evs[j]) && IsKeyOf(k, ev);
      assert KeyTaken(evs, taken, n, k);
    }
  }

  lemma KeysGrow(evs: seq<EventRecord>, taken: set<int>, n: nat, keys: set<EventKey>)
    requires n < |evs| && KeysOfTaken(evs, taken, n, keys)
    ensures KeysOfTaken(evs, taken, n + 1, if n in taken then keys + KeySet(KeysFor(evs[n].sid, evs[n].name)) else keys)
  {
    KeysAre(evs[n]);
    var more := if n in taken then keys + KeySet(KeysFor(evs[n].sid, evs[n].name)) else keys;
    forall k ensures k in more <==> KeyTaken(evs, taken, n + 1, k) {
      KeyTakenNext(evs, taken, n, k);
    }
  }

  lemma KeyTakenNext(evs: seq<EventRecord>, taken: set<int>, n: nat, k: EventKey)
    requires n < |evs|
    ensures KeyTaken(evs, taken, n + 1, k) <==> KeyTaken(evs, taken, n, k) || (n in taken && IsKeyOf(k, evs[n]))
  {
    if KeyTaken(evs, taken, n, k) {
      var i :| 0 <= i < n && i in taken && IsKeyOf(k, evs[i]);
      assert i < n + 1;
    }
  }

  lemma EntriesGrow(evs: seq<EventRecord>, taken: set<int>, n: nat, es: seq<Entry>, e: Entry)
    requires n < |evs| && EntriesOfTaken(evs, taken, n, es) && (n in taken ==> IsEntryOf(e, evs[n]))
    ensures EntriesOfTaken(evs, taken, n + 1, if n in taken then es + [e] else es)
  {
    var more := if n in taken then es + [e] else es;
    forall i | 0 <= i < n + 1 && i in taken ensures Shown(more, evs[i]) {
      if i < n {
        assert Shown(es, evs[i]);
        var x :| x in es && IsEntryOf(x, evs[i]);
        assert x in more;
      } else {
        assert e in more;
      }
    }
    forall x | x in more ensures Says(evs, taken, n + 1, x) {
      if x in es {
        assert Says(evs, taken, n, x);
        var i :| 0 <= i < n && i in taken && IsEntryOf(x, evs[i]);
        assert i < n + 1;
      }
    }
  }

  /** The events a load takes over are those taken, each with its own text, keys and anchor. */
  lemma {:induction false} StoredAreTaken(evs: seq<EventRecord>, taken: set<int>, n: nat, counter: nat)
    requires n <= |evs| && AreTaken(evs, taken)
    ensures var s := StoreEvents(evs[..n], counter);
      KeysOfTaken(evs, taken, n, s.keys) && EntriesOfTaken(evs, taken, n, s.entries) && s.counter >= counter
  {
    if n > 0 {
      var m := n - 1;
      StoredAreTaken(evs, taken, m, counter);
      var s := StoreEvents(evs[..m], counter);
      assert evs[..n][..m] == evs[..m] && StoreEvents(evs[..n], counter) == StoreEvent(s, evs[m]);
      NextTaken(evs, taken, m, s.keys);
      KeysGrow(evs, taken, m, s.keys);
      var next := StoreEvent(s, evs[m]);
      var e := if m in taken then next.entries[|s.entries|] else Entry(0, 0, "", "", false, false, false, "", NoEvent);
      if m in taken { NewEntryIs(s, evs[m], e); }
      EntriesGrow(evs, taken, m, s.entries, e);
    }
  }

  lemma NewEntryIs(s: Stored, ev: EventRecord, e: Entry)
    requires ev.text != "" && !KnownKey(s.keys, KeysFor(ev.sid, ev.name)) && s.counter >= 0 && e == StoreEvent(s, ev).entries[|s.entries|]
    ensures IsEntryOf(e, ev) && StoreEvent(s, ev).entries == s.entries + [e]
  {
    KeysAre(ev);
  }

  /** The place of a line with an anchor: behind exactly the messages with ids up to it. */
  ghost predicate StandsAt(f: seq<Entry>, j: nat, anchor: int)
    requires j < |f|
  {
    forall i | 0 <= i < |f| && f[i].id > 0 :: i < j <==> f[i].id <= anchor
  }

  /**
   A server event with a text, and not the same as one taken before, is on the page
   with its own text, keys and time, behind exactly the messages up to its `after`.
   */
  lemma ServerEventIsShown(rules: Rules, p: Page, rs: seq<Record>, evs: seq<EventRecord>, counter: nat, i: nat) returns (j: nat)
    requires i in TakenOf(evs) && forall k | 0 <= k < |p.pending| :: p.pending[k].target > 0
    ensures var f := Load(rules, p, rs, evs, counter).hist;
      j < |f| && IsEntryOf(f[j], evs[i]) && StandsAt(f, j, if evs[i].after > 0 then evs[i].after else 0)
  {
    var k := TakenIsMerged(p.hist, evs, counter, i);
    var e := EventsOf(p.hist, evs, counter)[k];
    EventStaysAt(rules, p, rs, evs, counter, k, e);
    j := EventStands(rules, p, rs, evs, counter, e);
  }

  lemma TakenIsMerged(hist: seq<Entry>, evs: seq<EventRecord>, counter: nat, i: nat) returns (k: nat)
    requires i in TakenOf(evs)
    ensures k < |EventsOf(hist, evs, counter)| && IsEntryOf(EventsOf(hist, evs, counter)[k], evs[i])
  {
    var e := TakenIsStored(evs, TakenOf(evs), counter, i);
    k := PlaceInStored(evs, counter, e);
    StoredIsMerged(hist, evs, counter, k);
  }

  lemma TakenIsStored(evs: seq<EventRecord>, taken: set<int>, counter: nat, i: nat) returns (e: Entry)
    requires AreTaken(evs, taken) && i in taken
    ensures e in StoreEvents(evs, counter).entries && IsEntryOf(e, evs[i])
  {
    StoredAreTaken(evs, taken, |evs|, counter);
    assert evs[..|evs|] == evs;
    assert Shown(StoreEvents(evs, counter).entries, evs[i]);
    e :| e in StoreEvents(evs, counter).entries && IsEntryOf(e, evs[i]);
  }

  lemma PlaceInStored(evs: seq<EventRecord>, counter: nat, e: Entry) returns (k: nat)
    requires e in StoreEvents(evs, counter).entries
    ensures k < |StoreEvents(evs, counter).entries| && StoreEvents(evs, counter).entries[k] == e
  {
    var es := StoreEvents(evs, counter).entries;
    k :| 0 <= k < |es| && es[k] == e;
  }

  lemma StoredIsMerged(hist: seq<Entry>, evs: seq<EventRecord>, counter: nat, k: nat)
    requires k < |StoreEvents(evs, counter).entries|
    ensures k < |EventsOf(hist, evs, counter)| && EventsOf(hist, evs, counter)[k] == StoreEvents(evs, counter).entries[k]
  {
  }

  lemma LineStands(rules: Rules, p: Page, rs: seq<Record>, evs: seq<EventRecord>, counter: nat, j: nat, anchor: int)
    requires var f := Load(rules, p, rs, evs, counter).hist;
      j < |f| && IsEvent(f[j]) && anchor == (if f[j].event.after > 0 then f[j].event.after else 0)
    ensures StandsAt(Load(rules, p, rs, evs, counter).hist, j, anchor)
  {
    var f := Load(rules, p, rs, evs, counter).hist;
    forall i | 0 <= i < |f| && f[i].id > 0 ensures i < j <==> f[i].id <= anchor {
      EventsStandAtAnchors(rules, p, rs, evs, counter, i, j);
    }
  }

  /** An event that is on the page stands at its anchor. */
  lemma EventStands(rules: Rules, p: Page, rs: seq<Record>, evs: seq<EventRecord>, counter: nat, e: Entry) returns (j: nat)
    requires e in Load(rules, p, rs, evs, counter).hist && IsEvent(e)
    ensures var f := Load(rules, p, rs, evs, counter).hist;
      j < |f| && f[j] == e && StandsAt(f, j, if e.event.after > 0 then e.event.after else 0)
  {
    var f := Load(rules, p, rs, evs, counter).hist;
    j :| 0 <= j < |f| && f[j] == e;
    LineStands(rules, p, rs, evs, counter, j, if e.event.after > 0 then e.event.after else 0);
  }

  /** Events of one anchor stand in the order of their ids, those without one behind them. */
  lemma EventsStandInOrder(m: map<int, Entry>, es: seq<Entry>, i: nat, j: nat)
    requires Proper(m, es) && i < j < |Ordering(m, es)| && IsEvent(Ordering(m, es)[i].entry) && IsEvent(Ordering(m, es)[j].entry)
    ensures var a, b := Ordering(m, es)[i].entry, Ordering(m, es)[j].entry;
      var at, bt := if a.event.after > 0 then a.event.after else 0, if b.event.after > 0 then b.event.after else 0;
      at <= bt && (at == bt && 0 < b.event.sid < 100_000_000 ==> 0 < a.event.sid <= b.event.sid)
  {
    var t := Ordering(m, es);
    OrderingItems(m, es, i);
    OrderingItems(m, es, j);
    SortFacts(MessageItems(m) + EventItems(es));
    assert !Less(t[j].key, t[i].key);
  }

  // ---- the client's own events -----------------------------------------

  /** The last message before a place, 0 if there is none. */
  ghost predicate LastBefore(hist: seq<Entry>, n: nat, id: int)
    requires n <= |hist|
  {
    if id == 0 then forall i | 0 <= i < n :: hist[i].id <= 0
    else exists k :: 0 <= k < n && hist[k].id == id > 0 && forall i | k < i < n :: hist[i].id <= 0
  }

  lemma {:induction false} LastIdIs(hist: seq<Entry>, n: nat)
    requires n <= |hist|
    ensures LastBefore(hist, n, LastId(hist[..n]))
  {
    if n > 0 {
      var m := n - 1;
      assert hist[..n][..m] == hist[..m];
      if hist[m].id <= 0 { LastIdIs(hist, m); }
    }
  }

  /** What becomes of an event of the page: an anchor and keys are filled in where it has none. */
  ghost predicate IsKept(e: Entry, hist: seq<Entry>, n: nat)
    requires n < |hist| && hist[n].event.Event?
  {
    var was := hist[n].event;
    && e.event.Event? && e == hist[n].(event := e.event) && (e.event.sid, e.event.persisted) == (was.sid, was.persisted)
    && (if was.after > 0 then e.event.after == was.after else LastBefore(hist, n, e.event.after))
    && e.event.keys == if was.keys != [] then was.keys else if was.sid > 0 then [SystemId(was.sid)] else []
  }

  lemma {:induction false} LocalIsKept(hist: seq<Entry>, n: nat, m: nat) returns (i: nat)
    requires n < m <= |hist| && IsEvent(hist[n])
    ensures i < |LocalEvents(hist[..m])| && IsKept(LocalEvents(hist[..m])[i], hist, n)
    decreases m
  {
    assert hist[..m][..m - 1] == hist[..m - 1];
    if n == m - 1 {
      i := |LocalEvents(hist[..n])|;
      LastIdIs(hist, n);
    } else {
      i := LocalIsKept(hist, n, m - 1);
    }
  }

  /**
   An event of the page is on it after a load, behind exactly the messages up to its
   anchor, or up to the last one before it; unless the server sent the same event.
   */
  lemma OwnEventIsShown(rules: Rules, p: Page, rs: seq<Record>, evs: seq<EventRecord>, counter: nat, n: nat) returns (e: Entry)
    requires n < |p.hist| && IsEvent(p.hist[n]) && forall k | 0 <= k < |p.pending| :: p.pending[k].target > 0
    ensures IsKept(e, p.hist, n)
    ensures OnPage(Load(rules, p, rs, evs, counter).hist, e) || SentToo(evs, e.event.keys)
  {
    assert p.hist[..|p.hist|] == p.hist;
    var l := LocalIsKept(p.hist, n, |p.hist|);
    e := LocalEvents(p.hist)[l];
    LocalEventsStay(rules, p, rs, evs, counter, l);
    if e in Load(rules, p, rs, evs, counter).hist {
      var j := EventStands(rules, p, rs, evs, counter, e);
    } else {
      SeenIsSent(evs, counter, e.event.keys);
    }
  }

  /** An event that came live is shown by the next load with its text, behind the messages up to the anchor it came with. */
  lemma LiveEventIsShown(rules: Rules, p: Page, text: string, ts: string, name: Option<string>, sid: int, at: int, number: nat,
                         rs: seq<Record>, evs: seq<EventRecord>, counter: nat) returns (e: Entry)
    requires number > 0 && forall k | 0 <= k < |p.pending| :: p.pending[k].target > 0
    ensures var ev := EventRecord(text, sid, at, ts, name);
      && e.body == text && e.ts == ts && e.event.Event? && e.event.sid == sid && (at > 0 ==> e.event.after == at)
      && forall k :: k in e.event.keys <==> IsKeyOf(k, ev)
    ensures var live := p.(hist := p.hist + [C.LocalEvent(text, ts, KeysFor(sid, name), sid, at, number)]);
      OnPage(Load(rules, live, rs, evs, counter).hist, e) || SentToo(evs, e.event.keys)
  {
    var live := p.(hist := p.hist + [C.LocalEvent(text, ts, KeysFor(sid, name), sid, at, number)]);
    e := OwnEventIsShown(rules, live, rs, evs, counter, |p.hist|);
    KeysAre(EventRecord(text, sid, at, ts, name));
  }

  ghost predicate OnPage(f: seq<Entry>, e: Entry) {
    e.event.Event? && exists j :: 0 <= j < |f| && f[j] == e && StandsAt(f, j, if e.event.after > 0 then e.event.after else 0)
  }

  /** The server sent an event with one of the keys. */
  ghost predicate SentToo(evs: seq<EventRecord>, keys: seq<EventKey>) {
    exists k :: k in keys && KeyTaken(evs, TakenOf(evs), |evs|, k)
  }

  lemma SeenIsSent(evs: seq<EventRecord>, counter: nat, keys: seq<EventKey>)
    requires KnownKey(StoreEvents(evs, counter).keys, keys)
    ensures SentToo(evs, keys)
  {
    StoredAreTaken(evs, TakenOf(evs), |evs|, counter);
    assert evs[..|evs|] == evs;
    var k :| k in keys && k in StoreEvents(evs, counter).keys;
    assert KeyTaken(evs, TakenOf(evs), |evs|, k);
  }

  // ---- the server's messages -------------------------------------------

  /** A message the load takes over: no edit, and no protocol marker unless deleted. */
  predicate IsMessageRecord(rules: Rules, r: Record) {
    r.id > 0 && r.editTarget <= 0 && (r.deleted || !rules.control(r.body))
  }

  /** An edit the load makes: of a message, readable, and no protocol marker unless deleted. */
  predicate IsEditRecord(rules: Rules, r: Record, id: int) {
    r.editTarget == id && id > 0 && !rules.unavailable(r.body) && (r.deleted || !rules.control(r.body))
  }

  /** The last copy of a message among the records. */
  predicate LastCopy(rules: Rules, rs: seq<Record>, id: int, k: int) {
    0 <= k < |rs| && rs[k].id == id && IsMessageRecord(rules, rs[k])
    && forall j | k < j < |rs| && rs[j].id == id :: !IsMessageRecord(rules, rs[j])
  }

  /** The last edit of a message among the records, or none at -1. */
  predicate LastEditRecord(rules: Rules, rs: seq<Record>, id: int, k: int) {
    -1 <= k < |rs| && (k >= 0 ==> IsEditRecord(rules, rs[k], id))
    && forall j | k < j < |rs| :: !IsEditRecord(rules, rs[j], id)
  }

  /** What is shown of a message the server sent: all of its copy, but a readable text known before stays. */
  predicate ShowsCopy(rules: Rules, was: Option<Entry>, r: Record, e: Entry) {
    && (e.id, e.sender, e.ts, e.deleted, e.extra, e.event) == (r.id, r.sender, r.ts, r.deleted, r.extra, NoEvent)
    && if was.Some? && rules.unavailable(r.body) && !rules.unavailable(was.value.body)
       then e.body == was.value.body && e.edited == (r.edited || was.value.edited) && !e.hidden
       else (e.body, e.edited, e.hidden) == (r.body, r.edited, r.hidden)
  }

  /** The last entry of the page with an id. */
  ghost predicate KnownAs(hist: seq<Entry>, id: int, was: Option<Entry>) {
    match was
    case None => forall i | 0 <= i < |hist| :: hist[i].id != id
    case Some(e) => exists i :: 0 <= i < |hist| && hist[i] == e && e.id == id && forall j | i < j < |hist| :: hist[j].id != id
  }

  lemma {:induction false} ExistingIs(hist: seq<Entry>, id: int, was: Option<Entry>)
    requires KnownAs(hist, id, was) && id > 0
    ensures (id in Existing(hist) <==> was.Some?) && (was.Some? ==> Existing(hist)[id] == was.value)
  {
    if hist != [] {
      var n := |hist| - 1;
      if hist[n].id != id {
        if was.Some? {
          var i :| 0 <= i < |hist| && hist[i] == was.value && forall j | i < j < |hist| :: hist[j].id != id;
          assert hist[..n][i] == was.value;
        }
        ExistingIs(hist[..n], id, was);
      }
    }
  }

  lemma {:induction false} LastCopyIs(rules: Rules, rs: seq<Record>, id: int, k: int)
    requires LastCopy(rules, rs, id, k) && id > 0
    ensures LastOriginal(rules, rs, id) == k
  {
    var n := |rs| - 1;
    if k < n { LastCopyIs(rules, rs[..n], id, k); }
  }

  lemma {:induction false} LastEditIs(rules: Rules, rs: seq<Record>, id: int, k: int)
    requires LastEditRecord(rules, rs, id, k) && id > 0
    ensures var l := LastFor(EditsIn(rules, rs), id);
      (l < 0 <==> k < 0) && (l >= 0 ==> EditsIn(rules, rs)[l].body == rs[k].body)
  {
    if rs != [] {
      var n := |rs| - 1;
      var before, all := EditsIn(rules, rs[..n]), EditsIn(rules, rs);
      if k < n {
        LastEditIs(rules, rs[..n], id, k);
        LastForGrows(before, all, id);
      }
    }
  }

  /** Another edit, of another message. */
  lemma LastForGrows(before: seq<Edit>, all: seq<Edit>, id: int)
    requires all == before || (|all| == |before| + 1 && all[..|before|] == before && all[|before|].target != id)
    ensures LastFor(all, id) == LastFor(before, id)
  {
  }

  /** Of the edits left to try after the history's own, those of a message that is there are the ones that waited. */
  lemma OnlyWaitingLeft(rules: Rules, p: Page, rs: seq<Record>, hist: seq<Entry>, id: int)
    requires Has(hist, id)
    ensures var w, v := LastFor(EditsMade(rules, p, rs, hist), id), LastFor(p.pending, id);
      w == v && (v >= 0 ==> EditsMade(rules, p, rs, hist)[w] == p.pending[v])
  {
    var u := Unmatched(hist, EditsIn(rules, rs));
    UnmatchedTargets(hist, EditsIn(rules, rs));
    LastForAppend(p.pending, u, id);
  }

  lemma {:induction false} LastForAppend(a: seq<Edit>, b: seq<Edit>, id: int)
    requires forall k | 0 <= k < |b| :: b[k].target != id
    ensures LastFor(a + b, id) == LastFor(a, id)
  {
    if b == [] {
      assert a + b == a;
    } else {
      var n := |b| - 1;
      assert (a + b)[..|a + b| - 1] == a + b[..n];
      LastForAppend(a, b[..n], id);
    }
  }

  /** An entry of the merge with the last of some edits made to it. */
  function Last(e: Entry, edits: seq<Edit>): Entry {
    var l := LastFor(edits, e.id);
    if l < 0 then e else e.(body := edits[l].body, edited := true, deleted := false)
  }

  /** An entry of the page is that of the merge after the history's edits and then those that waited. */
  lemma EntryAfterEdits(rules: Rules, p: Page, rs: seq<Record>, evs: seq<EventRecord>, counter: nat, i: nat)
    requires var f := Load(rules, p, rs, evs, counter).hist; i < |f| && f[i].id > 0
    ensures var f, h := Load(rules, p, rs, evs, counter).hist, MergedHistory(rules, p.hist, rs, evs, counter);
      i < |h| && h[i].id == f[i].id && f[i] == Last(Last(h[i], EditsIn(rules, rs)), p.pending)
  {
    var f, h, edits := Load(rules, p, rs, evs, counter).hist, MergedHistory(rules, p.hist, rs, evs, counter), EditsIn(rules, rs);
    LoadKeepsLayout(rules, p, rs, evs, counter);
    EachMessageOnce(rules, p, rs, evs, counter);
    var mid := ApplyAll(h, edits);
    ApplyKeepsIds(h, edits);
    assert h[i].id == f[i].id && mid[i].id == f[i].id;
    forall j | 0 <= j < |h| && j != i ensures h[j].id != h[i].id && mid[j].id != mid[i].id {
      assert f[j].id == h[j].id == mid[j].id;
    }
    LastEditCounts(h, edits, i);
    OnlyWaitingLeft(rules, p, rs, h, f[i].id);
    LastEditCounts(mid, EditsMade(rules, p, rs, h), i);
  }

  /**
   A message the server sent is on the page with everything its last copy says; its
   text is that of its last edit if there is one, and of the last one that waited if
   there is. A text the client could read before is not given up for a placeholder.
   */
  lemma MessageIsShown(rules: Rules, p: Page, rs: seq<Record>, evs: seq<EventRecord>, counter: nat, id: int, k: int, l: int, was: Option<Entry>)
      returns (i: nat, e: Entry)
    requires id > 0 && LastCopy(rules, rs, id, k) && LastEditRecord(rules, rs, id, l) && KnownAs(p.hist, id, was)
    requires was.Some? && rules.unavailable(rs[k].body) && rules.control(was.value.body) ==> rs[k].deleted
    ensures ShowsCopy(rules, was, rs[k], e)
    ensures var f := Load(rules, p, rs, evs, counter).hist;
      i < |f| && f[i] == Last(if l < 0 then e else e.(body := rs[l].body, edited := true, deleted := false), p.pending)
  {
    ExistingIs(p.hist, id, was);
    LastCopyIs(rules, rs, id, k);
    LastEditIs(rules, rs, id, l);
    IncomingLast(rules, Existing(p.hist), rs, id);
    e := FromRecord(rules, Existing(p.hist), rs[k]);
    MessageStaysIff(rules, p, rs, evs, counter, id);
    var f := Load(rules, p, rs, evs, counter).hist;
    i :| 0 <= i < |f| && f[i].id == id;
    EntryAfterEdits(rules, p, rs, evs, counter, i);
    PlaceOfMessage(rules, p.hist, rs, evs, counter, i);
  }

  /** A message the client knew and the server sent no copy of stays as it was, but for its edits. */
  lemma KnownIsShown(rules: Rules, p: Page, rs: seq<Record>, evs: seq<EventRecord>, counter: nat, id: int, l: int, was: Entry) returns (i: nat)
    requires id > 0 && LastEditRecord(rules, rs, id, l) && KnownAs(p.hist, id, Some(was)) && (was.deleted || !rules.control(was.body))
    requires forall j | 0 <= j < |rs| && rs[j].id == id :: !IsMessageRecord(rules, rs[j])
    ensures var f := Load(rules, p, rs, evs, counter).hist;
      i < |f| && f[i] == Last(if l < 0 then was else was.(body := rs[l].body, edited := true, deleted := false), p.pending)
  {
    ExistingIs(p.hist, id, Some(was));
    LastEditIs(rules, rs, id, l);
    IncomingLast(rules, Existing(p.hist), rs, id);
    MessageStaysIff(rules, p, rs, evs, counter, id);
    var f := Load(rules, p, rs, evs, counter).hist;
    i :| 0 <= i < |f| && f[i].id == id;
    EntryAfterEdits(rules, p, rs, evs, counter, i);
    PlaceOfMessage(rules, p.hist, rs, evs, counter, i);
  }

  // ---- nothing else ----------------------------------------------------

  /** As many entries as events taken: each is shown once. */
  lemma {:induction false} StoredOnce(evs: seq<EventRecord>, counter: nat)
    ensures |StoreEvents(evs, counter).entries| == |TakenOf(evs)|
  {
    if evs != [] {
      var n := |evs| - 1;
      var before := TakenOf(evs[..n]);
      StoredOnce(evs[..n], counter);
      StoredAreTaken(evs, TakenOf(evs), n, counter);
      NextTaken(evs, TakenOf(evs), n, StoreEvents(evs[..n], counter).keys);
      assert n !in before;
    }
  }

  lemma {:induction false} KeptAreUnknown(local: seq<Entry>, keys: set<EventKey>)
    ensures forall e | e in KeepLocal(local, keys) && e.event.Event? :: !KnownKey(keys, e.event.keys)
  {
    if local != [] { KeptAreUnknown(local[..|local| - 1], keys); }
  }

  /** An event on the page is of an event the server sent, or one of the client's own that the server has no key of. */
  lemma EventOnPageIs(rules: Rules, p: Page, rs: seq<Record>, evs: seq<EventRecord>, counter: nat, e: Entry)
    requires e in Load(rules, p, rs, evs, counter).hist && IsEvent(e) && forall k | 0 <= k < |p.pending| :: p.pending[k].target > 0
    ensures e.event.Event? && HasSource(p.hist, evs, e)
  {
    EventIsMerged(rules, p, rs, evs, counter, e);
    SentOrOwn(p.hist, evs, counter, e);
  }

  /** Of an event the server sent, or one of the client's own that the server has no key of. */
  ghost predicate HasSource(hist: seq<Entry>, evs: seq<EventRecord>, e: Entry)
    requires e.event.Event?
  {
    Says(evs, TakenOf(evs), |evs|, e) || (e in LocalEvents(hist) && !SentToo(evs, e.event.keys))
  }

  lemma SentOrOwn(hist: seq<Entry>, evs: seq<EventRecord>, counter: nat, e: Entry)
    requires e in EventsOf(hist, evs, counter) && e.event.Event?
    ensures HasSource(hist, evs, e)
  {
    if e in StoreEvents(evs, counter).entries {
      StoredIsSent(evs, counter, e);
    } else {
      OwnIsNotSent(hist, evs, counter, e);
    }
  }

  lemma StoredIsSent(evs: seq<EventRecord>, counter: nat, e: Entry)
    requires e in StoreEvents(evs, counter).entries
    ensures Says(evs, TakenOf(evs), |evs|, e)
  {
    StoredAreTaken(evs, TakenOf(evs), |evs|, counter);
    assert evs[..|evs|] == evs;
  }

  lemma OwnIsNotSent(hist: seq<Entry>, evs: seq<EventRecord>, counter: nat, e: Entry)
    requires e in EventsOf(hist, evs, counter) && e !in StoreEvents(evs, counter).entries && e.event.Event?
    ensures e in LocalEvents(hist) && !SentToo(evs, e.event.keys)
  {
    var seen := StoreEvents(evs, counter).keys;
    KeptAreLocal(LocalEvents(hist), seen);
    KeptAreUnknown(LocalEvents(hist), seen);
    assert e in KeepLocal(LocalEvents(hist), seen);
    SeenAreSent(evs, counter);
    NotSent(evs, seen, e.event.keys);
  }

  lemma SeenAreSent(evs: seq<EventRecord>, counter: nat)
    ensures KeysOfTaken(evs, TakenOf(evs), |evs|, StoreEvents(evs, counter).keys)
  {
    StoredAreTaken(evs, TakenOf(evs), |evs|, counter);
    assert evs[..|evs|] == evs;
  }

  lemma NotSent(evs: seq<EventRecord>, seen: set<EventKey>, keys: seq<EventKey>)
    requires KeysOfTaken(evs, TakenOf(evs), |evs|, seen) && !KnownKey(seen, keys)
    ensures !SentToo(evs, keys)
  {
    forall k | k in keys ensures !KeyTaken(evs, TakenOf(evs), |evs|, k) {
      assert k !in seen;
    }
  }

  lemma EventIsMerged(rules: Rules, p: Page, rs: seq<Record>, evs: seq<EventRecord>, counter: nat, e: Entry)
    requires e in Load(rules, p, rs, evs, counter).hist && IsEvent(e) && forall k | 0 <= k < |p.pending| :: p.pending[k].target > 0
    ensures e in EventsOf(p.hist, evs, counter)
  {
    var h, f := MergedHistory(rules, p.hist, rs, evs, counter), Load(rules, p, rs, evs, counter).hist;
    var j :| 0 <= j < |f| && f[j] == e;
    LoadKeepsLayout(rules, p, rs, evs, counter);
    EditsMadeTargets(rules, p, rs, h);
    OthersKept(h, EditsIn(rules, rs));
    OthersKept(ApplyAll(h, EditsIn(rules, rs)), EditsMade(rules, p, rs, h));
    assert h[j] == e;
    BubblesAreBubbles(p.hist);
    PartsAreProper(rules, p.hist, rs, evs, counter);
    OrderingItems(Merged(rules, Existing(p.hist), rs), EventsOf(p.hist, evs, counter), j);
  }

  /** Bubbles keep their order. */
  lemma {:induction false} BubblesKeepOrder(hist: seq<Entry>, m: nat, n: nat) returns (k: nat, l: nat)
    requires m < n < |hist| && IsBubble(hist[m]) && IsBubble(hist[n])
    ensures k < l < |Bubbles(hist)| && Bubbles(hist)[k] == hist[m] && Bubbles(hist)[l] == hist[n]
  {
    var last := |hist| - 1;
    if n < last {
      k, l := BubblesKeepOrder(hist[..last], m, n);
    } else {
      k := BubbleIsThere(hist[..last], m);
      l := |Bubbles(hist[..last])|;
    }
  }

  lemma {:induction false} BubbleIsThere(hist: seq<Entry>, m: nat) returns (k: nat)
    requires m < |hist| && IsBubble(hist[m])
    ensures k < |Bubbles(hist)| && Bubbles(hist)[k] == hist[m]
  {
    var last := |hist| - 1;
    if m < last { k := BubbleIsThere(hist[..last], m); } else { k := |Bubbles(hist[..last])|; }
  }
}
