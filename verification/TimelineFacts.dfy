/** What `load_history` makes of a conversation: order, completeness, readable texts, places of events. */
module TimelineFacts {
  import opened Ascending
  import opened Edits
  import opened PendingEdits
  import opened StableSort
  import opened Timeline

  // ---- items by key ----------------------------------------------------

  lemma {:induction false} WithKeyConcat(a: seq<Item>, b: seq<Item>, k: Key)
    ensures WithKey(a + b, k) == WithKey(a, k) + WithKey(b, k)
  {
    if b == [] {
      assert a + b == a;
    } else {
      assert (a + b)[..|a + b| - 1] == a + b[..|b| - 1];
      WithKeyConcat(a, b[..|b| - 1], k);
    }
  }

  lemma {:induction false} NoneWith(s: seq<Item>, k: Key)
    requires forall i | 0 <= i < |s| :: s[i].key != k
    ensures WithKey(s, k) == []
  {
    if s != [] { NoneWith(s[..|s| - 1], k); }
  }

  lemma {:induction false} OneWith(s: seq<Item>, k: Key, p: nat)
    requires p < |s| && forall i | 0 <= i < |s| :: s[i].key == k <==> i == p
    ensures WithKey(s, k) == [s[p]]
  {
    if p == |s| - 1 { NoneWith(s[..p], k); } else { OneWith(s[..|s| - 1], k, p); }
  }

  /** Two places with one key. */
  lemma {:induction false} TwoWith(s: seq<Item>, i: nat, j: nat)
    requires i < j < |s| && s[i].key == s[j].key
    ensures |WithKey(s, s[i].key)| >= 2
  {
    var k := s[i].key;
    if j < |s| - 1 { TwoWith(s[..|s| - 1], i, j); } else { SomeWith(s[..j], i); }
  }

  lemma {:induction false} SomeWith(s: seq<Item>, i: nat)
    requires i < |s|
    ensures s[i] in WithKey(s, s[i].key)
  {
    if i < |s| - 1 { SomeWith(s[..|s| - 1], i); }
  }

  lemma {:induction false} WithIsIn(s: seq<Item>, k: Key, x: Item)
    requires x in WithKey(s, k)
    ensures x in s && x.key == k
  {
    var n := |s| - 1;
    if x in WithKey(s[..n], k) { WithIsIn(s[..n], k, x); }
  }

  // ---- the layout ------------------------------------------------------

  /** Messages under their own positive ids, and events that are events. */
  ghost predicate Proper(m: map<int, Entry>, es: seq<Entry>) {
    && (forall id | id in m :: id > 0 && m[id].id == id)
    && (forall i | 0 <= i < |es| :: IsEvent(es[i]))
  }

  ghost predicate MessageItem(m: map<int, Entry>, x: Item) {
    x.entry.id in m && x == Item(MessageKey(x.entry.id), m[x.entry.id])
  }

  ghost predicate EventItem(es: seq<Entry>, x: Item) {
    exists i :: 0 <= i < |es| && x == Item(EventKeyAt(es[i], i), es[i])
  }

  lemma EventItemsWith(es: seq<Entry>, k: Key)
    requires k.kind != 1
    ensures WithKey(EventItems(es), k) == []
  {
    NoneWith(EventItems(es), k);
  }

  lemma NoMessageWith(m: map<int, Entry>, k: Key)
    requires !(k.order in m && k == MessageKey(k.order))
    ensures WithKey(MessageItems(m), k) == []
  {
    NoneWith(MessageItems(m), k);
  }

  lemma OneMessageWith(m: map<int, Entry>, id: int)
    requires id in m
    ensures WithKey(MessageItems(m), MessageKey(id)) == [Item(MessageKey(id), m[id])]
  {
    var ids := Sorted(m.Keys);
    assert id in ids;
    var p :| 0 <= p < |ids| && ids[p] == id;
    OneWith(MessageItems(m), MessageKey(id), p);
  }

  lemma MessageItemsWith(m: map<int, Entry>, es: seq<Entry>, k: Key)
    ensures k.kind == 0 ==> WithKey(EventItems(es), k) == []
    ensures k.kind == 1 ==> WithKey(MessageItems(m), k) == []
    ensures k.kind == 0 ==> WithKey(MessageItems(m), k) == if k.order in m && k == MessageKey(k.order) then [Item(k, m[k.order])] else []
  {
    if k.kind != 1 { EventItemsWith(es, k); }
    if k.order in m && k == MessageKey(k.order) { OneMessageWith(m, k.order); } else { NoMessageWith(m, k); }
  }

  lemma OrderingWith(m: map<int, Entry>, es: seq<Entry>, k: Key)
    ensures WithKey(Ordering(m, es), k) == WithKey(MessageItems(m), k) + WithKey(EventItems(es), k)
  {
    SortFacts(MessageItems(m) + EventItems(es));
    WithKeyConcat(MessageItems(m), EventItems(es), k);
  }

  lemma ItemOfEither(a: seq<Item>, b: seq<Item>, t: seq<Item>, i: nat) returns (j: nat)
    requires multiset(t) == multiset(a + b) && i < |t|
    ensures j < |a| + |b| && t[i] == if j < |a| then a[j] else b[j - |a|]
  {
    assert t[i] in multiset(t);
    assert t[i] in a + b;
    j :| 0 <= j < |a + b| && (a + b)[j] == t[i];
  }

  /** Every item of the ordering is a message under its id or an event. */
  lemma OrderingItems(m: map<int, Entry>, es: seq<Entry>, i: nat)
    requires Proper(m, es) && i < |Ordering(m, es)|
    ensures var x := Ordering(m, es)[i]; (x.entry.id > 0 && MessageItem(m, x)) || (IsEvent(x.entry) && EventItem(es, x))
  {
    SortFacts(MessageItems(m) + EventItems(es));
    var j := ItemOfEither(MessageItems(m), EventItems(es), Ordering(m, es), i);
    if j < |MessageItems(m)| { MessageItemAt(m, es, j); } else { EventItemAt(m, es, j - |MessageItems(m)|); }
  }

  lemma MessageItemAt(m: map<int, Entry>, es: seq<Entry>, j: nat)
    requires Proper(m, es) && j < |MessageItems(m)|
    ensures MessageItems(m)[j].entry.id > 0 && MessageItem(m, MessageItems(m)[j])
  {
  }

  lemma EventItemAt(m: map<int, Entry>, es: seq<Entry>, j: nat)
    requires Proper(m, es) && j < |EventItems(es)|
    ensures IsEvent(EventItems(es)[j].entry) && EventItem(es, EventItems(es)[j])
  {
    assert EventItems(es)[j] == Item(EventKeyAt(es[j], j), es[j]);
  }

  /** And each of them is there; a message exactly once. */
  lemma OrderingHas(m: map<int, Entry>, es: seq<Entry>, id: int) returns (p: nat)
    requires Proper(m, es) && id in m
    ensures p < |Ordering(m, es)| && Ordering(m, es)[p].entry == m[id]
  {
    var k, t := MessageKey(id), Ordering(m, es);
    OrderingWith(m, es, k);
    MessageItemsWith(m, es, k);
    assert Item(k, m[id]) in WithKey(t, k);
    WithIsIn(t, k, Item(k, m[id]));
    p :| 0 <= p < |t| && t[p] == Item(k, m[id]);
  }

  lemma FindInSorted(a: seq<Item>, b: seq<Item>, t: seq<Item>, j: nat) returns (p: nat)
    requires multiset(t) == multiset(a + b) && j < |b|
    ensures p < |t| && t[p] == b[j]
  {
    assert (a + b)[|a| + j] == b[j];
    assert b[j] in multiset(a + b);
    assert b[j] in t;
    p :| 0 <= p < |t| && t[p] == b[j];
  }

  lemma OrderingHasEvent(m: map<int, Entry>, es: seq<Entry>, i: nat) returns (p: nat)
    requires i < |es|
    ensures p < |Ordering(m, es)| && Ordering(m, es)[p].entry == es[i]
  {
    SortFacts(MessageItems(m) + EventItems(es));
    assert EventItems(es)[i].entry == es[i];
    p := FindInSorted(MessageItems(m), EventItems(es), Ordering(m, es), i);
  }

  /** Message ids increase, so each comes once. */
  lemma MessagesIncrease(m: map<int, Entry>, es: seq<Entry>, i: nat, j: nat)
    requires Proper(m, es) && i < j < |Ordering(m, es)|
    requires Ordering(m, es)[i].entry.id > 0 && Ordering(m, es)[j].entry.id > 0
    ensures Ordering(m, es)[i].entry.id < Ordering(m, es)[j].entry.id
  {
    var t := Ordering(m, es);
    OrderingItems(m, es, i);
    OrderingItems(m, es, j);
    SortFacts(MessageItems(m) + EventItems(es));
    assert !Less(t[j].key, t[i].key);
    if t[i].entry.id == t[j].entry.id {
      TwoWith(t, i, j);
      OrderingWith(m, es, t[i].key);
      MessageItemsWith(m, es, t[i].key);
      assert false;
    }
  }

  /** An event comes after the messages up to its anchor and before the later ones. */
  lemma EventsByAnchor(m: map<int, Entry>, es: seq<Entry>, i: nat, j: nat)
    requires Proper(m, es) && i < |Ordering(m, es)| && j < |Ordering(m, es)|
    requires Ordering(m, es)[i].entry.id > 0 && IsEvent(Ordering(m, es)[j].entry)
    ensures i < j <==> Ordering(m, es)[i].entry.id <= Anchor(Ordering(m, es)[j].entry, 0)
  {
    var t := Ordering(m, es);
    OrderingItems(m, es, i);
    OrderingItems(m, es, j);
    SortFacts(MessageItems(m) + EventItems(es));
    if i < j { assert !Less(t[j].key, t[i].key); } else { assert i != j && !Less(t[i].key, t[j].key); }
  }

  // ---- the parts of a load ---------------------------------------------

  lemma {:induction false} ExistingFacts(hist: seq<Entry>)
    ensures forall id | id in Existing(hist) :: id > 0 && Existing(hist)[id].id == id && Existing(hist)[id] in hist
    ensures forall i | 0 <= i < |hist| && IsMessage(hist[i]) :: hist[i].id in Existing(hist)
  {
    if hist != [] {
      ExistingFacts(hist[..|hist| - 1]);
      assert hist == hist[..|hist| - 1] + [hist[|hist| - 1]];
    }
  }

  lemma {:induction false} IncomingFacts(rules: Rules, existing: map<int, Entry>, rs: seq<Record>)
    ensures forall id | id in Incoming(rules, existing, rs) :: Sent(rules, existing, rs, Incoming(rules, existing, rs)[id], id)
    ensures forall r | r in rs && IsOriginal(rules, r) :: r.id in Incoming(rules, existing, rs)
  {
    if rs != [] {
      var n := |rs| - 1;
      IncomingFacts(rules, existing, rs[..n]);
      assert rs == rs[..n] + [rs[n]];
      var m, before := Incoming(rules, existing, rs), Incoming(rules, existing, rs[..n]);
      forall id | id in m ensures Sent(rules, existing, rs, m[id], id) {
        if id in before && m[id] == before[id] {
          assert Sent(rules, existing, rs[..n], before[id], id);
          var r :| r in rs[..n] && IsOriginal(rules, r) && r.id == id && before[id] == FromRecord(rules, existing, r);
          assert r in rs;
        }
      }
    }
  }

  /** The last original of the server with an id, -1 if there is none. */
  function LastOriginal(rules: Rules, rs: seq<Record>, id: int): (k: int)
    ensures -1 <= k < |rs| && (k >= 0 ==> IsOriginal(rules, rs[k]) && rs[k].id == id)
  {
    if rs == [] then -1
    else if IsOriginal(rules, rs[|rs| - 1]) && rs[|rs| - 1].id == id then |rs| - 1
    else LastOriginal(rules, rs[..|rs| - 1], id)
  }

  lemma {:induction false} IncomingLast(rules: Rules, existing: map<int, Entry>, rs: seq<Record>, id: int)
    ensures var k, m := LastOriginal(rules, rs, id), Incoming(rules, existing, rs);
      (id in m <==> k >= 0) && (k >= 0 ==> m[id] == FromRecord(rules, existing, rs[k]))
  {
    if rs != [] { IncomingLast(rules, existing, rs[..|rs| - 1], id); }
  }

  /** `e` comes from an original of the server with that id. */
  ghost predicate Sent(rules: Rules, existing: map<int, Entry>, rs: seq<Record>, e: Entry, id: int) {
    id > 0 && e.id == id && exists r :: r in rs && IsOriginal(rules, r) && r.id == id && e == FromRecord(rules, existing, r)
  }

  lemma {:induction false} LocalsAreEvents(hist: seq<Entry>)
    ensures forall i | 0 <= i < |LocalEvents(hist)| :: IsEvent(LocalEvents(hist)[i])
  {
    if hist != [] { LocalsAreEvents(hist[..|hist| - 1]); }
  }

  lemma {:induction false} KeptAreLocal(local: seq<Entry>, keys: set<EventKey>)
    ensures forall i | 0 <= i < |KeepLocal(local, keys)| :: KeepLocal(local, keys)[i] in local
    ensures forall e | e in local :: e in KeepLocal(local, keys) || KnownKey(keys, if e.event.Event? then e.event.keys else [])
  {
    if local != [] {
      KeptAreLocal(local[..|local| - 1], keys);
      assert local == local[..|local| - 1] + [local[|local| - 1]];
    }
  }

  lemma {:induction false} StoredFacts(evs: seq<EventRecord>, counter: nat)
    ensures StoreEvents(evs, counter).counter >= counter
    ensures forall i | 0 <= i < |StoreEvents(evs, counter).entries| :: IsEvent(StoreEvents(evs, counter).entries[i])
  {
    if evs != [] { StoredFacts(evs[..|evs| - 1], counter); }
  }

  lemma PartsAreProper(rules: Rules, hist: seq<Entry>, rs: seq<Record>, evs: seq<EventRecord>, counter: nat)
    ensures Proper(Merged(rules, Existing(hist), rs), EventsOf(hist, evs, counter))
  {
    ExistingFacts(hist);
    IncomingFacts(rules, Existing(hist), rs);
    StoredFacts(evs, counter);
    var keys := StoreEvents(evs, counter).keys;
    LocalsAreEvents(hist);
    KeptAreLocal(LocalEvents(hist), keys);
    var kept := KeepLocal(LocalEvents(hist), keys);
    forall i | 0 <= i < |kept| ensures IsEvent(kept[i]) { assert kept[i] in LocalEvents(hist); }
  }

  lemma {:induction false} AmendAllIs(p: Page, edits: seq<Edit>)
    ensures AmendAll(p, edits) == Page(ApplyAll(p.hist, edits), p.pending + Unmatched(p.hist, edits))
  {
    if edits != [] {
      var n := |edits| - 1;
      AmendAllIs(p, edits[..n]);
      ApplyKeepsIds(p.hist, edits[..n]);
      if !Has(p.hist, edits[n].target) {
        UpdateAbsent(ApplyAll(p.hist, edits[..n]), edits[n].target, edits[n].body);
      }
    } else {
      assert p.pending + [] == p.pending;
    }
  }

  /** The edits a load makes in all: those of the history, then those that were waiting. */
  function EditsMade(rules: Rules, p: Page, rs: seq<Record>, hist: seq<Entry>): seq<Edit> {
    p.pending + Unmatched(hist, EditsIn(rules, rs))
  }

  /** After a load the entries are those of the merged history, up to the edits. */
  lemma LoadKeepsLayout(rules: Rules, p: Page, rs: seq<Record>, evs: seq<EventRecord>, counter: nat)
    ensures var h, f := MergedHistory(rules, p.hist, rs, evs, counter), Load(rules, p, rs, evs, counter);
      && f == Page(ApplyAll(ApplyAll(h, EditsIn(rules, rs)), EditsMade(rules, p, rs, h)),
                   Unmatched(ApplyAll(h, EditsIn(rules, rs)), EditsMade(rules, p, rs, h)))
      && |f.hist| == |h|
      && (forall i | 0 <= i < |h| :: f.hist[i] == h[i].(body := f.hist[i].body, edited := f.hist[i].edited, deleted := f.hist[i].deleted))
  {
    var h := MergedHistory(rules, p.hist, rs, evs, counter);
    var edits := EditsIn(rules, rs);
    AmendAllIs(p.(hist := h), edits);
    ApplyKeepsIds(h, edits);
    ApplyKeepsIds(ApplyAll(h, edits), EditsMade(rules, p, rs, h));
  }

  // ---- what a load promises --------------------------------------------

  /** The entries a load puts in the timeline; the client's own bubbles follow. */
  function TimelineOf(rules: Rules, p: Page, rs: seq<Record>, evs: seq<EventRecord>, counter: nat): seq<Item> {
    Ordering(Merged(rules, Existing(p.hist), rs), EventsOf(p.hist, evs, counter))
  }

  lemma {:induction false} BubblesAreBubbles(hist: seq<Entry>)
    ensures forall i | 0 <= i < |Bubbles(hist)| :: IsBubble(Bubbles(hist)[i])
    ensures forall e | e in hist && IsBubble(e) :: e in Bubbles(hist)
  {
    if hist != [] {
      BubblesAreBubbles(hist[..|hist| - 1]);
      assert hist == hist[..|hist| - 1] + [hist[|hist| - 1]];
    }
  }

  /** Message ids increase along the whole page, so each comes exactly once. */
  lemma EachMessageOnce(rules: Rules, p: Page, rs: seq<Record>, evs: seq<EventRecord>, counter: nat)
    ensures var f, m := Load(rules, p, rs, evs, counter).hist, Merged(rules, Existing(p.hist), rs);
      && (forall i, j | 0 <= i < j < |f| && f[i].id > 0 && f[j].id > 0 :: f[i].id < f[j].id)
      && (forall i | 0 <= i < |f| && f[i].id > 0 :: f[i].id in m)
      && (forall id | id in m :: Has(f, id))
  {
    LoadKeepsLayout(rules, p, rs, evs, counter);
    PartsAreProper(rules, p.hist, rs, evs, counter);
    BubblesAreBubbles(p.hist);
    EachOnceInLayout(Merged(rules, Existing(p.hist), rs), EventsOf(p.hist, evs, counter), Bubbles(p.hist), Load(rules, p, rs, evs, counter).hist);
  }

  /** Entries with the ids of a layout. */
  lemma EachOnceInLayout(m: map<int, Entry>, es: seq<Entry>, bubbles: seq<Entry>, f: seq<Entry>)
    requires Proper(m, es) && (forall i | 0 <= i < |bubbles| :: IsBubble(bubbles[i]))
    requires |f| == |Layout(m, es, bubbles)| && forall i | 0 <= i < |f| :: f[i].id == Layout(m, es, bubbles)[i].id
    ensures forall i, j | 0 <= i < j < |f| && f[i].id > 0 && f[j].id > 0 :: f[i].id < f[j].id
    ensures forall i | 0 <= i < |f| && f[i].id > 0 :: f[i].id in m
    ensures forall id | id in m :: Has(f, id)
  {
    var t := Ordering(m, es);
    assert forall i | 0 <= i < |f| && f[i].id > 0 :: i < |t| && f[i].id == t[i].entry.id;
    forall i, j | 0 <= i < j < |f| && f[i].id > 0 && f[j].id > 0 ensures f[i].id < f[j].id {
      MessagesIncrease(m, es, i, j);
    }
    forall i | 0 <= i < |f| && f[i].id > 0 ensures f[i].id in m { OrderingItems(m, es, i); }
    forall id | id in m ensures Has(f, id) {
      var q := OrderingHas(m, es, id);
      assert f[q].id == id;
    }
  }

  /** An original of the server with that id. */
  ghost predicate Received(rules: Rules, rs: seq<Record>, id: int) {
    exists r :: r in rs && IsOriginal(rules, r) && r.id == id
  }

  /** The entry a load makes for an id: the server's copy if it sent one, else what was known. */
  function Latest(rules: Rules, existing: map<int, Entry>, rs: seq<Record>, id: int): Entry
    requires id in existing || id in Incoming(rules, existing, rs)
  {
    if id in Incoming(rules, existing, rs) then Incoming(rules, existing, rs)[id] else existing[id]
  }

  lemma ReceivedIsIncoming(rules: Rules, existing: map<int, Entry>, rs: seq<Record>, id: int)
    ensures Received(rules, rs, id) <==> id in Incoming(rules, existing, rs)
  {
    IncomingFacts(rules, existing, rs);
    if id in Incoming(rules, existing, rs) { assert Sent(rules, existing, rs, Incoming(rules, existing, rs)[id], id); }
  }

  /** A message known before or received is on the page exactly when its entry is no protocol marker, or a deleted one. */
  lemma MessageStaysIff(rules: Rules, p: Page, rs: seq<Record>, evs: seq<EventRecord>, counter: nat, id: int)
    requires id > 0
    ensures Has(Load(rules, p, rs, evs, counter).hist, id) <==>
      var was := Existing(p.hist);
      (id in was || id in Incoming(rules, was, rs)) && Shows(rules, Latest(rules, was, rs, id))
  {
    EachMessageOnce(rules, p, rs, evs, counter);
    var f, m := Load(rules, p, rs, evs, counter).hist, Merged(rules, Existing(p.hist), rs);
    if Has(f, id) {
      var i :| 0 <= i < |f| && f[i].id == id;
      assert f[i].id in m;
    }
  }

  /**
   So nothing that is no protocol marker is lost; nor is a deleted one, unless the server
   sends a copy of it again, which may put the marker in place of a text it cannot read.
   */
  lemma NoMessageIsLost(rules: Rules, p: Page, rs: seq<Record>, evs: seq<EventRecord>, counter: nat, id: int)
    requires id in Existing(p.hist) || Received(rules, rs, id)
    requires var was := Existing(p.hist);
      id in was ==> !rules.control(was[id].body) || (was[id].deleted && !Received(rules, rs, id))
    ensures Has(Load(rules, p, rs, evs, counter).hist, id)
  {
    var was := Existing(p.hist);
    ExistingFacts(p.hist);
    IncomingFacts(rules, was, rs);
    ReceivedIsIncoming(rules, was, rs, id);
    if id in Incoming(rules, was, rs) { assert Sent(rules, was, rs, Incoming(rules, was, rs)[id], id); }
    MessageStaysIff(rules, p, rs, evs, counter, id);
  }

  /** Bubbles stay, in order, at the end; no edit is addressed to them. */
  lemma BubblesStayLast(rules: Rules, p: Page, rs: seq<Record>, evs: seq<EventRecord>, counter: nat)
    requires forall k | 0 <= k < |p.pending| :: p.pending[k].target > 0
    ensures var f, n := Load(rules, p, rs, evs, counter).hist, |TimelineOf(rules, p, rs, evs, counter)|;
      n <= |f| && f[n..] == Bubbles(p.hist)
  {
    LoadKeepsLayout(rules, p, rs, evs, counter);
    BubblesAreBubbles(p.hist);
    var h := MergedHistory(rules, p.hist, rs, evs, counter);
    EditsMadeTargets(rules, p, rs, h);
    OthersKept(h, EditsIn(rules, rs));
    OthersKept(ApplyAll(h, EditsIn(rules, rs)), EditsMade(rules, p, rs, h));
    SameTail(h, Load(rules, p, rs, evs, counter).hist, EntriesOf(TimelineOf(rules, p, rs, evs, counter)), Bubbles(p.hist));
  }

  lemma SameTail(h: seq<Entry>, f: seq<Entry>, front: seq<Entry>, back: seq<Entry>)
    requires h == front + back && |f| == |h| && (forall i | 0 <= i < |back| :: back[i].id <= 0)
    requires forall i | 0 <= i < |h| && h[i].id <= 0 :: f[i] == h[i]
    ensures f[|front|..] == back
  {
    forall i | 0 <= i < |back| ensures f[|front| + i] == back[i] { assert h[|front| + i] == back[i]; }
  }

  lemma EditsMadeTargets(rules: Rules, p: Page, rs: seq<Record>, hist: seq<Entry>)
    requires forall k | 0 <= k < |p.pending| :: p.pending[k].target > 0
    ensures forall k | 0 <= k < |EditsIn(rules, rs)| :: EditsIn(rules, rs)[k].target > 0
    ensures forall k | 0 <= k < |EditsMade(rules, p, rs, hist)| :: EditsMade(rules, p, rs, hist)[k].target > 0
  {
    EditTargets(rules, rs);
    UnmatchedSubset(hist, EditsIn(rules, rs));
    var u := Unmatched(hist, EditsIn(rules, rs));
    forall k | 0 <= k < |u| ensures u[k].target > 0 { assert u[k] in EditsIn(rules, rs); }
  }

  lemma {:induction false} EditTargets(rules: Rules, rs: seq<Record>)
    ensures forall k | 0 <= k < |EditsIn(rules, rs)| :: EditsIn(rules, rs)[k].target > 0 && !rules.unavailable(EditsIn(rules, rs)[k].body)
  {
    if rs != [] { EditTargets(rules, rs[..|rs| - 1]); }
  }

  lemma {:induction false} UnmatchedSubset(hist: seq<Entry>, edits: seq<Edit>)
    ensures forall k | 0 <= k < |Unmatched(hist, edits)| :: Unmatched(hist, edits)[k] in edits
  {
    if edits != [] {
      UnmatchedSubset(hist, edits[..|edits| - 1]);
      assert edits == edits[..|edits| - 1] + [edits[|edits| - 1]];
    }
  }

  /** Edits with positive targets leave every other entry alone. */
  lemma {:induction false} OthersKept(hist: seq<Entry>, edits: seq<Edit>)
    requires forall k | 0 <= k < |edits| :: edits[k].target > 0
    ensures forall i | 0 <= i < |hist| && hist[i].id <= 0 :: ApplyAll(hist, edits)[i] == hist[i]
  {
    if edits != [] {
      var n := |edits| - 1;
      OthersKept(hist, edits[..n]);
      UpdateElsewhere(ApplyAll(hist, edits[..n]), edits[n].target, edits[n].body);
    }
  }

  /** An event stands behind the messages up to its anchor and before the later ones. */
  lemma EventsStandAtAnchors(rules: Rules, p: Page, rs: seq<Record>, evs: seq<EventRecord>, counter: nat, i: nat, j: nat)
    requires var f := Load(rules, p, rs, evs, counter).hist; i < |f| && j < |f| && f[i].id > 0 && IsEvent(f[j])
    ensures var f := Load(rules, p, rs, evs, counter).hist; i < j <==> f[i].id <= Anchor(f[j], 0)
  {
    LoadKeepsLayout(rules, p, rs, evs, counter);
    PartsAreProper(rules, p.hist, rs, evs, counter);
    BubblesAreBubbles(p.hist);
    EventsByAnchor(Merged(rules, Existing(p.hist), rs), EventsOf(p.hist, evs, counter), i, j);
  }

  lemma {:induction false} ReadableKept(rules: Rules, hist: seq<Entry>, edits: seq<Edit>, i: nat)
    requires i < |hist| && !rules.unavailable(hist[i].body)
    requires forall k | 0 <= k < |edits| :: !rules.unavailable(edits[k].body)
    ensures !rules.unavailable(ApplyAll(hist, edits)[i].body)
  {
    if edits != [] {
      var n := |edits| - 1;
      ReadableKept(rules, hist, edits[..n], i);
      UpdateElsewhere(ApplyAll(hist, edits[..n]), edits[n].target, edits[n].body);
    }
  }

  lemma EditsMadeReadable(rules: Rules, p: Page, rs: seq<Record>, hist: seq<Entry>)
    requires forall k | 0 <= k < |p.pending| :: !rules.unavailable(p.pending[k].body)
    ensures forall k | 0 <= k < |EditsMade(rules, p, rs, hist)| :: !rules.unavailable(EditsMade(rules, p, rs, hist)[k].body)
  {
    EditTargets(rules, rs);
    var u := Unmatched(hist, EditsIn(rules, rs));
    UnmatchedSubset(hist, EditsIn(rules, rs));
    forall k | 0 <= k < |u| ensures !rules.unavailable(u[k].body) { assert u[k] in EditsIn(rules, rs); }
  }

  lemma MergedReadable(rules: Rules, existing: map<int, Entry>, rs: seq<Record>, id: int)
    requires id in existing && !rules.unavailable(existing[id].body) && id in Merged(rules, existing, rs)
    ensures !rules.unavailable(Merged(rules, existing, rs)[id].body)
  {
    IncomingFacts(rules, existing, rs);
    if id in Incoming(rules, existing, rs) {
      assert Sent(rules, existing, rs, Incoming(rules, existing, rs)[id], id);
    }
  }

  /** A positive id on the page is a message of the merged history. */
  lemma PlaceOfMessage(rules: Rules, hist: seq<Entry>, rs: seq<Record>, evs: seq<EventRecord>, counter: nat, i: nat)
    requires i < |MergedHistory(rules, hist, rs, evs, counter)| && MergedHistory(rules, hist, rs, evs, counter)[i].id > 0
    ensures var h, m := MergedHistory(rules, hist, rs, evs, counter), Merged(rules, Existing(hist), rs);
      h[i].id in m && h[i] == m[h[i].id]
  {
    PartsAreProper(rules, hist, rs, evs, counter);
    BubblesAreBubbles(hist);
    OrderingItems(Merged(rules, Existing(hist), rs), EventsOf(hist, evs, counter), i);
  }

  /** A text that could be read is never replaced by a placeholder. */
  lemma ReadableStaysReadable(rules: Rules, p: Page, rs: seq<Record>, evs: seq<EventRecord>, counter: nat, i: nat)
    requires forall k | 0 <= k < |p.pending| :: !rules.unavailable(p.pending[k].body)
    requires var f := Load(rules, p, rs, evs, counter).hist;
      i < |f| && f[i].id in Existing(p.hist) && !rules.unavailable(Existing(p.hist)[f[i].id].body)
    ensures !rules.unavailable(Load(rules, p, rs, evs, counter).hist[i].body)
  {
    LoadKeepsLayout(rules, p, rs, evs, counter);
    ExistingFacts(p.hist);
    var h := MergedHistory(rules, p.hist, rs, evs, counter);
    PlaceOfMessage(rules, p.hist, rs, evs, counter, i);
    MergedReadable(rules, Existing(p.hist), rs, h[i].id);
    EditTargets(rules, rs);
    EditsMadeReadable(rules, p, rs, h);
    ReadableKept(rules, h, EditsIn(rules, rs), i);
    ReadableKept(rules, ApplyAll(h, EditsIn(rules, rs)), EditsMade(rules, p, rs, h), i);
  }

  /** An event of the client is still there, with its anchor, unless the server has one with a key of it. */
  lemma LocalEventsStay(rules: Rules, p: Page, rs: seq<Record>, evs: seq<EventRecord>, counter: nat, i: nat)
    requires i < |LocalEvents(p.hist)| && forall k | 0 <= k < |p.pending| :: p.pending[k].target > 0
    ensures var e := LocalEvents(p.hist)[i];
      e in Load(rules, p, rs, evs, counter).hist || (e.event.Event? && KnownKey(StoreEvents(evs, counter).keys, e.event.keys))
  {
    var local, s := LocalEvents(p.hist), StoreEvents(evs, counter);
    LocalsAreEvents(p.hist);
    KeptAreLocal(local, s.keys);
    if local[i] in KeepLocal(local, s.keys) { KeptStays(rules, p, rs, evs, counter, local[i]); }
  }

  lemma KeptStays(rules: Rules, p: Page, rs: seq<Record>, evs: seq<EventRecord>, counter: nat, e: Entry)
    requires e in KeepLocal(LocalEvents(p.hist), StoreEvents(evs, counter).keys) && IsEvent(e)
    requires forall k | 0 <= k < |p.pending| :: p.pending[k].target > 0
    ensures e in Load(rules, p, rs, evs, counter).hist
  {
    var i := KeptIsMerged(p.hist, evs, counter, e);
    EventStaysAt(rules, p, rs, evs, counter, i, e);
  }

  lemma KeptIsMerged(hist: seq<Entry>, evs: seq<EventRecord>, counter: nat, e: Entry) returns (i: nat)
    requires e in KeepLocal(LocalEvents(hist), StoreEvents(evs, counter).keys)
    ensures i < |EventsOf(hist, evs, counter)| && EventsOf(hist, evs, counter)[i] == e
  {
    var s := StoreEvents(evs, counter);
    var kept := KeepLocal(LocalEvents(hist), s.keys);
    var k :| 0 <= k < |kept| && kept[k] == e;
    i := |s.entries| + k;
    assert (s.entries + kept)[i] == e;
  }

  lemma EventStaysAt(rules: Rules, p: Page, rs: seq<Record>, evs: seq<EventRecord>, counter: nat, i: nat, e: Entry)
    requires i < |EventsOf(p.hist, evs, counter)| && EventsOf(p.hist, evs, counter)[i] == e && IsEvent(e)
    requires forall k | 0 <= k < |p.pending| :: p.pending[k].target > 0
    ensures e in Load(rules, p, rs, evs, counter).hist
  {
    EventStays(rules, p, rs, evs, counter, i);
  }

  lemma EventStays(rules: Rules, p: Page, rs: seq<Record>, evs: seq<EventRecord>, counter: nat, k: nat)
    requires k < |EventsOf(p.hist, evs, counter)| && IsEvent(EventsOf(p.hist, evs, counter)[k])
    requires forall j | 0 <= j < |p.pending| :: p.pending[j].target > 0
    ensures EventsOf(p.hist, evs, counter)[k] in Load(rules, p, rs, evs, counter).hist
  {
    var m, es := Merged(rules, Existing(p.hist), rs), EventsOf(p.hist, evs, counter);
    var h := MergedHistory(rules, p.hist, rs, evs, counter);
    var q := OrderingHasEvent(m, es, k);
    LoadKeepsLayout(rules, p, rs, evs, counter);
    EditsMadeTargets(rules, p, rs, h);
    OthersKept(h, EditsIn(rules, rs));
    OthersKept(ApplyAll(h, EditsIn(rules, rs)), EditsMade(rules, p, rs, h));
    assert h[q] == es[k] && Load(rules, p, rs, evs, counter).hist[q] == es[k];
  }
}
