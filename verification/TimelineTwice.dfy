/**
 Loading the same history twice. The first load leaves a page in a fixed form; the
 second reads exactly that form back, so it changes nothing, with one exception.
 */
module TimelineTwice {
  import opened Wrappers
  import opened Ascending
  import opened Edits
  import opened PendingEdits
  import opened StableSort
  import opened Timeline
  import opened TimelineFacts

  // ---- the page after a load in one form -------------------------------

  /** A message after a list of edits. */
  function Revised(e: Entry, edits: seq<Edit>): Entry {
    var k := LastFor(edits, e.id);
    if k < 0 then e else Edited(e, edits[k].body)
  }

  function Revise(m: map<int, Entry>, edits: seq<Edit>): map<int, Entry> {
    map id | id in m :: Revised(m[id], edits)
  }

  /** Items whose messages are taken from another map. */
  function Retake(s: seq<Item>, m: map<int, Entry>): seq<Item> {
    if s == [] then []
    else
      var x := s[|s| - 1];
      Retake(s[..|s| - 1], m) + [if x.entry.id in m then x.(entry := m[x.entry.id]) else x]
  }

  lemma {:induction false} RetakeAt(s: seq<Item>, m: map<int, Entry>)
    ensures |Retake(s, m)| == |s|
    ensures forall i | 0 <= i < |s| :: Retake(s, m)[i] == if s[i].entry.id in m then s[i].(entry := m[s[i].entry.id]) else s[i]
  {
    if s != [] { RetakeAt(s[..|s| - 1], m); }
  }

  lemma {:induction false} RetakeWith(s: seq<Item>, m: map<int, Entry>, k: Key)
    ensures WithKey(Retake(s, m), k) == Retake(WithKey(s, k), m)
  {
    if s != [] {
      var n := |s| - 1;
      RetakeWith(s[..n], m, k);
      RetakeAt(s, m);
      RetakeAt(s[..n], m);
      var r := Retake(s, m);
      assert r[..|r| - 1] == Retake(s[..n], m);
      if s[n].key == k {
        assert (WithKey(s[..n], k) + [s[n]])[..|WithKey(s[..n], k)|] == WithKey(s[..n], k);
      } else {
        assert WithKey(s, k) == WithKey(s[..n], k);
      }
    }
  }

  lemma RetakeNothing(s: seq<Item>, m: map<int, Entry>)
    requires forall i | 0 <= i < |s| :: s[i].entry.id !in m
    ensures Retake(s, m) == s
  {
    RetakeAt(s, m);
  }

  /** Changing what the messages say does not move anything. */
  lemma OrderingRetaken(m: map<int, Entry>, m': map<int, Entry>, es: seq<Entry>)
    requires Proper(m, es) && Proper(m', es) && m.Keys == m'.Keys
    ensures Ordering(m', es) == Retake(Ordering(m, es), m')
  {
    var t := Ordering(m, es);
    RetakeAt(t, m');
    SortFacts(MessageItems(m) + EventItems(es));
    assert StableSort.Ordered(Retake(t, m'));
    forall k ensures WithKey(MessageItems(m') + EventItems(es), k) == WithKey(Retake(t, m'), k) {
      RetakeWith(t, m', k);
      OrderingWith(m, es, k);
      WithKeyConcat(MessageItems(m'), EventItems(es), k);
      RetakeConcat(WithKey(MessageItems(m), k), WithKey(EventItems(es), k), m');
      EventsNotIn(m', es, k);
      MessagesRetaken(m, m', k);
    }
    SortIs(MessageItems(m') + EventItems(es), Retake(t, m'));
  }

  lemma RetakeConcat(a: seq<Item>, b: seq<Item>, m: map<int, Entry>)
    ensures Retake(a + b, m) == Retake(a, m) + Retake(b, m)
  {
    RetakeAt(a, m);
    RetakeAt(b, m);
    RetakeAt(a + b, m);
  }

  lemma EventsNotIn(m: map<int, Entry>, es: seq<Entry>, k: Key)
    requires Proper(m, es)
    ensures Retake(WithKey(EventItems(es), k), m) == WithKey(EventItems(es), k)
  {
    var b := WithKey(EventItems(es), k);
    forall i | 0 <= i < |b| ensures b[i].entry.id !in m {
      assert b[i] in b;
      WithIsIn(EventItems(es), k, b[i]);
    }
    RetakeNothing(b, m);
  }

  lemma MessagesRetaken(m: map<int, Entry>, m': map<int, Entry>, k: Key)
    requires m.Keys == m'.Keys && forall id | id in m :: m[id].id == id
    ensures Retake(WithKey(MessageItems(m), k), m') == WithKey(MessageItems(m'), k)
  {
    if k.order in m && k == MessageKey(k.order) {
      OneMessageWith(m, k.order);
      OneMessageWith(m', k.order);
      RetakeAt([Item(k, m[k.order])], m');
    } else {
      NoMessageWith(m, k);
      NoMessageWith(m', k);
    }
  }

  lemma {:induction false} AllMatched(hist: seq<Entry>, edits: seq<Edit>)
    requires forall k | 0 <= k < |edits| :: Has(hist, edits[k].target)
    ensures Unmatched(hist, edits) == []
  {
    if edits != [] { AllMatched(hist, edits[..|edits| - 1]); }
  }

  lemma LayoutParts(m: map<int, Entry>, es: seq<Entry>, bubbles: seq<Entry>, i: nat)
    requires Proper(m, es) && i < |Layout(m, es, bubbles)| && forall j | 0 <= j < |bubbles| :: IsBubble(bubbles[j])
    ensures var h, t := Layout(m, es, bubbles), Ordering(m, es);
      && (h[i].id > 0 ==> i < |t| && h[i].id in m && h[i] == m[h[i].id])
      && (h[i].id > 0 ==> forall j | 0 <= j < |h| && j != i :: h[j].id != h[i].id)
  {
    var h, t := Layout(m, es, bubbles), Ordering(m, es);
    if h[i].id > 0 {
      OrderingItems(m, es, i);
      forall j | 0 <= j < |h| && j != i ensures h[j].id != h[i].id {
        if h[j].id > 0 {
          if i < j { MessagesIncrease(m, es, i, j); } else { MessagesIncrease(m, es, j, i); }
        }
      }
    }
  }

  /** Edits to a laid-out page are edits to its messages by id. */
  lemma {:induction false} LayoutEdited(m: map<int, Entry>, es: seq<Entry>, bubbles: seq<Entry>, edits: seq<Edit>)
    requires Proper(m, es) && (forall j | 0 <= j < |bubbles| :: IsBubble(bubbles[j]))
    requires forall k | 0 <= k < |edits| :: edits[k].target > 0
    ensures ApplyAll(Layout(m, es, bubbles), edits) == Layout(Revise(m, edits), es, bubbles)
  {
    var h := Layout(m, es, bubbles);
    LayoutRetaken(m, Revise(m, edits), es, bubbles);
    OthersKept(h, edits);
    forall i | 0 <= i < |h| ensures ApplyAll(h, edits)[i] == Layout(Revise(m, edits), es, bubbles)[i] {
      if h[i].id > 0 {
        LayoutParts(m, es, bubbles, i);
        LastEditCounts(h, edits, i);
      }
    }
  }

  lemma EntriesRetaken(t: seq<Item>, m: map<int, Entry>, bubbles: seq<Entry>)
    requires forall j | 0 <= j < |bubbles| :: bubbles[j].id !in m
    ensures var h, h' := EntriesOf(t) + bubbles, EntriesOf(Retake(t, m)) + bubbles;
      |h'| == |h| && forall i | 0 <= i < |h| :: h'[i] == if h[i].id in m then m[h[i].id] else h[i]
  {
    RetakeAt(t, m);
  }

  lemma LayoutRetaken(m: map<int, Entry>, m': map<int, Entry>, es: seq<Entry>, bubbles: seq<Entry>)
    requires Proper(m, es) && Proper(m', es) && m.Keys == m'.Keys && forall j | 0 <= j < |bubbles| :: IsBubble(bubbles[j])
    ensures var h, h' := Layout(m, es, bubbles), Layout(m', es, bubbles);
      |h'| == |h| && forall i | 0 <= i < |h| :: h'[i] == if h[i].id in m' then m'[h[i].id] else h[i]
  {
    OrderingRetaken(m, m', es);
    EntriesRetaken(Ordering(m, es), m', bubbles);
  }
  // ---- reading the page back -------------------------------------------

  lemma {:induction false} ExistingConcat(a: seq<Entry>, b: seq<Entry>)
    requires forall i | 0 <= i < |b| :: !IsMessage(b[i])
    ensures Existing(a + b) == Existing(a)
  {
    if b != [] {
      assert (a + b)[..|a + b| - 1] == a + b[..|b| - 1];
      ExistingConcat(a, b[..|b| - 1]);
    } else {
      assert a + b == a;
    }
  }

  lemma {:induction false} ExistingAt(hist: seq<Entry>, i: nat)
    requires i < |hist| && hist[i].id > 0 && forall j | 0 <= j < |hist| && j != i :: hist[j].id != hist[i].id
    ensures hist[i].id in Existing(hist) && Existing(hist)[hist[i].id] == hist[i]
  {
    if i < |hist| - 1 { ExistingAt(hist[..|hist| - 1], i); }
  }

  lemma ExistingHas(m: map<int, Entry>, es: seq<Entry>, bubbles: seq<Entry>, id: int)
    requires Proper(m, es) && (forall j | 0 <= j < |bubbles| :: IsBubble(bubbles[j])) && id in m
    ensures var x := Existing(Layout(m, es, bubbles)); id in x && x[id] == m[id]
  {
    var h := Layout(m, es, bubbles);
    var p := OrderingHas(m, es, id);
    assert h[p] == m[id];
    LayoutParts(m, es, bubbles, p);
    ExistingAt(h, p);
  }

  lemma ExistingOnly(m: map<int, Entry>, es: seq<Entry>, bubbles: seq<Entry>, id: int)
    requires Proper(m, es) && (forall j | 0 <= j < |bubbles| :: IsBubble(bubbles[j])) && id in Existing(Layout(m, es, bubbles))
    ensures id in m
  {
    var h := Layout(m, es, bubbles);
    ExistingFacts(h);
    var i :| 0 <= i < |h| && h[i] == Existing(h)[id];
    LayoutParts(m, es, bubbles, i);
  }

  /** The messages of a laid-out page are those it was laid out from. */
  lemma ExistingOfLayout(m: map<int, Entry>, es: seq<Entry>, bubbles: seq<Entry>)
    requires Proper(m, es) && forall j | 0 <= j < |bubbles| :: IsBubble(bubbles[j])
    ensures Existing(Layout(m, es, bubbles)) == m
  {
    var x := Existing(Layout(m, es, bubbles));
    forall id | id in m ensures id in x && x[id] == m[id] { ExistingHas(m, es, bubbles, id); }
    forall id | id in x ensures id in m { ExistingOnly(m, es, bubbles, id); }
  }

  lemma {:induction false} BubblesConcat(a: seq<Entry>, b: seq<Entry>)
    requires (forall i | 0 <= i < |a| :: !IsBubble(a[i])) && forall i | 0 <= i < |b| :: IsBubble(b[i])
    ensures Bubbles(a + b) == b
  {
    if b != [] {
      var n := |b| - 1;
      assert (a + b)[..|a + b| - 1] == a + b[..n];
      BubblesConcat(a, b[..n]);
      assert b == b[..n] + [b[n]];
    } else {
      assert a + b == a;
      NoBubbles(a);
    }
  }

  lemma {:induction false} NoBubbles(a: seq<Entry>)
    requires forall i | 0 <= i < |a| :: !IsBubble(a[i])
    ensures Bubbles(a) == []
  {
    if a != [] { NoBubbles(a[..|a| - 1]); }
  }

  lemma BubblesOfLayout(m: map<int, Entry>, es: seq<Entry>, bubbles: seq<Entry>)
    requires Proper(m, es) && forall j | 0 <= j < |bubbles| :: IsBubble(bubbles[j])
    ensures Bubbles(Layout(m, es, bubbles)) == bubbles
  {
    var a := EntriesOf(Ordering(m, es));
    forall i | 0 <= i < |a| ensures !IsBubble(a[i]) { OrderingItems(m, es, i); }
    BubblesConcat(a, bubbles);
  }

  /** The local events of a page, when each has a positive event id and keys. */
  function EventEntries(s: seq<Item>): seq<Entry> {
    if s == [] then []
    else
      var e := s[|s| - 1].entry;
      EventEntries(s[..|s| - 1]) + (if IsEvent(e) then [Anchored(e, 0)] else [])
  }

  lemma {:induction false} LocalsConcat(a: seq<Entry>, b: seq<Entry>)
    requires forall i | 0 <= i < |b| :: !IsEvent(b[i])
    ensures LocalEvents(a + b) == LocalEvents(a)
  {
    if b != [] {
      assert (a + b)[..|a + b| - 1] == a + b[..|b| - 1];
      LocalsConcat(a, b[..|b| - 1]);
    } else {
      assert a + b == a;
    }
  }

  lemma {:induction false} NoIdYet(hist: seq<Entry>)
    requires forall i | 0 <= i < |hist| :: hist[i].id <= 0
    ensures LastId(hist) == 0
  {
    if hist != [] { NoIdYet(hist[..|hist| - 1]); }
  }

  /** An event without an anchor stands before every message, so the fallback is no anchor either. */
  lemma AnchorlessFirst(m: map<int, Entry>, es: seq<Entry>, n: nat)
    requires Proper(m, es) && n < |Ordering(m, es)|
    requires var e := Ordering(m, es)[n].entry; IsEvent(e) && e.event.after <= 0
    ensures LastId(EntriesOf(Ordering(m, es))[..n]) == 0
  {
    var a := EntriesOf(Ordering(m, es));
    forall i | 0 <= i < n ensures a[i].id <= 0 {
      if a[i].id > 0 { EventsByAnchor(m, es, i, n); }
    }
    NoIdYet(a[..n]);
  }

  lemma {:induction false} LocalsOfOrdering(m: map<int, Entry>, es: seq<Entry>, n: nat)
    requires Proper(m, es) && n <= |Ordering(m, es)|
    ensures LocalEvents(EntriesOf(Ordering(m, es))[..n]) == EventEntries(Ordering(m, es)[..n])
  {
    var t := Ordering(m, es);
    if n > 0 {
      LocalsOfOrdering(m, es, n - 1);
      var e := t[n - 1].entry;
      if IsEvent(e) && e.event.after <= 0 { AnchorlessFirst(m, es, n - 1); }
      OneMoreLocal(EntriesOf(t), t, n - 1);
    }
  }

  lemma OneMoreLocal(a: seq<Entry>, t: seq<Item>, n: nat)
    requires n < |a| && a == EntriesOf(t) && LocalEvents(a[..n]) == EventEntries(t[..n])
    requires IsEvent(a[n]) && a[n].event.after <= 0 ==> LastId(a[..n]) == 0
    ensures LocalEvents(a[..n + 1]) == EventEntries(t[..n + 1])
  {
    assert a[..n + 1][..n] == a[..n] && t[..n + 1][..n] == t[..n];
  }

  lemma LocalsOfLayout(m: map<int, Entry>, es: seq<Entry>, bubbles: seq<Entry>)
    requires Proper(m, es) && forall j | 0 <= j < |bubbles| :: IsBubble(bubbles[j])
    ensures LocalEvents(Layout(m, es, bubbles)) == EventEntries(Ordering(m, es))
  {
    var t := Ordering(m, es);
    LocalsConcat(EntriesOf(t), bubbles);
    LocalsOfOrdering(m, es, |t|);
    assert EntriesOf(t)[..|t|] == EntriesOf(t) && t[..|t|] == t;
  }

  // ---- the events of the second load -----------------------------------

  /** Items of events that have positive event ids, whose keys do not depend on their position. */
  function ByEntry(es: seq<Entry>): seq<Item> {
    if es == [] then []
    else ByEntry(es[..|es| - 1]) + [Item(EventKeyAt(es[|es| - 1], 0), es[|es| - 1])]
  }

  /** An event of the server's own numbering. */
  predicate Numbered(e: Entry) { IsEvent(e) && e.event.sid > 0 }

  lemma {:induction false} ByEntryIs(es: seq<Entry>)
    requires forall i | 0 <= i < |es| :: Numbered(es[i])
    ensures ByEntry(es) == EventItems(es)
  {
    if es != [] {
      var n := |es| - 1;
      ByEntryIs(es[..n]);
      assert EventItems(es) == EventItems(es[..n]) + [Item(EventKeyAt(es[n], n), es[n])];
    }
  }

  lemma {:induction false} ByEntryConcat(a: seq<Entry>, b: seq<Entry>)
    ensures ByEntry(a + b) == ByEntry(a) + ByEntry(b)
  {
    if b != [] {
      assert (a + b)[..|a + b| - 1] == a + b[..|b| - 1];
      ByEntryConcat(a, b[..|b| - 1]);
    } else {
      assert a + b == a;
    }
  }

  /** The event has none of the keys. */
  predicate Unlisted(e: Entry, keys: set<EventKey>) { IsEvent(e) && !KnownKey(keys, e.event.keys) }

  function Unknown(s: seq<Item>, keys: set<EventKey>): seq<Item> {
    if s == [] then []
    else Unknown(s[..|s| - 1], keys) + (if Unlisted(s[|s| - 1].entry, keys) then [s[|s| - 1]] else [])
  }

  lemma {:induction false} UnknownConcat(a: seq<Item>, b: seq<Item>, keys: set<EventKey>)
    ensures Unknown(a + b, keys) == Unknown(a, keys) + Unknown(b, keys)
  {
    if b != [] {
      assert (a + b)[..|a + b| - 1] == a + b[..|b| - 1];
      UnknownConcat(a, b[..|b| - 1], keys);
    } else {
      assert a + b == a;
    }
  }

  lemma {:induction false} UnknownNone(s: seq<Item>, keys: set<EventKey>)
    requires forall i | 0 <= i < |s| :: !Unlisted(s[i].entry, keys)
    ensures Unknown(s, keys) == []
  {
    if s != [] { UnknownNone(s[..|s| - 1], keys); }
  }

  lemma {:induction false} UnknownAll(s: seq<Item>, keys: set<EventKey>)
    requires forall i | 0 <= i < |s| :: Unlisted(s[i].entry, keys)
    ensures Unknown(s, keys) == s
  {
    if s != [] { UnknownAll(s[..|s| - 1], keys); }
  }

  lemma {:induction false} UnknownWith(s: seq<Item>, keys: set<EventKey>, k: Key)
    ensures WithKey(Unknown(s, keys), k) == Unknown(WithKey(s, k), keys)
  {
    if s != [] {
      var n := |s| - 1;
      UnknownWith(s[..n], keys, k);
      var u, x := Unknown(s[..n], keys), s[n];
      WithKeyConcat(u, if Unlisted(x.entry, keys) then [x] else [], k);
      UnknownConcat(WithKey(s[..n], k), if x.key == k then [x] else [], keys);
      OneItem(x, keys, k);
    }
  }

  lemma OneItem(x: Item, keys: set<EventKey>, k: Key)
    ensures WithKey([x], k) == if x.key == k then [x] else []
    ensures Unknown([x], keys) == if Unlisted(x.entry, keys) then [x] else []
  {
    assert [x][..0] == [];
  }

  /** An event that reading back leaves as it is. */
  predicate Settled(e: Entry) { IsEvent(e) && Anchored(e, 0) == e }

  /** What reading an ordering back keeps of its events. */
  lemma {:induction false} KeptAgain(s: seq<Item>, keys: set<EventKey>)
    requires forall i | 0 <= i < |s| && IsEvent(s[i].entry) :: s[i].key == EventKeyAt(s[i].entry, 0)
    requires forall i | 0 <= i < |s| && Unlisted(s[i].entry, keys) :: Settled(s[i].entry)
    ensures ByEntry(KeepLocal(EventEntries(s), keys)) == Unknown(s, keys)
  {
    if s != [] {
      var n := |s| - 1;
      KeptAgain(s[..n], keys);
      var e := s[n].entry;
      var l := EventEntries(s[..n]);
      if IsEvent(e) {
        var x := Anchored(e, 0);
        assert (l + [x])[..|l|] == l;
        if Unlisted(e, keys) {
          var kept := KeepLocal(l, keys);
          assert KeepLocal(l + [x], keys) == kept + [x] && (kept + [x])[..|kept|] == kept;
        } else {
          assert x.event.keys == e.event.keys;
          assert KeepLocal(l + [x], keys) == KeepLocal(l, keys);
          assert Unknown(s, keys) == Unknown(s[..n], keys);
        }
      } else {
        assert EventEntries(s) == l;
        assert Unknown(s, keys) == Unknown(s[..n], keys);
      }
    }
  }

  /** The local events a second load keeps are, key by key, those the first kept. */
  lemma SameEventsAgain(m: map<int, Entry>, stored: seq<Entry>, kept: seq<Entry>, keys: set<EventKey>)
    requires Proper(m, stored + kept) && (forall i | 0 <= i < |stored + kept| :: Numbered((stored + kept)[i]))
    requires forall i | 0 <= i < |stored| :: !Unlisted(stored[i], keys)
    requires forall i | 0 <= i < |kept| :: Unlisted(kept[i], keys) && Settled(kept[i])
    ensures forall k :: WithKey(ByEntry(KeepLocal(EventEntries(Ordering(m, stored + kept)), keys)), k) == WithKey(ByEntry(kept), k)
  {
    var t, items := Ordering(m, stored + kept), MessageItems(m) + EventItems(stored + kept);
    UnknownOfItems(m, stored, kept, keys);
    forall i | 0 <= i < |t| && IsEvent(t[i].entry)
      ensures t[i].key == EventKeyAt(t[i].entry, 0) && (Unlisted(t[i].entry, keys) ==> Settled(t[i].entry))
    {
      EventOfOrdering(m, stored, kept, keys, i);
    }
    KeptAgain(t, keys);
    SortFacts(items);
    forall k ensures WithKey(Unknown(t, keys), k) == WithKey(ByEntry(kept), k) {
      UnknownWith(t, keys, k);
      UnknownWith(items, keys, k);
    }
  }

  lemma EventOfOrdering(m: map<int, Entry>, stored: seq<Entry>, kept: seq<Entry>, keys: set<EventKey>, i: nat)
    requires Proper(m, stored + kept) && (forall i | 0 <= i < |stored + kept| :: Numbered((stored + kept)[i]))
    requires forall i | 0 <= i < |stored| :: !Unlisted(stored[i], keys)
    requires forall i | 0 <= i < |kept| :: Settled(kept[i])
    requires i < |Ordering(m, stored + kept)| && IsEvent(Ordering(m, stored + kept)[i].entry)
    ensures var x := Ordering(m, stored + kept)[i];
      x.key == EventKeyAt(x.entry, 0) && (Unlisted(x.entry, keys) ==> Settled(x.entry))
  {
    var x, es := Ordering(m, stored + kept)[i], stored + kept;
    OrderingItems(m, es, i);
    var j :| 0 <= j < |es| && x == Item(EventKeyAt(es[j], j), es[j]);
    if j >= |stored| { assert es[j] == kept[j - |stored|]; } else { assert es[j] == stored[j]; }
  }

  lemma UnknownOfItems(m: map<int, Entry>, stored: seq<Entry>, kept: seq<Entry>, keys: set<EventKey>)
    requires Proper(m, stored + kept) && (forall i | 0 <= i < |stored + kept| :: Numbered((stored + kept)[i]))
    requires forall i | 0 <= i < |stored| :: !Unlisted(stored[i], keys)
    requires forall i | 0 <= i < |kept| :: Unlisted(kept[i], keys)
    ensures Unknown(MessageItems(m) + EventItems(stored + kept), keys) == ByEntry(kept)
  {
    ByEntryIs(stored + kept);
    UnknownOfMessages(m, ByEntry(stored + kept), keys);
    UnknownOfEvents(stored, kept, keys);
  }

  lemma UnknownOfMessages(m: map<int, Entry>, items: seq<Item>, keys: set<EventKey>)
    requires forall id | id in m :: id > 0 && m[id].id == id
    ensures Unknown(MessageItems(m) + items, keys) == Unknown(items, keys)
  {
    UnknownConcat(MessageItems(m), items, keys);
    UnknownNone(MessageItems(m), keys);
    assert [] + Unknown(items, keys) == Unknown(items, keys);
  }

  lemma UnknownOfEvents(stored: seq<Entry>, kept: seq<Entry>, keys: set<EventKey>)
    requires forall i | 0 <= i < |stored| :: !Unlisted(stored[i], keys)
    requires forall i | 0 <= i < |kept| :: Unlisted(kept[i], keys)
    ensures Unknown(ByEntry(stored + kept), keys) == ByEntry(kept)
  {
    ByEntryConcat(stored, kept);
    UnknownConcat(ByEntry(stored), ByEntry(kept), keys);
    ByEntryEntries(stored);
    ByEntryEntries(kept);
    UnknownNone(ByEntry(stored), keys);
    UnknownAll(ByEntry(kept), keys);
  }

  lemma {:induction false} ByEntryEntries(es: seq<Entry>)
    ensures |ByEntry(es)| == |es| && forall i | 0 <= i < |es| :: ByEntry(es)[i].entry == es[i]
  {
    if es != [] { ByEntryEntries(es[..|es| - 1]); }
  }

  // ---- the messages of the second load ---------------------------------

  /** An entry of the page or an edit with the text of a protocol marker is not shown by the next load. */
  ghost predicate NoMarkers(rules: Rules, existing: map<int, Entry>, edits: seq<Edit>) {
    && (forall id | id in existing :: id > 0 && existing[id].id == id && !rules.control(existing[id].body))
    && (forall k | 0 <= k < |edits| :: edits[k].target > 0 && !rules.control(edits[k].body) && !rules.unavailable(edits[k].body))
  }

  /** Waiting edits of messages, with texts that are neither placeholders nor markers. */
  ghost predicate Plain(rules: Rules, waiting: seq<Edit>) {
    forall k | 0 <= k < |waiting| :: waiting[k].target > 0 && !rules.control(waiting[k].body) && !rules.unavailable(waiting[k].body)
  }

  /** The server's copy is hidden and unreadable, no readable text was known, and an edit gives one. */
  predicate Unhides(rules: Rules, existing: map<int, Entry>, rs: seq<Record>, waiting: seq<Edit>, id: int) {
    var m := Incoming(rules, existing, rs);
    && id in m && m[id].hidden && rules.unavailable(m[id].body)
    && (LastFor(EditsIn(rules, rs), id) >= 0 || LastFor(waiting, id) >= 0)
  }

  /** The server's copy already is the edited message, or its text cannot be read and the edited one is kept. */
  predicate SentAs(rules: Rules, r: Record, text: string) {
    !r.deleted && (rules.unavailable(r.body) || (r.body == text && r.edited))
  }

  /** An edit has waited for the message, and what the server sends of it says something else than the edit. */
  predicate Undoes(rules: Rules, existing: map<int, Entry>, rs: seq<Record>, waiting: seq<Edit>, id: int) {
    var edits := EditsIn(rules, rs);
    var r, k, w := LastOriginal(rules, rs, id), LastFor(edits, id), LastFor(waiting, id);
    && w >= 0 && (r >= 0 || id in existing)
    && if k >= 0 then edits[k].body != waiting[w].body else r >= 0 && !SentAs(rules, rs[r], waiting[w].body)
  }

  /** Every edit of a load: first those of the history, then the waiting ones. */
  function Amended(m: map<int, Entry>, edits: seq<Edit>, waiting: seq<Edit>): map<int, Entry> {
    Revise(Revise(m, edits), waiting)
  }

  /** One message through two loads: what the server sends of it, and two texts it may be edited to. */
  lemma MessageTwice(rules: Rules, existing: map<int, Entry>, r: Record, edits: seq<Edit>, waiting: seq<Edit>, m': map<int, Entry>)
    requires NoMarkers(rules, existing, edits) && Plain(rules, waiting) && IsOriginal(rules, r)
    requires r.id in m' && m'[r.id] == Revised(Revised(FromRecord(rules, existing, r), edits), waiting)
    ensures var m, again, k, w := FromRecord(rules, existing, r), FromRecord(rules, m', r), LastFor(edits, r.id), LastFor(waiting, r.id);
      && Shows(rules, m) && Shows(rules, again)
      && (Revised(again, edits) == m'[r.id] <==>
            && !(m.hidden && rules.unavailable(m.body) && (k >= 0 || w >= 0))
            && !(w >= 0 && if k >= 0 then edits[k].body != waiting[w].body else !SentAs(rules, r, waiting[w].body)))
  {
  }

  lemma MergedAt(rules: Rules, existing: map<int, Entry>, rs: seq<Record>, edits: seq<Edit>, id: int)
    requires NoMarkers(rules, existing, edits) && edits == EditsIn(rules, rs)
    ensures var m := Merged(rules, existing, rs); var k := LastOriginal(rules, rs, id);
      && (id in m <==> k >= 0 || id in existing)
      && (id in m ==> m[id].id == id && m[id] == if k >= 0 then FromRecord(rules, existing, rs[k]) else existing[id])
  {
    IncomingLast(rules, existing, rs, id);
  }

  /** The same for a message the server does not send. */
  lemma KnownTwice(rules: Rules, e: Entry, edits: seq<Edit>, waiting: seq<Edit>)
    requires Plain(rules, waiting) && !rules.control(e.body) && forall k | 0 <= k < |edits| :: !rules.control(edits[k].body)
    ensures var f, k, w := Revised(Revised(e, edits), waiting), LastFor(edits, e.id), LastFor(waiting, e.id);
      && Shows(rules, f) && f.id == e.id
      && (Revised(f, edits) == f <==> !(k >= 0 && w >= 0 && edits[k].body != waiting[w].body))
  {
  }

  /** The second load sees the same ids, and the same entry unless it unhides it or undoes an edit. */
  lemma MergedTwiceAt(rules: Rules, existing: map<int, Entry>, rs: seq<Record>, edits: seq<Edit>, waiting: seq<Edit>, id: int)
    requires NoMarkers(rules, existing, edits) && Plain(rules, waiting) && edits == EditsIn(rules, rs) && id in Merged(rules, existing, rs)
    ensures var m' := Amended(Merged(rules, existing, rs), edits, waiting); var again := Merged(rules, m', rs);
      id in again && again[id].id == id &&
      (Revised(again[id], edits) == m'[id] <==> !Unhides(rules, existing, rs, waiting, id) && !Undoes(rules, existing, rs, waiting, id))
  {
    var m' := Amended(Merged(rules, existing, rs), edits, waiting);
    var k := LastOriginal(rules, rs, id);
    MergedAt(rules, existing, rs, edits, id);
    IncomingLast(rules, existing, rs, id);
    IncomingLast(rules, m', rs, id);
    if k >= 0 { MessageTwice(rules, existing, rs[k], edits, waiting, m'); } else { KnownTwice(rules, existing[id], edits, waiting); }
  }

  /** The message is neither unhidden nor loses an edit that waited. */
  predicate Keeps(rules: Rules, existing: map<int, Entry>, rs: seq<Record>, waiting: seq<Edit>, id: int) {
    !Unhides(rules, existing, rs, waiting, id) && !Undoes(rules, existing, rs, waiting, id)
  }

  /** Nothing is unhidden, and no edit that waited is undone. */
  ghost predicate Agrees(rules: Rules, existing: map<int, Entry>, rs: seq<Record>, waiting: seq<Edit>) {
    forall id :: Keeps(rules, existing, rs, waiting, id)
  }

  lemma MergedTwiceKeys(rules: Rules, existing: map<int, Entry>, rs: seq<Record>, edits: seq<Edit>, waiting: seq<Edit>)
    requires NoMarkers(rules, existing, edits) && Plain(rules, waiting) && edits == EditsIn(rules, rs)
    ensures var m := Merged(rules, existing, rs); Merged(rules, Amended(m, edits, waiting), rs).Keys == m.Keys
  {
    var m := Merged(rules, existing, rs);
    var m' := Amended(m, edits, waiting);
    forall id ensures id in Merged(rules, m', rs) <==> id in m {
      MergedAt(rules, existing, rs, edits, id);
      IncomingLast(rules, m', rs, id);
      if id in m { MergedTwiceAt(rules, existing, rs, edits, waiting, id); }
    }
  }

  /** An id the second load would change is on the page. */
  lemma ChangesAreKnown(rules: Rules, existing: map<int, Entry>, rs: seq<Record>, edits: seq<Edit>, waiting: seq<Edit>, id: int)
    requires NoMarkers(rules, existing, edits) && edits == EditsIn(rules, rs)
    requires Unhides(rules, existing, rs, waiting, id) || Undoes(rules, existing, rs, waiting, id)
    ensures id in Merged(rules, existing, rs)
  {
    MergedAt(rules, existing, rs, edits, id);
    IncomingLast(rules, existing, rs, id);
  }

  lemma MergedTwice(rules: Rules, existing: map<int, Entry>, rs: seq<Record>, edits: seq<Edit>, waiting: seq<Edit>)
    requires NoMarkers(rules, existing, edits) && Plain(rules, waiting) && edits == EditsIn(rules, rs)
    ensures var m' := Amended(Merged(rules, existing, rs), edits, waiting); var again := Merged(rules, m', rs);
      again.Keys == m'.Keys && (forall id | id in m' :: again[id].id == id)
      && (Revise(again, edits) == m' <==> Agrees(rules, existing, rs, waiting))
  {
    var m' := Amended(Merged(rules, existing, rs), edits, waiting);
    var again := Merged(rules, m', rs);
    MergedTwiceKeys(rules, existing, rs, edits, waiting);
    forall id | id in m'
      ensures again[id].id == id && (Revised(again[id], edits) == m'[id] <==> Keeps(rules, existing, rs, waiting, id))
    {
      MergedTwiceAt(rules, existing, rs, edits, waiting, id);
    }
    forall id | !Keeps(rules, existing, rs, waiting, id) ensures id in m' {
      ChangesAreKnown(rules, existing, rs, edits, waiting, id);
    }
    RevisedIs(again, edits, m');
  }

  lemma RevisedIs(m: map<int, Entry>, edits: seq<Edit>, n: map<int, Entry>)
    requires m.Keys == n.Keys
    ensures Revise(m, edits) == n <==> forall id | id in m :: Revised(m[id], edits) == n[id]
  {
    var r := Revise(m, edits);
    assert r.Keys == m.Keys;
    assert forall id | id in m :: r[id] == Revised(m[id], edits);
    if r == n {
      forall id | id in m ensures Revised(m[id], edits) == n[id] { assert r[id] == n[id]; }
    }
    if forall id | id in m :: Revised(m[id], edits) == n[id] {
      assert forall id | id in r :: id in n && r[id] == n[id];
      assert r == n;
    }
  }

  // ---- stored and kept events ------------------------------------------

  lemma {:induction false} StoredNumbered(evs: seq<EventRecord>, counter: nat)
    requires forall i | 0 <= i < |evs| :: evs[i].sid > 0
    ensures var s := StoreEvents(evs, counter);
      && s.counter == counter
      && (forall i | 0 <= i < |s.entries| :: Numbered(s.entries[i]) && KnownKey(s.keys, s.entries[i].event.keys))
  {
    if evs != [] {
      var n := |evs| - 1;
      StoredNumbered(evs[..n], counter);
      var before, s := StoreEvents(evs[..n], counter), StoreEvents(evs, counter);
      assert before.keys <= s.keys;
      if s != before {
        var e := s.entries[|s.entries| - 1];
        assert e.event.keys[0] == SystemId(evs[n].sid) && e.event.keys[0] in s.keys;
      }
      forall i | 0 <= i < |s.entries| ensures Numbered(s.entries[i]) && KnownKey(s.keys, s.entries[i].event.keys) {
        if i < |before.entries| {
          assert KnownKey(before.keys, before.entries[i].event.keys);
          var k :| k in before.entries[i].event.keys && k in before.keys;
          assert k in s.keys;
        }
      }
    }
  }

  lemma {:induction false} LocalsSettled(hist: seq<Entry>)
    requires forall i | 0 <= i < |hist| && IsEvent(hist[i]) :: hist[i].event.sid > 0
    ensures forall i | 0 <= i < |LocalEvents(hist)| :: Numbered(LocalEvents(hist)[i]) && Settled(LocalEvents(hist)[i])
  {
    if hist != [] { LocalsSettled(hist[..|hist| - 1]); }
  }

  lemma {:induction false} KeptSettled(local: seq<Entry>, keys: set<EventKey>)
    requires forall i | 0 <= i < |local| :: Numbered(local[i]) && Settled(local[i])
    ensures var kept := KeepLocal(local, keys);
      forall i | 0 <= i < |kept| :: Numbered(kept[i]) && Settled(kept[i]) && Unlisted(kept[i], keys)
  {
    if local != [] {
      var n := |local| - 1;
      KeptSettled(local[..n], keys);
      if Unlisted(local[n], keys) {
        assert KeepLocal(local, keys) == KeepLocal(local[..n], keys) + [local[n]];
      } else {
        assert KeepLocal(local, keys) == KeepLocal(local[..n], keys);
      }
    }
  }

  // ---- two loads -------------------------------------------------------

  /** Events have positive ids, no entry or edit is a marker, and edits that wait can be read. */
  ghost predicate Steady(rules: Rules, p: Page, rs: seq<Record>, evs: seq<EventRecord>, counter: nat) {
    && Plain(rules, p.pending)
    && (forall i | 0 <= i < |evs| :: evs[i].sid > 0)
    && (forall i | 0 <= i < |p.hist| && IsEvent(p.hist[i]) :: p.hist[i].event.sid > 0)
    && (forall i | 0 <= i < |p.hist| && IsMessage(p.hist[i]) :: !rules.control(p.hist[i].body))
    && (forall k | 0 <= k < |EditsIn(rules, rs)| :: !rules.control(EditsIn(rules, rs)[k].body))
  }

  /** Every edit of the history finds its message. */
  ghost predicate Found(rules: Rules, p: Page, rs: seq<Record>, evs: seq<EventRecord>, counter: nat) {
    forall k | 0 <= k < |EditsIn(rules, rs)| :: Has(MergedHistory(rules, p.hist, rs, evs, counter), EditsIn(rules, rs)[k].target)
  }

  lemma SteadyHasNoMarkers(rules: Rules, p: Page, rs: seq<Record>, evs: seq<EventRecord>, counter: nat)
    requires Steady(rules, p, rs, evs, counter)
    ensures NoMarkers(rules, Existing(p.hist), EditsIn(rules, rs))
  {
    ExistingFacts(p.hist);
    EditTargets(rules, rs);
    var x := Existing(p.hist);
    forall id | id in x ensures !rules.control(x[id].body) {
      var i :| 0 <= i < |p.hist| && p.hist[i] == x[id];
    }
  }

  /** Edits that find nothing change nothing, and all of them wait on. */
  lemma {:induction false} NoneMatched(hist: seq<Entry>, edits: seq<Edit>)
    requires forall k | 0 <= k < |edits| :: !Has(hist, edits[k].target)
    ensures Unmatched(hist, edits) == edits
  {
    if edits != [] {
      NoneMatched(hist, edits[..|edits| - 1]);
      assert edits == edits[..|edits| - 1] + [edits[|edits| - 1]];
    }
  }

  /** A load when all edits of the history find their message. */
  lemma LoadIs(rules: Rules, hist: seq<Entry>, waiting: seq<Edit>, rs: seq<Record>, evs: seq<EventRecord>, counter: nat)
    requires forall k | 0 <= k < |EditsIn(rules, rs)| :: Has(MergedHistory(rules, hist, rs, evs, counter), EditsIn(rules, rs)[k].target)
    requires forall k | 0 <= k < |waiting| :: waiting[k].target > 0
    ensures Load(rules, Page(hist, waiting), rs, evs, counter) ==
      Page(Layout(Amended(Merged(rules, Existing(hist), rs), EditsIn(rules, rs), waiting), EventsOf(hist, evs, counter), Bubbles(hist)),
           Unmatched(MergedHistory(rules, hist, rs, evs, counter), waiting))
  {
    var h, edits, m := MergedHistory(rules, hist, rs, evs, counter), EditsIn(rules, rs), Merged(rules, Existing(hist), rs);
    AmendAllIs(Page(h, waiting), edits);
    AllMatched(h, edits);
    assert waiting + [] == waiting;
    EditTargets(rules, rs);
    PartsAreProper(rules, hist, rs, evs, counter);
    BubblesAreBubbles(hist);
    LayoutEdited(m, EventsOf(hist, evs, counter), Bubbles(hist), edits);
    LayoutEdited(Revise(m, edits), EventsOf(hist, evs, counter), Bubbles(hist), waiting);
    ApplyKeepsIds(h, edits);
    SameIdsSameUnmatched(ApplyAll(h, edits), h, waiting);
  }

  lemma SameOrdering(m: map<int, Entry>, a: seq<Entry>, b: seq<Entry>)
    requires forall k :: WithKey(EventItems(a), k) == WithKey(EventItems(b), k)
    ensures Ordering(m, a) == Ordering(m, b)
  {
    SortFacts(MessageItems(m) + EventItems(a));
    SortFacts(MessageItems(m) + EventItems(b));
    forall k ensures WithKey(Ordering(m, a), k) == WithKey(Ordering(m, b), k) {
      OrderingWith(m, a, k);
      OrderingWith(m, b, k);
    }
    SameByKeys(Ordering(m, a), Ordering(m, b));
  }

  /** The events of a first load: the server's, which have listed keys, and the client's, which have not. */
  ghost predicate TwoKinds(stored: seq<Entry>, kept: seq<Entry>, keys: set<EventKey>) {
    && (forall i | 0 <= i < |stored| :: Numbered(stored[i]) && !Unlisted(stored[i], keys))
    && (forall i | 0 <= i < |kept| :: Numbered(kept[i]) && Unlisted(kept[i], keys) && Settled(kept[i]))
  }

  lemma NumberedConcat(a: seq<Entry>, b: seq<Entry>)
    requires (forall i | 0 <= i < |a| :: Numbered(a[i])) && forall i | 0 <= i < |b| :: Numbered(b[i])
    ensures forall i | 0 <= i < |a + b| :: Numbered((a + b)[i])
  {
    forall i | 0 <= i < |a + b| ensures Numbered((a + b)[i]) {
      if i < |a| { assert (a + b)[i] == a[i]; } else { assert (a + b)[i] == b[i - |a|]; }
    }
  }

  /** The second load orders the events of the first in the same way. */
  lemma EventsTwice(m: map<int, Entry>, n: map<int, Entry>, stored: seq<Entry>, kept: seq<Entry>, keys: set<EventKey>, again: seq<Entry>)
    requires Proper(m, stored + kept) && TwoKinds(stored, kept, keys)
    requires again == KeepLocal(EventEntries(Ordering(m, stored + kept)), keys) && forall i | 0 <= i < |again| :: Numbered(again[i])
    ensures Ordering(n, stored + again) == Ordering(n, stored + kept)
  {
    NumberedConcat(stored, again);
    NumberedConcat(stored, kept);
    SameEventsAgain(m, stored, kept, keys);
    ByEntryIs(stored + kept);
    ByEntryIs(stored + again);
    ByEntryConcat(stored, kept);
    ByEntryConcat(stored, again);
    forall k ensures WithKey(EventItems(stored + again), k) == WithKey(EventItems(stored + kept), k) {
      WithKeyConcat(ByEntry(stored), ByEntry(again), k);
      WithKeyConcat(ByEntry(stored), ByEntry(kept), k);
    }
    SameOrdering(n, stored + again, stored + kept);
  }

  /** The events of a laid-out page are numbered again when they were. */
  lemma {:induction false} EventEntriesNumbered(s: seq<Item>)
    requires forall i | 0 <= i < |s| && IsEvent(s[i].entry) :: s[i].entry.event.sid > 0
    ensures forall i | 0 <= i < |EventEntries(s)| :: Numbered(EventEntries(s)[i])
  {
    if s != [] { EventEntriesNumbered(s[..|s| - 1]); }
  }

  lemma FirstEvents(hist: seq<Entry>, evs: seq<EventRecord>, counter: nat)
    requires (forall i | 0 <= i < |evs| :: evs[i].sid > 0) && (forall i | 0 <= i < |hist| && IsEvent(hist[i]) :: hist[i].event.sid > 0)
    ensures var s := StoreEvents(evs, counter); TwoKinds(s.entries, KeepLocal(LocalEvents(hist), s.keys), s.keys)
  {
    StoredNumbered(evs, counter);
    LocalsSettled(hist);
    KeptSettled(LocalEvents(hist), StoreEvents(evs, counter).keys);
  }

  lemma ReadBackNumbered(m: map<int, Entry>, es: seq<Entry>, keys: set<EventKey>)
    requires Proper(m, es) && forall i | 0 <= i < |es| :: Numbered(es[i])
    ensures var again := KeepLocal(EventEntries(Ordering(m, es)), keys); forall i | 0 <= i < |again| :: Numbered(again[i])
  {
    var t := Ordering(m, es);
    forall i | 0 <= i < |t| && IsEvent(t[i].entry) ensures t[i].entry.event.sid > 0 {
      OrderingItems(m, es, i);
      var j :| 0 <= j < |es| && t[i] == Item(EventKeyAt(es[j], j), es[j]);
    }
    EventEntriesNumbered(t);
    KeptAreLocal(EventEntries(t), keys);
    var again := KeepLocal(EventEntries(t), keys);
    forall i | 0 <= i < |again| ensures Numbered(again[i]) { assert again[i] in EventEntries(t); }
  }

  lemma EventsAgain(m: map<int, Entry>, n: map<int, Entry>, stored: seq<Entry>, kept: seq<Entry>, keys: set<EventKey>)
    requires Proper(m, stored + kept) && TwoKinds(stored, kept, keys)
    ensures Ordering(n, stored + KeepLocal(EventEntries(Ordering(m, stored + kept)), keys)) == Ordering(n, stored + kept)
  {
    NumberedConcat(stored, kept);
    ReadBackNumbered(m, stored + kept, keys);
    EventsTwice(m, n, stored, kept, keys, KeepLocal(EventEntries(Ordering(m, stored + kept)), keys));
  }

  /** What the second load finds on the page of the first. */
  lemma PageAgain(m: map<int, Entry>, hist: seq<Entry>, evs: seq<EventRecord>, counter: nat, bubbles: seq<Entry>, n: map<int, Entry>)
    requires (forall i | 0 <= i < |evs| :: evs[i].sid > 0) && (forall i | 0 <= i < |hist| && IsEvent(hist[i]) :: hist[i].event.sid > 0)
    requires Proper(m, EventsOf(hist, evs, counter)) && forall j | 0 <= j < |bubbles| :: IsBubble(bubbles[j])
    ensures var h := Layout(m, EventsOf(hist, evs, counter), bubbles);
      && Existing(h) == m && Bubbles(h) == bubbles
      && Ordering(n, EventsOf(h, evs, counter)) == Ordering(n, EventsOf(hist, evs, counter))
  {
    var es, s := EventsOf(hist, evs, counter), StoreEvents(evs, counter);
    ExistingOfLayout(m, es, bubbles);
    BubblesOfLayout(m, es, bubbles);
    LocalsOfLayout(m, es, bubbles);
    FirstEvents(hist, evs, counter);
    EventsAgain(m, n, s.entries, KeepLocal(LocalEvents(hist), s.keys), s.keys);
  }

  /** The positive ids of a layout are those of its messages. */
  lemma LayoutHas(m: map<int, Entry>, es: seq<Entry>, bubbles: seq<Entry>, id: int)
    requires Proper(m, es) && id > 0 && forall j | 0 <= j < |bubbles| :: IsBubble(bubbles[j])
    ensures Has(Layout(m, es, bubbles), id) <==> id in m
  {
    var h := Layout(m, es, bubbles);
    if id in m {
      var p := OrderingHas(m, es, id);
      assert h[p].id == id;
    }
    if i :| 0 <= i < |h| && h[i].id == id { LayoutParts(m, es, bubbles, i); }
  }

  lemma TargetsAgain(m: map<int, Entry>, es: seq<Entry>, bubbles: seq<Entry>, n: map<int, Entry>, es2: seq<Entry>, edits: seq<Edit>)
    requires Proper(m, es) && Proper(n, es2) && m.Keys == n.Keys && forall j | 0 <= j < |bubbles| :: IsBubble(bubbles[j])
    requires forall k | 0 <= k < |edits| :: edits[k].target > 0
    ensures forall k | 0 <= k < |edits| :: Has(Layout(n, es2, bubbles), edits[k].target) <==> Has(Layout(m, es, bubbles), edits[k].target)
  {
    forall k | 0 <= k < |edits|
      ensures Has(Layout(n, es2, bubbles), edits[k].target) <==> Has(Layout(m, es, bubbles), edits[k].target)
    {
      LayoutHas(m, es, bubbles, edits[k].target);
      LayoutHas(n, es2, bubbles, edits[k].target);
    }
  }

  lemma {:induction false} NoneFor(edits: seq<Edit>, id: int)
    requires forall k | 0 <= k < |edits| :: edits[k].target != id
    ensures LastFor(edits, id) == -1
  {
    if edits != [] { NoneFor(edits[..|edits| - 1], id); }
  }

  /** Edits that wait on find no message in any layout of the same ids. */
  lemma {:induction false} StillWaiting(m: map<int, Entry>, es: seq<Entry>, bubbles: seq<Entry>, n: map<int, Entry>, es2: seq<Entry>, left: seq<Edit>)
    requires Proper(m, es) && Proper(n, es2) && m.Keys == n.Keys && forall j | 0 <= j < |bubbles| :: IsBubble(bubbles[j])
    requires forall k | 0 <= k < |left| :: left[k].target > 0 && !Has(Layout(m, es, bubbles), left[k].target)
    ensures Unmatched(Layout(n, es2, bubbles), left) == left && Revise(n, left) == n
  {
    TargetsAgain(m, es, bubbles, n, es2, left);
    NoneMatched(Layout(n, es2, bubbles), left);
    forall id | id in n ensures Revised(n[id], left) == n[id] {
      LayoutHas(n, es2, bubbles, id);
      NoneFor(left, id);
    }
    RevisedIs(n, left, n);
  }

  /** The second load in the form of the first; `left` are the edits that still wait. */
  lemma SecondLoadIs(rules: Rules, m: map<int, Entry>, hist: seq<Entry>, rs: seq<Record>, evs: seq<EventRecord>,
                     counter: nat, bubbles: seq<Entry>, edits: seq<Edit>, left: seq<Edit>)
    requires (forall i | 0 <= i < |evs| :: evs[i].sid > 0) && (forall i | 0 <= i < |hist| && IsEvent(hist[i]) :: hist[i].event.sid > 0)
    requires Proper(m, EventsOf(hist, evs, counter)) && forall j | 0 <= j < |bubbles| :: IsBubble(bubbles[j])
    requires edits == EditsIn(rules, rs) && Merged(rules, m, rs).Keys == m.Keys
    requires forall k | 0 <= k < |edits| :: Has(Layout(m, EventsOf(hist, evs, counter), bubbles), edits[k].target)
    requires forall k | 0 <= k < |left| :: left[k].target > 0 && !Has(Layout(m, EventsOf(hist, evs, counter), bubbles), left[k].target)
    ensures var es := EventsOf(hist, evs, counter);
      Load(rules, Page(Layout(m, es, bubbles), left), rs, evs, counter) == Page(Layout(Revise(Merged(rules, m, rs), edits), es, bubbles), left)
  {
    var es, n := EventsOf(hist, evs, counter), Merged(rules, m, rs);
    var h := Layout(m, es, bubbles);
    var es2 := EventsOf(h, evs, counter);
    PageAgain(m, hist, evs, counter, bubbles, Revise(n, edits));
    PartsAreProper(rules, h, rs, evs, counter);
    EditTargets(rules, rs);
    AgainReady(m, es, bubbles, n, es2, edits, left);
    LoadAgain(rules, h, m, rs, evs, counter, bubbles, edits, left);
    SameLayout(Revise(n, edits), es, es2, bubbles);
  }

  lemma {:induction false} AgainReady(m: map<int, Entry>, es: seq<Entry>, bubbles: seq<Entry>, n: map<int, Entry>, es2: seq<Entry>,
                                      edits: seq<Edit>, left: seq<Edit>)
    requires Proper(m, es) && Proper(n, es2) && m.Keys == n.Keys && forall j | 0 <= j < |bubbles| :: IsBubble(bubbles[j])
    requires forall k | 0 <= k < |edits| :: edits[k].target > 0 && Has(Layout(m, es, bubbles), edits[k].target)
    requires forall k | 0 <= k < |left| :: left[k].target > 0 && !Has(Layout(m, es, bubbles), left[k].target)
    ensures forall k | 0 <= k < |edits| :: Has(Layout(n, es2, bubbles), edits[k].target)
    ensures Unmatched(Layout(n, es2, bubbles), left) == left && Revise(Revise(n, edits), left) == Revise(n, edits)
  {
    TargetsAgain(m, es, bubbles, n, es2, edits);
    StillWaiting(m, es, bubbles, n, es2, left);
    ReviseProper(n, es2, edits);
    StillWaiting(m, es, bubbles, Revise(n, edits), es2, left);
  }

  lemma ReviseProper(m: map<int, Entry>, es: seq<Entry>, edits: seq<Edit>)
    requires Proper(m, es)
    ensures Proper(Revise(m, edits), es) && Revise(m, edits).Keys == m.Keys
  {
  }

  /** A load of a page whose waiting edits find nothing. */
  lemma LoadAgain(rules: Rules, h: seq<Entry>, m: map<int, Entry>, rs: seq<Record>, evs: seq<EventRecord>, counter: nat,
                  bubbles: seq<Entry>, edits: seq<Edit>, left: seq<Edit>)
    requires Existing(h) == m && Bubbles(h) == bubbles && edits == EditsIn(rules, rs) && forall k | 0 <= k < |left| :: left[k].target > 0
    requires var n, es2 := Merged(rules, m, rs), EventsOf(h, evs, counter);
      && (forall k | 0 <= k < |edits| :: Has(Layout(n, es2, bubbles), edits[k].target))
      && Unmatched(Layout(n, es2, bubbles), left) == left && Revise(Revise(n, edits), left) == Revise(n, edits)
    ensures Load(rules, Page(h, left), rs, evs, counter) == Page(Layout(Revise(Merged(rules, m, rs), edits), EventsOf(h, evs, counter), bubbles), left)
  {
    LoadIs(rules, h, left, rs, evs, counter);
  }

  lemma SameLayout(m: map<int, Entry>, a: seq<Entry>, b: seq<Entry>, bubbles: seq<Entry>)
    requires Ordering(m, a) == Ordering(m, b)
    ensures Layout(m, a, bubbles) == Layout(m, b, bubbles)
  {
  }

  lemma LayoutInjective(m: map<int, Entry>, n: map<int, Entry>, es: seq<Entry>, bubbles: seq<Entry>)
    requires Proper(m, es) && Proper(n, es) && forall j | 0 <= j < |bubbles| :: IsBubble(bubbles[j])
    ensures Layout(m, es, bubbles) == Layout(n, es, bubbles) <==> m == n
  {
    ExistingOfLayout(m, es, bubbles);
    ExistingOfLayout(n, es, bubbles);
  }

  lemma RevisedTargets(m: map<int, Entry>, es: seq<Entry>, bubbles: seq<Entry>, edits: seq<Edit>)
    requires Proper(m, es) && (forall j | 0 <= j < |bubbles| :: IsBubble(bubbles[j]))
    requires forall k | 0 <= k < |edits| :: edits[k].target > 0 && Has(Layout(m, es, bubbles), edits[k].target)
    ensures Proper(Revise(m, edits), es)
    ensures forall k | 0 <= k < |edits| :: Has(Layout(Revise(m, edits), es, bubbles), edits[k].target)
  {
    TargetsAgain(m, es, bubbles, Revise(m, edits), es, edits);
  }

  /** The edits that find no message in a load. */
  function Left(rules: Rules, p: Page, rs: seq<Record>, evs: seq<EventRecord>, counter: nat): seq<Edit> {
    Unmatched(MergedHistory(rules, p.hist, rs, evs, counter), p.pending)
  }

  /** The first load, and what the second needs of it. */
  lemma FirstLoadIs(rules: Rules, p: Page, rs: seq<Record>, evs: seq<EventRecord>, counter: nat)
    requires Found(rules, p, rs, evs, counter) && Plain(rules, p.pending)
    ensures var m, edits, es, bubbles := Merged(rules, Existing(p.hist), rs), EditsIn(rules, rs), EventsOf(p.hist, evs, counter), Bubbles(p.hist);
      var m' := Amended(m, edits, p.pending);
      && Load(rules, p, rs, evs, counter) == Page(Layout(m', es, bubbles), Left(rules, p, rs, evs, counter))
      && Proper(m, es) && Proper(m', es) && (forall j | 0 <= j < |bubbles| :: IsBubble(bubbles[j]))
      && (forall k | 0 <= k < |edits| :: edits[k].target > 0 && Has(Layout(m', es, bubbles), edits[k].target))
  {
    PartsAreProper(rules, p.hist, rs, evs, counter);
    BubblesAreBubbles(p.hist);
    EditTargets(rules, rs);
    LoadIs(rules, p.hist, p.pending, rs, evs, counter);
    AmendedTargets(Merged(rules, Existing(p.hist), rs), EventsOf(p.hist, evs, counter), Bubbles(p.hist), EditsIn(rules, rs), p.pending);
  }

  lemma AmendedTargets(m: map<int, Entry>, es: seq<Entry>, bubbles: seq<Entry>, edits: seq<Edit>, waiting: seq<Edit>)
    requires Proper(m, es) && (forall j | 0 <= j < |bubbles| :: IsBubble(bubbles[j]))
    requires forall k | 0 <= k < |edits| :: edits[k].target > 0 && Has(Layout(m, es, bubbles), edits[k].target)
    ensures Proper(Amended(m, edits, waiting), es)
    ensures forall k | 0 <= k < |edits| :: Has(Layout(Amended(m, edits, waiting), es, bubbles), edits[k].target)
  {
    TargetsAgain(m, es, bubbles, Amended(m, edits, waiting), es, edits);
  }

  lemma SameIdsSameHas(a: seq<Entry>, b: seq<Entry>, id: int)
    requires |a| == |b| && forall i | 0 <= i < |a| :: a[i].id == b[i].id
    ensures Has(a, id) <==> Has(b, id)
  {
    if i :| 0 <= i < |a| && a[i].id == id { assert b[i].id == id; }
    if i :| 0 <= i < |b| && b[i].id == id { assert a[i].id == id; }
  }

  /** What is left waiting finds nothing on the page of the first load either. */
  lemma LeftFindsNothing(rules: Rules, p: Page, rs: seq<Record>, evs: seq<EventRecord>, counter: nat)
    requires forall k | 0 <= k < |p.pending| :: p.pending[k].target > 0
    ensures var left := Left(rules, p, rs, evs, counter);
      forall k | 0 <= k < |left| :: left[k].target > 0 && !Has(Load(rules, p, rs, evs, counter).hist, left[k].target)
  {
    var h, left := MergedHistory(rules, p.hist, rs, evs, counter), Left(rules, p, rs, evs, counter);
    UnmatchedTargets(h, p.pending);
    UnmatchedSubset(h, p.pending);
    LoadKeepsLayout(rules, p, rs, evs, counter);
    var f := Load(rules, p, rs, evs, counter).hist;
    forall k | 0 <= k < |left| ensures left[k].target > 0 && !Has(f, left[k].target) {
      assert left[k] in p.pending;
      SameIdsSameHas(f, h, left[k].target);
    }
  }

  lemma SecondLoadKeeps(rules: Rules, m: map<int, Entry>, hist: seq<Entry>, rs: seq<Record>, evs: seq<EventRecord>,
                        counter: nat, bubbles: seq<Entry>, edits: seq<Edit>, left: seq<Edit>)
    requires (forall i | 0 <= i < |evs| :: evs[i].sid > 0) && (forall i | 0 <= i < |hist| && IsEvent(hist[i]) :: hist[i].event.sid > 0)
    requires Proper(m, EventsOf(hist, evs, counter)) && forall j | 0 <= j < |bubbles| :: IsBubble(bubbles[j])
    requires edits == EditsIn(rules, rs) && Merged(rules, m, rs).Keys == m.Keys
    requires forall id | id in m :: Merged(rules, m, rs)[id].id == id
    requires forall k | 0 <= k < |edits| :: Has(Layout(m, EventsOf(hist, evs, counter), bubbles), edits[k].target)
    requires forall k | 0 <= k < |left| :: left[k].target > 0 && !Has(Layout(m, EventsOf(hist, evs, counter), bubbles), left[k].target)
    ensures var once := Page(Layout(m, EventsOf(hist, evs, counter), bubbles), left);
      Load(rules, once, rs, evs, counter) == once <==> Revise(Merged(rules, m, rs), edits) == m
  {
    var es, n := EventsOf(hist, evs, counter), Revise(Merged(rules, m, rs), edits);
    var once := Page(Layout(m, es, bubbles), left);
    SecondLoadIs(rules, m, hist, rs, evs, counter, bubbles, edits, left);
    PagesDiffer(Load(rules, once, rs, evs, counter), once, Layout(n, es, bubbles), Layout(m, es, bubbles), left);
    RevisedIsProper(m, Merged(rules, m, rs), edits, es);
    LayoutInjective(n, m, es, bubbles);
  }

  lemma RevisedIsProper(m: map<int, Entry>, n: map<int, Entry>, edits: seq<Edit>, es: seq<Entry>)
    requires Proper(m, es) && n.Keys == m.Keys && forall id | id in m :: n[id].id == id
    ensures Proper(Revise(n, edits), es)
  {
    forall id | id in Revise(n, edits) ensures id > 0 && Revise(n, edits)[id].id == id {
      assert id in m && Revise(n, edits)[id] == Revised(n[id], edits);
    }
  }

  lemma PagesDiffer(two: Page, once: Page, a: seq<Entry>, b: seq<Entry>, left: seq<Edit>)
    requires two == Page(a, left) && once == Page(b, left)
    ensures two == once <==> a == b
  {
  }

  /** A second load of the same history leaves the page as the first did. */
  ghost predicate SameAgain(rules: Rules, p: Page, rs: seq<Record>, evs: seq<EventRecord>, counter: nat) {
    var once := Load(rules, p, rs, evs, counter);
    Load(rules, once, rs, evs, counter) == once
  }

  lemma {:induction false} UnmatchedConcat(hist: seq<Entry>, a: seq<Edit>, b: seq<Edit>)
    ensures Unmatched(hist, a + b) == Unmatched(hist, a) + Unmatched(hist, b)
  {
    if b == [] {
      assert a + b == a;
    } else {
      assert (a + b)[..|a + b| - 1] == a + b[..|b| - 1];
      UnmatchedConcat(hist, a, b[..|b| - 1]);
    }
  }

  lemma {:induction false} SomeUnmatched(hist: seq<Entry>, edits: seq<Edit>, k: nat)
    requires k < |edits| && !Has(hist, edits[k].target)
    ensures Unmatched(hist, edits) != []
  {
    if k < |edits| - 1 { SomeUnmatched(hist, edits[..|edits| - 1], k); }
  }

  /** The edits that wait after a load: those that waited and those of the history, as far as they find nothing. */
  lemma {:induction false} WaitAfterLoad(rules: Rules, p: Page, rs: seq<Record>, evs: seq<EventRecord>, counter: nat)
    ensures var h, edits := MergedHistory(rules, p.hist, rs, evs, counter), EditsIn(rules, rs);
      Load(rules, p, rs, evs, counter).pending == Unmatched(h, p.pending) + Unmatched(h, edits)
  {
    var h, edits := MergedHistory(rules, p.hist, rs, evs, counter), EditsIn(rules, rs);
    LoadKeepsLayout(rules, p, rs, evs, counter);
    ApplyKeepsIds(h, edits);
    SameIdsSameUnmatched(ApplyAll(h, edits), h, p.pending + Unmatched(h, edits));
    UnmatchedConcat(h, p.pending, Unmatched(h, edits));
    UnmatchedTargets(h, edits);
    NoneMatched(h, Unmatched(h, edits));
  }

  lemma {:induction false} AllEditsPlain(rules: Rules, existing: map<int, Entry>, edits: seq<Edit>, waiting: seq<Edit>, h: seq<Entry>)
    requires NoMarkers(rules, existing, edits) && Plain(rules, waiting)
    ensures Plain(rules, waiting + Unmatched(h, edits))
  {
    UnmatchedSubset(h, edits);
    var u := Unmatched(h, edits);
    forall k | 0 <= k < |u| ensures u[k].target > 0 && !rules.control(u[k].body) && !rules.unavailable(u[k].body) {
      assert u[k] in edits;
    }
  }

  /** Any load in the form of a layout. */
  lemma {:induction false} LoadLaysOut(rules: Rules, p: Page, rs: seq<Record>, evs: seq<EventRecord>, counter: nat)
    requires NoMarkers(rules, Existing(p.hist), EditsIn(rules, rs)) && Plain(rules, p.pending)
    ensures var m, edits, h := Merged(rules, Existing(p.hist), rs), EditsIn(rules, rs), MergedHistory(rules, p.hist, rs, evs, counter);
      && Existing(Load(rules, p, rs, evs, counter).hist) == Amended(m, edits, p.pending + Unmatched(h, edits))
  {
    var m, edits, h := Merged(rules, Existing(p.hist), rs), EditsIn(rules, rs), MergedHistory(rules, p.hist, rs, evs, counter);
    var es, bubbles, all := EventsOf(p.hist, evs, counter), Bubbles(p.hist), p.pending + Unmatched(h, edits);
    AllEditsPlain(rules, Existing(p.hist), edits, p.pending, h);
    PartsAreProper(rules, p.hist, rs, evs, counter);
    BubblesAreBubbles(p.hist);
    LoadKeepsLayout(rules, p, rs, evs, counter);
    LayoutEdited(m, es, bubbles, edits);
    ReviseProper(m, es, edits);
    LayoutEdited(Revise(m, edits), es, bubbles, all);
    ReviseProper(Revise(m, edits), es, all);
    ExistingOfLayout(Amended(m, edits, all), es, bubbles);
  }

  /** Both loads have the same messages, so an edit that finds nothing finds nothing again. */
  lemma {:induction false} FindsTheSame(rules: Rules, p: Page, rs: seq<Record>, evs: seq<EventRecord>, counter: nat, id: int)
    requires NoMarkers(rules, Existing(p.hist), EditsIn(rules, rs)) && Plain(rules, p.pending) && id > 0
    ensures var once := Load(rules, p, rs, evs, counter);
      Has(MergedHistory(rules, once.hist, rs, evs, counter), id) <==> Has(MergedHistory(rules, p.hist, rs, evs, counter), id)
  {
    var once, edits := Load(rules, p, rs, evs, counter), EditsIn(rules, rs);
    var h, m := MergedHistory(rules, p.hist, rs, evs, counter), Merged(rules, Existing(p.hist), rs);
    AllEditsPlain(rules, Existing(p.hist), edits, p.pending, h);
    LoadLaysOut(rules, p, rs, evs, counter);
    MergedTwiceKeys(rules, Existing(p.hist), rs, edits, p.pending + Unmatched(h, edits));
    PartsAreProper(rules, p.hist, rs, evs, counter);
    PartsAreProper(rules, once.hist, rs, evs, counter);
    BubblesAreBubbles(p.hist);
    BubblesAreBubbles(once.hist);
    LayoutHas(m, EventsOf(p.hist, evs, counter), Bubbles(p.hist), id);
    LayoutHas(Merged(rules, Existing(once.hist), rs), EventsOf(once.hist, evs, counter), Bubbles(once.hist), id);
  }

  /** An edit of the history without a message waits once more after every load. */
  lemma {:induction false} UnfoundWaitsAgain(rules: Rules, p: Page, rs: seq<Record>, evs: seq<EventRecord>, counter: nat)
    requires NoMarkers(rules, Existing(p.hist), EditsIn(rules, rs)) && Plain(rules, p.pending) && !Found(rules, p, rs, evs, counter)
    ensures !SameAgain(rules, p, rs, evs, counter)
  {
    var once, edits, h := Load(rules, p, rs, evs, counter), EditsIn(rules, rs), MergedHistory(rules, p.hist, rs, evs, counter);
    var h2 := MergedHistory(rules, once.hist, rs, evs, counter);
    WaitingFindNothing(rules, p, rs, evs, counter);
    NoneMatched(h2, once.pending);
    WaitAfterLoad(rules, once, rs, evs, counter);
    var j :| 0 <= j < |edits| && !Has(h, edits[j].target);
    FindsTheSame(rules, p, rs, evs, counter, edits[j].target);
    SomeUnmatched(h2, edits, j);
    assert |Load(rules, once, rs, evs, counter).pending| > |once.pending|;
  }

  /** The edits that wait after the first load find nothing in the second either. */
  lemma {:induction false} WaitingFindNothing(rules: Rules, p: Page, rs: seq<Record>, evs: seq<EventRecord>, counter: nat)
    requires NoMarkers(rules, Existing(p.hist), EditsIn(rules, rs)) && Plain(rules, p.pending)
    ensures var once := Load(rules, p, rs, evs, counter);
      forall k | 0 <= k < |once.pending| :: !Has(MergedHistory(rules, once.hist, rs, evs, counter), once.pending[k].target)
  {
    var once, edits, h := Load(rules, p, rs, evs, counter), EditsIn(rules, rs), MergedHistory(rules, p.hist, rs, evs, counter);
    WaitAfterLoad(rules, p, rs, evs, counter);
    WaitersUnmatched(h, p.pending, edits, once.pending);
    forall k | 0 <= k < |once.pending| ensures !Has(MergedHistory(rules, once.hist, rs, evs, counter), once.pending[k].target) {
      FindsTheSame(rules, p, rs, evs, counter, once.pending[k].target);
    }
  }

  lemma {:induction false} WaitersUnmatched(h: seq<Entry>, waiting: seq<Edit>, edits: seq<Edit>, all: seq<Edit>)
    requires all == Unmatched(h, waiting) + Unmatched(h, edits)
    requires (forall k | 0 <= k < |waiting| :: waiting[k].target > 0) && forall k | 0 <= k < |edits| :: edits[k].target > 0
    ensures forall k | 0 <= k < |all| :: all[k].target > 0 && !Has(h, all[k].target)
  {
    UnmatchedTargets(h, waiting);
    UnmatchedTargets(h, edits);
    UnmatchedSubset(h, waiting);
    UnmatchedSubset(h, edits);
    forall k | 0 <= k < |all| ensures all[k].target > 0 && !Has(h, all[k].target) {
      if k < |Unmatched(h, waiting)| { assert all[k] in waiting; } else { assert all[k] in edits; }
    }
  }

  /**
   Loading the same history again leaves the page as it is exactly when every edit of
   the history finds its message, no edit has made a hidden, unreadable message readable,
   and no edit that had waited is undone. An edit without a message waits once more after
   each load; an unreadable message with an edited text is shown, for the text counts as
   known before; and an edit that waited is no longer there when the server's text comes
   back. `some` is any id.
   */
  lemma SecondLoadIsIdle(rules: Rules, p: Page, rs: seq<Record>, evs: seq<EventRecord>, counter: nat, some: int)
    requires Steady(rules, p, rs, evs, counter)
    ensures StoreEvents(evs, counter).counter == counter
    ensures SameAgain(rules, p, rs, evs, counter) <==> Found(rules, p, rs, evs, counter) && Agrees(rules, Existing(p.hist), rs, p.pending)
    ensures !Keeps(rules, Existing(p.hist), rs, p.pending, some) ==> !SameAgain(rules, p, rs, evs, counter)
  {
    StoredNumbered(evs, counter);
    SteadyHasNoMarkers(rules, p, rs, evs, counter);
    if Found(rules, p, rs, evs, counter) {
      IdleWhen(rules, p, rs, evs, counter, some);
    } else {
      UnfoundWaitsAgain(rules, p, rs, evs, counter);
    }
  }

  lemma IdleWhen(rules: Rules, p: Page, rs: seq<Record>, evs: seq<EventRecord>, counter: nat, some: int)
    requires (forall i | 0 <= i < |evs| :: evs[i].sid > 0) && (forall i | 0 <= i < |p.hist| && IsEvent(p.hist[i]) :: p.hist[i].event.sid > 0)
    requires NoMarkers(rules, Existing(p.hist), EditsIn(rules, rs)) && Plain(rules, p.pending) && Found(rules, p, rs, evs, counter)
    ensures SameAgain(rules, p, rs, evs, counter) <==> Agrees(rules, Existing(p.hist), rs, p.pending)
    ensures !Keeps(rules, Existing(p.hist), rs, p.pending, some) ==> !SameAgain(rules, p, rs, evs, counter)
  {
    var edits := EditsIn(rules, rs);
    FirstLoadIs(rules, p, rs, evs, counter);
    LeftFindsNothing(rules, p, rs, evs, counter);
    MergedTwice(rules, Existing(p.hist), rs, edits, p.pending);
    IdleIff(rules, p, Amended(Merged(rules, Existing(p.hist), rs), edits, p.pending), rs, evs, counter, edits, Left(rules, p, rs, evs, counter));
  }

  lemma IdleIff(rules: Rules, p: Page, m: map<int, Entry>, rs: seq<Record>, evs: seq<EventRecord>, counter: nat, edits: seq<Edit>, left: seq<Edit>)
    requires (forall i | 0 <= i < |evs| :: evs[i].sid > 0) && (forall i | 0 <= i < |p.hist| && IsEvent(p.hist[i]) :: p.hist[i].event.sid > 0)
    requires Proper(m, EventsOf(p.hist, evs, counter)) && edits == EditsIn(rules, rs) && Merged(rules, m, rs).Keys == m.Keys
    requires forall id | id in m :: Merged(rules, m, rs)[id].id == id
    requires Load(rules, p, rs, evs, counter) == Page(Layout(m, EventsOf(p.hist, evs, counter), Bubbles(p.hist)), left)
    requires forall k | 0 <= k < |edits| :: Has(Load(rules, p, rs, evs, counter).hist, edits[k].target)
    requires forall k | 0 <= k < |left| :: left[k].target > 0 && !Has(Load(rules, p, rs, evs, counter).hist, left[k].target)
    ensures SameAgain(rules, p, rs, evs, counter) <==> Revise(Merged(rules, m, rs), edits) == m
  {
    BubblesAreBubbles(p.hist);
    SecondLoadKeeps(rules, m, p.hist, rs, evs, counter, Bubbles(p.hist), edits, left);
  }

  /** A hidden placeholder and a readable edit of it, as the server may return them. */
  function HiddenThenEdited(placeholder: string, text: string): seq<Record> {
    [Record(5, 1, placeholder, "", false, false, true, "", 0), Record(6, 1, text, "", false, false, false, "", 5)]
  }

  lemma TwoRecords(rules: Rules, placeholder: string, text: string)
    requires rules.unavailable(placeholder) && !rules.control(placeholder) && !rules.unavailable(text) && !rules.control(text)
    ensures var rs, e := HiddenThenEdited(placeholder, text), Entry(5, 1, placeholder, "", false, false, true, "", NoEvent);
      Incoming(rules, map[], rs) == map[5 := e] && EditsIn(rules, rs) == [Edit(5, text, 1, "")]
  {
    var rs := HiddenThenEdited(placeholder, text);
    assert rs[..1] == [rs[0]] && rs[..1][..0] == [];
    assert Incoming(rules, map[], rs[..1][..0]) == map[] && EditsIn(rules, rs[..1][..0]) == [];
    assert EditsIn(rules, rs[..1]) == [];
  }

  lemma ExampleIsSteady(rules: Rules, p: Page, rs: seq<Record>, evs: seq<EventRecord>, counter: nat, e: Entry, edit: Edit)
    requires p.hist == [] && p.pending == [] && evs == []
    requires Incoming(rules, map[], rs) == map[5 := e] && e.id == 5 && !rules.control(e.body)
    requires EditsIn(rules, rs) == [edit] && edit.target == 5 && !rules.control(edit.body)
    ensures Steady(rules, p, rs, evs, counter) && Found(rules, p, rs, evs, counter)
  {
    ExampleIsFound(rules, p, rs, evs, counter, e, edit);
  }

  lemma ExampleIsFound(rules: Rules, p: Page, rs: seq<Record>, evs: seq<EventRecord>, counter: nat, e: Entry, edit: Edit)
    requires p.hist == [] && Incoming(rules, map[], rs) == map[5 := e] && e.id == 5 && !rules.control(e.body)
    requires EditsIn(rules, rs) == [edit] && edit.target == 5
    ensures Found(rules, p, rs, evs, counter)
  {
    MergesOne(rules, rs, e);
    OnePresent(rules, p, rs, evs, counter, 5);
  }

  lemma MergesOne(rules: Rules, rs: seq<Record>, e: Entry)
    requires Incoming(rules, map[], rs) == map[5 := e] && !rules.control(e.body)
    ensures 5 in Merged(rules, Existing([]), rs)
  {
  }

  /** A message of the merge is in the merged history. */
  lemma OnePresent(rules: Rules, p: Page, rs: seq<Record>, evs: seq<EventRecord>, counter: nat, id: int)
    requires id in Merged(rules, Existing(p.hist), rs)
    ensures Has(MergedHistory(rules, p.hist, rs, evs, counter), id)
  {
    PartsAreProper(rules, p.hist, rs, evs, counter);
    BubblesAreBubbles(p.hist);
    LayoutHas(Merged(rules, Existing(p.hist), rs), EventsOf(p.hist, evs, counter), Bubbles(p.hist), id);
  }

  /** The first exception does occur: on an empty page the second load of these two records shows what the first hid. */
  lemma EditUnhides(rules: Rules, placeholder: string, text: string)
    requires rules.unavailable(placeholder) && !rules.control(placeholder) && !rules.unavailable(text) && !rules.control(text)
    ensures var p, rs := Page([], []), HiddenThenEdited(placeholder, text);
      && Steady(rules, p, rs, [], 0) && Found(rules, p, rs, [], 0) && Unhides(rules, map[], rs, [], 5)
      && !SameAgain(rules, p, rs, [], 0)
  {
    var rs := HiddenThenEdited(placeholder, text);
    TwoRecords(rules, placeholder, text);
    ExampleChanges(rules, rs, Entry(5, 1, placeholder, "", false, false, true, "", NoEvent), Edit(5, text, 1, ""));
  }

  lemma ExampleChanges(rules: Rules, rs: seq<Record>, e: Entry, edit: Edit)
    requires Incoming(rules, map[], rs) == map[5 := e] && e.id == 5 && !rules.control(e.body) && e.hidden && rules.unavailable(e.body)
    requires EditsIn(rules, rs) == [edit] && edit.target == 5 && !rules.control(edit.body)
    ensures Steady(rules, Page([], []), rs, [], 0) && Found(rules, Page([], []), rs, [], 0) && Unhides(rules, map[], rs, [], 5)
    ensures !SameAgain(rules, Page([], []), rs, [], 0)
  {
    ExampleIsSteady(rules, Page([], []), rs, [], 0, e, edit);
    ExampleUnhides(rules, rs, e, edit);
    assert Existing(Page([], []).hist) == map[];
    SecondLoadIsIdle(rules, Page([], []), rs, [], 0, 5);
  }

  lemma ExampleUnhides(rules: Rules, rs: seq<Record>, e: Entry, edit: Edit)
    requires Incoming(rules, map[], rs) == map[5 := e] && e.hidden && rules.unavailable(e.body)
    requires EditsIn(rules, rs) == [edit] && edit.target == 5
    ensures Unhides(rules, map[], rs, [], 5)
  {
    assert LastFor([edit], 5) == 0;
  }

  /** A message as the server sends it, while an edit of it waits. */
  function OneRecord(text: string): seq<Record> {
    [Record(5, 1, text, "", false, false, false, "", 0)]
  }

  function OneWaits(text: string): Page {
    Page([], [Edit(5, text, 1, "")])
  }

  lemma OneRecordParts(rules: Rules, text: string)
    requires !rules.control(text)
    ensures var rs := OneRecord(text);
      Incoming(rules, map[], rs) == map[5 := Entry(5, 1, text, "", false, false, false, "", NoEvent)] && EditsIn(rules, rs) == []
      && LastOriginal(rules, rs, 5) == 0
  {
    assert OneRecord(text)[..0] == [];
  }

  /** The other exception does occur: a waiting edit finds its message, and the second load undoes it. */
  lemma WaitingEditIsUndone(rules: Rules, sent: string, text: string)
    requires !rules.unavailable(sent) && !rules.control(sent) && !rules.unavailable(text) && !rules.control(text) && sent != text
    ensures var p, rs := OneWaits(text), OneRecord(sent);
      && Steady(rules, p, rs, [], 0) && Found(rules, p, rs, [], 0) && Undoes(rules, map[], rs, p.pending, 5) && (forall id :: !Unhides(rules, map[], rs, p.pending, id))
      && !SameAgain(rules, p, rs, [], 0)
  {
    OneRecordParts(rules, sent);
    WaitingIsUndone(rules, OneRecord(sent), OneWaits(text), sent, text);
  }

  lemma WaitingIsUndone(rules: Rules, rs: seq<Record>, p: Page, sent: string, text: string)
    requires !rules.unavailable(sent) && !rules.unavailable(text) && !rules.control(text) && sent != text
    requires Incoming(rules, map[], rs) == map[5 := Entry(5, 1, sent, "", false, false, false, "", NoEvent)] && EditsIn(rules, rs) == []
    requires LastOriginal(rules, rs, 5) == 0 && rs[0].body == sent && p.hist == [] && p.pending == [Edit(5, text, 1, "")]
    ensures Steady(rules, p, rs, [], 0) && Found(rules, p, rs, [], 0) && Undoes(rules, map[], rs, p.pending, 5) && (forall id :: !Unhides(rules, map[], rs, p.pending, id))
    ensures !SameAgain(rules, p, rs, [], 0)
  {
    assert LastFor(p.pending, 5) == 0;
    assert Existing(p.hist) == map[];
    SecondLoadIsIdle(rules, p, rs, [], 0, 5);
  }
}
