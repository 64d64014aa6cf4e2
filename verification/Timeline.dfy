/**
 `load_history`: the server's messages and events merged into what a conversation
 already shows, as functions of the page before.
 */
module Timeline {
  import opened Wrappers
  import opened Ascending
  import opened Edits
  import opened PendingEdits
  import opened StableSort

  /** How message texts are told apart: placeholders of messages that could not be read, and protocol markers. */
  datatype Rules = Rules(unavailable: string -> bool, control: string -> bool)

  /** A message as the server returns it; a positive `editTarget` makes it an edit. */
  datatype Record = Record(id: int, sender: int, body: string, ts: string, edited: bool, deleted: bool, hidden: bool,
                           extra: string, editTarget: int)

  datatype EventRecord = EventRecord(text: string, sid: int, after: int, ts: string, name: Option<string>)

  const MADE_UP := 100_000_000
  const EVENT_IDS := 1_000_000_000

  // ---- what the page has -----------------------------------------------

  predicate IsMessage(e: Entry) { e.id > 0 }

  predicate IsEvent(e: Entry) { e.id <= 0 && e.event.Event? }

  predicate IsBubble(e: Entry) { e.id <= 0 && e.event.NoEvent? }

  /** The last positive id, 0 if there is none: the fallback anchor. */
  function LastId(hist: seq<Entry>): nat {
    if hist == [] then 0
    else if hist[|hist| - 1].id > 0 then hist[|hist| - 1].id
    else LastId(hist[..|hist| - 1])
  }

  /** `_system_event_anchor_from_entry`. */
  function Anchor(e: Entry, fallback: int): int {
    if e.event.Event? && e.event.after > 0 then e.event.after else fallback
  }

  /** `_system_event_keys_for`. */
  function KeysFor(sid: int, name: Option<string>): seq<EventKey> {
    (if sid > 0 then [SystemId(sid)] else []) + (if name.Some? then [NamedKey(name.value)] else [])
  }

  /** A local event with its anchor fixed and its keys filled in. */
  function Anchored(e: Entry, fallback: int): Entry
    requires e.event.Event?
  {
    e.(event := e.event.(after := Anchor(e, fallback),
                         keys := if e.event.keys == [] then KeysFor(e.event.sid, None) else e.event.keys))
  }

  function LocalEvents(hist: seq<Entry>): seq<Entry> {
    if hist == [] then []
    else
      var n := |hist| - 1;
      LocalEvents(hist[..n]) + (if IsEvent(hist[n]) then [Anchored(hist[n], LastId(hist[..n]))] else [])
  }

  function Bubbles(hist: seq<Entry>): seq<Entry> {
    if hist == [] then []
    else Bubbles(hist[..|hist| - 1]) + (if IsBubble(hist[|hist| - 1]) then [hist[|hist| - 1]] else [])
  }

  function Existing(hist: seq<Entry>): map<int, Entry> {
    if hist == [] then map[]
    else
      var e := hist[|hist| - 1];
      if IsMessage(e) then Existing(hist[..|hist| - 1])[e.id := e] else Existing(hist[..|hist| - 1])
  }

  // ---- what the server sends -------------------------------------------

  predicate Skipped(rules: Rules, r: Record) { rules.control(r.body) && !r.deleted }

  predicate IsOriginal(rules: Rules, r: Record) { !Skipped(rules, r) && r.editTarget <= 0 && r.id > 0 }

  /** A readable text known before is kept when the server's copy could not be read. */
  function FromRecord(rules: Rules, existing: map<int, Entry>, r: Record): Entry {
    var e := Entry(r.id, r.sender, r.body, r.ts, r.edited, r.deleted, r.hidden, r.extra, NoEvent);
    if r.id in existing && rules.unavailable(r.body) && !rules.unavailable(existing[r.id].body)
    then e.(body := existing[r.id].body, edited := r.edited || existing[r.id].edited, hidden := false)
    else e
  }

  function Incoming(rules: Rules, existing: map<int, Entry>, rs: seq<Record>): map<int, Entry> {
    if rs == [] then map[]
    else
      var r := rs[|rs| - 1];
      var m := Incoming(rules, existing, rs[..|rs| - 1]);
      if IsOriginal(rules, r) then m[r.id := FromRecord(rules, existing, r)] else m
  }

  function EditsIn(rules: Rules, rs: seq<Record>): seq<Edit> {
    if rs == [] then []
    else
      var r := rs[|rs| - 1];
      EditsIn(rules, rs[..|rs| - 1])
      + (if !Skipped(rules, r) && r.editTarget > 0 && !rules.unavailable(r.body) then [Edit(r.editTarget, r.body, r.sender, r.ts)] else [])
  }

  /** An entry that is not a protocol marker, or was one and is deleted. */
  predicate Shows(rules: Rules, e: Entry) { !rules.control(e.body) || e.deleted }

  /** The messages of the new timeline, by id. */
  function Merged(rules: Rules, existing: map<int, Entry>, rs: seq<Record>): map<int, Entry> {
    var all := existing + Incoming(rules, existing, rs);
    map id | id in all && id > 0 && Shows(rules, all[id]) :: all[id]
  }

  // ---- events ----------------------------------------------------------

  /** Server events taken so far, every key they have, and the counter for made-up ids. */
  datatype Stored = Stored(entries: seq<Entry>, keys: set<EventKey>, counter: int)

  predicate KnownKey(keys: set<EventKey>, ks: seq<EventKey>) { exists k :: k in ks && k in keys }

  function KeySet(ks: seq<EventKey>): set<EventKey> { set k | k in ks }

  function StoreEvent(s: Stored, ev: EventRecord): Stored {
    var ks := KeysFor(ev.sid, ev.name);
    if ev.text == "" || KnownKey(s.keys, ks) then s
    else
      var counter := if ev.sid > 0 then s.counter else s.counter + 1;
      var id := if ev.sid > 0 then -(EVENT_IDS + ev.sid) else -counter;
      Stored(s.entries + [Entry(id, 0, ev.text, ev.ts, false, false, false, "", Event(ev.sid, ks, ev.after, true))],
             s.keys + KeySet(ks), counter)
  }

  function StoreEvents(evs: seq<EventRecord>, counter: int): Stored {
    if evs == [] then Stored([], {}, counter) else StoreEvent(StoreEvents(evs[..|evs| - 1], counter), evs[|evs| - 1])
  }

  /** Local events the server does not have. */
  function KeepLocal(local: seq<Entry>, keys: set<EventKey>): seq<Entry> {
    if local == [] then []
    else
      var e := local[|local| - 1];
      KeepLocal(local[..|local| - 1], keys) + (if e.event.Event? && KnownKey(keys, e.event.keys) then [] else [e])
  }

  // ---- the timeline ----------------------------------------------------

  function MessageKey(id: int): Key { Key(id, 0, id) }

  function EventKeyAt(e: Entry, i: int): Key {
    Key(Anchor(e, 0), 1, if e.event.Event? && e.event.sid > 0 then e.event.sid else MADE_UP + i)
  }

  function MessageItems(m: map<int, Entry>): (items: seq<Item>)
    ensures |items| == |Sorted(m.Keys)|
    ensures forall i | 0 <= i < |items| :: Sorted(m.Keys)[i] in m && items[i] == Item(MessageKey(Sorted(m.Keys)[i]), m[Sorted(m.Keys)[i]])
  {
    var ids := Sorted(m.Keys);
    seq(|ids|, i requires 0 <= i < |ids| => Item(MessageKey(ids[i]), m[ids[i]]))
  }

  function EventItems(es: seq<Entry>): (items: seq<Item>) {
    seq(|es|, i requires 0 <= i < |es| => Item(EventKeyAt(es[i], i), es[i]))
  }

  function EntriesOf(items: seq<Item>): seq<Entry> {
    seq(|items|, i requires 0 <= i < |items| => items[i].entry)
  }

  function Ordering(m: map<int, Entry>, es: seq<Entry>): seq<Item> {
    Sort(MessageItems(m) + EventItems(es))
  }

  /** Messages and events in order, then the client's own bubbles. */
  function Layout(m: map<int, Entry>, es: seq<Entry>, bubbles: seq<Entry>): seq<Entry> {
    EntriesOf(Ordering(m, es)) + bubbles
  }

  function EventsOf(hist: seq<Entry>, evs: seq<EventRecord>, counter: int): seq<Entry> {
    var s := StoreEvents(evs, counter);
    s.entries + KeepLocal(LocalEvents(hist), s.keys)
  }

  /** The timeline before the edits. */
  function MergedHistory(rules: Rules, hist: seq<Entry>, rs: seq<Record>, evs: seq<EventRecord>, counter: int): seq<Entry> {
    Layout(Merged(rules, Existing(hist), rs), EventsOf(hist, evs, counter), Bubbles(hist))
  }

  /** Edits made one after the other; those without a message wait. */
  function AmendAll(p: Page, edits: seq<Edit>): Page {
    if edits == [] then p else Amend(AmendAll(p, edits[..|edits| - 1]), edits[|edits| - 1])
  }

  /** `load_history`. */
  function Load(rules: Rules, p: Page, rs: seq<Record>, evs: seq<EventRecord>, counter: int): Page {
    Settle(AmendAll(p.(hist := MergedHistory(rules, p.hist, rs, evs, counter)), EditsIn(rules, rs)))
  }
}
