/** `ChatPage`: the entries of one conversation, as its methods change them. */
module ChatPageObject {
  import opened Wrappers
  import opened Edits
  import opened PendingEdits
  import opened Timeline

  class ChatPage {
    const rules: Rules
    var hist: seq<Entry>
    var pending: seq<Edit>
    /** `_system_event_keys` and `_failed_send_counter`. */
    var seen: set<EventKey>
    var counter: nat

    function View(): Page reads this { Page(hist, pending) }

    constructor (rules: Rules)
      ensures View() == Page([], []) && seen == {} && counter == 0 && this.rules == rules
    {
      this.rules, hist, pending, seen, counter := rules, [], [], {}, 0;
    }

    /** `update_message`, as both kinds of edit call it. */
    method UpdateMessage(id: int, body: string) returns (updated: bool)
      modifies this`hist
      ensures updated <==> old(Has(hist, id))
      ensures hist == old(Update(hist, id, body)) && (!updated ==> hist == old(hist))
    {
      if !Has(hist, id) { UpdateAbsent(hist, id, body); }
      for i := 0 to |hist|
        invariant hist == old(hist) && forall j | 0 <= j < i :: hist[j].id != id
      {
        if hist[i].id == id {
          UpdateAt(hist, id, body, i);
          hist := hist[i := Edited(hist[i], body)];
          return true;
        }
      }
      updated := false;
    }

    /** `apply_edit_event`. */
    method ApplyEditEvent(e: Edit)
      modifies this`hist, this`pending
      ensures View() == Amend(old(View()), e)
    {
      var updated := UpdateMessage(e.target, e.body);
      if !updated { pending := pending + [e]; }
    }

    /** `_apply_pending_edit_events`. */
    method ApplyPending()
      modifies this`hist, this`pending
      ensures View() == Settle(old(View()))
    {
      var remaining: seq<Edit> := [];
      for i := 0 to |pending|
        invariant pending == old(pending)
        invariant hist == ApplyAll(old(hist), pending[..i]) && remaining == Unmatched(old(hist), pending[..i])
      {
        assert pending[..i + 1][..i] == pending[..i];
        ApplyKeepsIds(old(hist), pending[..i]);
        var updated := UpdateMessage(pending[i].target, pending[i].body);
        if !updated { remaining := remaining + [pending[i]]; }
      }
      assert pending[..|pending|] == pending;
      pending := remaining;
    }

    /** `add_msg`. */
    method AddMsg(e: Entry)
      modifies this`hist, this`pending
      ensures View() == Arrive(old(View()), e)
    {
      hist := hist + [e];
      ApplyPending();
    }

    /** `add_system_event`: an event whose key was seen is not added again. */
    method AddSystemEvent(text: string, ts: string, name: Option<string>, sid: int, after: Option<int>)
      modifies this`hist, this`seen, this`counter
      ensures pending == old(pending)
      ensures text == "" || KnownKey(old(seen), KeysFor(sid, name)) ==> hist == old(hist) && seen == old(seen) && counter == old(counter)
      ensures text != "" && !KnownKey(old(seen), KeysFor(sid, name)) ==>
        && seen == old(seen) + KeySet(KeysFor(sid, name)) && counter == old(counter) + 1
        && hist == old(hist) + [LocalEvent(text, ts, KeysFor(sid, name), sid, if after.Some? then after.value else VisibleMax(old(hist)), counter)]
    {
      var ks := KeysFor(sid, name);
      if text == "" || KnownKey(seen, ks) { return; }
      seen := seen + KeySet(ks);
      counter := counter + 1;
      var at := if after.Some? then after.value else VisibleMax(hist);
      hist := hist + [LocalEvent(text, ts, ks, sid, at, counter)];
    }

    /** The loop over the server's events. */
    method TakeEvents(evs: seq<EventRecord>) returns (s: Stored)
      modifies this`seen, this`counter
      ensures s == StoreEvents(evs, old(counter)) && counter == s.counter && seen == old(seen) + s.keys
    {
      s := Stored([], {}, counter);
      for i := 0 to |evs|
        invariant s == StoreEvents(evs[..i], old(counter)) && counter == s.counter && seen == old(seen) + s.keys
      {
        assert evs[..i + 1][..i] == evs[..i];
        CounterGrows(s, evs[i]);
        s := StoreEvent(s, evs[i]);
        counter := s.counter;
        seen := seen + s.keys;
      }
      assert evs[..|evs|] == evs;
    }

    /** `load_history` up to the edits it returns. */
    method Rebuild(rs: seq<Record>, evs: seq<EventRecord>) returns (edits: seq<Edit>)
      modifies this`hist, this`seen, this`counter
      ensures hist == MergedHistory(rules, old(hist), rs, evs, old(counter)) && edits == EditsIn(rules, rs)
      ensures counter == StoreEvents(evs, old(counter)).counter
      ensures seen == old(seen) + StoreEvents(evs, old(counter)).keys
                      + AllKeys(KeepLocal(LocalEvents(old(hist)), StoreEvents(evs, old(counter)).keys))
    {
      var local, bubbles, existing := SortOut(hist);
      var incoming;
      incoming, edits := Receive(rules, existing, rs);
      var all := existing + incoming;
      var shown := map id | id in all && id > 0 && Shows(rules, all[id]) :: all[id];
      var stored := TakeEvents(evs);
      var kept := KeepUnknown(local, stored.keys);
      seen := seen + AllKeys(kept);
      hist := Layout(shown, stored.entries + kept, bubbles);
    }

    /** The edits of the server's history, one by one. */
    method AmendEach(edits: seq<Edit>)
      modifies this`hist, this`pending
      ensures View() == AmendAll(old(View()), edits)
    {
      for i := 0 to |edits|
        invariant View() == AmendAll(old(View()), edits[..i])
      {
        assert edits[..i + 1][..i] == edits[..i];
        ApplyEditEvent(edits[i]);
      }
      assert edits[..|edits|] == edits;
    }

    /** The end of `load_history`: its edits, then those that waited. */
    method SettleWith(edits: seq<Edit>)
      modifies this`hist, this`pending
      ensures View() == Settle(AmendAll(old(View()), edits))
    {
      AmendEach(edits);
      ApplyPending();
    }

    /** `load_history`. */
    method LoadHistory(rs: seq<Record>, evs: seq<EventRecord>)
      modifies this
      ensures View() == Load(rules, old(View()), rs, evs, old(counter))
      ensures counter == StoreEvents(evs, old(counter)).counter
      ensures seen == old(seen) + StoreEvents(evs, old(counter)).keys
                      + AllKeys(KeepLocal(LocalEvents(old(hist)), StoreEvents(evs, old(counter)).keys))
    {
      var edits := Rebuild(rs, evs);
      assert View() == old(View()).(hist := hist);
      SettleWith(edits);
    }
  }

  function AllKeys(es: seq<Entry>): set<EventKey> {
    set i, k | 0 <= i < |es| && es[i].event.Event? && k in es[i].event.keys :: k
  }

  /** `max` of the positive ids that are neither deleted nor hidden, 0 when there is none. */
  function VisibleMax(hist: seq<Entry>): (m: int)
    ensures m >= 0 && (forall e | e in hist && e.id > 0 && !e.deleted && !e.hidden :: e.id <= m)
    ensures m == 0 || exists e :: e in hist && e.id == m && !e.deleted && !e.hidden
  {
    if hist == [] then 0
    else
      var m, e := VisibleMax(hist[..|hist| - 1]), hist[|hist| - 1];
      assert hist == hist[..|hist| - 1] + [e];
      if e.id > m && !e.deleted && !e.hidden then e.id else m
  }

  function LocalEvent(text: string, ts: string, ks: seq<EventKey>, sid: int, after: int, counter: int): Entry {
    Entry(if sid > 0 then -(EVENT_IDS + sid) else -counter, 0, text, ts, false, false, false, "", Event(sid, ks, after, false))
  }

  lemma CounterGrows(s: Stored, ev: EventRecord)
    ensures StoreEvent(s, ev).counter >= s.counter && s.keys <= StoreEvent(s, ev).keys
  {
  }

  /** First loop of `load_history`: events, bubbles and messages by id. */
  method SortOut(hist: seq<Entry>) returns (local: seq<Entry>, bubbles: seq<Entry>, existing: map<int, Entry>)
    ensures local == LocalEvents(hist) && bubbles == Bubbles(hist) && existing == Existing(hist)
  {
    local, bubbles, existing := [], [], map[];
    var previous := 0;
    for i := 0 to |hist|
      invariant local == LocalEvents(hist[..i]) && bubbles == Bubbles(hist[..i]) && existing == Existing(hist[..i])
      invariant previous == LastId(hist[..i])
    {
      assert hist[..i + 1][..i] == hist[..i];
      var e := hist[i];
      if e.id > 0 {
        previous := e.id;
        existing := existing[e.id := e];
      } else if e.event.Event? {
        local := local + [Anchored(e, previous)];
      } else {
        bubbles := bubbles + [e];
      }
    }
    assert hist[..|hist|] == hist;
  }

  /** The loop over the server's messages. */
  method Receive(rules: Rules, existing: map<int, Entry>, rs: seq<Record>) returns (incoming: map<int, Entry>, edits: seq<Edit>)
    ensures incoming == Incoming(rules, existing, rs) && edits == EditsIn(rules, rs)
  {
    incoming, edits := map[], [];
    for i := 0 to |rs|
      invariant incoming == Incoming(rules, existing, rs[..i]) && edits == EditsIn(rules, rs[..i])
    {
      assert rs[..i + 1][..i] == rs[..i];
      var r := rs[i];
      if !Skipped(rules, r) {
        if r.editTarget > 0 {
          if !rules.unavailable(r.body) { edits := edits + [Edit(r.editTarget, r.body, r.sender, r.ts)]; }
        } else if r.id > 0 {
          incoming := incoming[r.id := FromRecord(rules, existing, r)];
        }
      }
    }
    assert rs[..|rs|] == rs;
  }

  /** The loop over local events. */
  method KeepUnknown(local: seq<Entry>, keys: set<EventKey>) returns (kept: seq<Entry>)
    ensures kept == KeepLocal(local, keys)
  {
    kept := [];
    for i := 0 to |local|
      invariant kept == KeepLocal(local[..i], keys)
    {
      assert local[..i + 1][..i] == local[..i];
      if !(local[i].event.Event? && KnownKey(keys, local[i].event.keys)) { kept := kept + [local[i]]; }
    }
    assert local[..|local|] == local;
  }
}
