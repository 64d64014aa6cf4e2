/**
 One conversation's entries and the edits made to them. An edit that comes before
 its message waits in a list, which every arrival goes through again.
 */
module Edits {

  /** A message of the server (positive id), or one of the client's own making: a bubble or a system event. */
  datatype Entry = Entry(id: int, sender: int, body: string, ts: string, edited: bool, deleted: bool, hidden: bool,
                         extra: string, event: Event)

  /** What only system events have; `after` is the id of the message the event follows. */
  datatype Event = NoEvent | Event(sid: int, keys: seq<EventKey>, after: int, persisted: bool)

  datatype EventKey = SystemId(sid: int) | NamedKey(name: string)

  datatype Edit = Edit(target: int, body: string, sender: int, ts: string)

  // ---- one edit --------------------------------------------------------

  predicate Has(hist: seq<Entry>, id: int) {
    exists i :: 0 <= i < |hist| && hist[i].id == id
  }

  function Edited(e: Entry, body: string): Entry {
    e.(body := body, edited := true, deleted := false)
  }

  /** The first entry with the id takes the new body. */
  function Update(hist: seq<Entry>, id: int, body: string): (r: seq<Entry>)
    ensures |r| == |hist|
  {
    if hist == [] then []
    else if hist[0].id == id then [Edited(hist[0], body)] + hist[1..]
    else [hist[0]] + Update(hist[1..], id, body)
  }

  lemma {:induction false} UpdateAt(hist: seq<Entry>, id: int, body: string, k: nat)
    requires k < |hist| && hist[k].id == id && forall i | 0 <= i < k :: hist[i].id != id
    ensures Update(hist, id, body) == hist[k := Edited(hist[k], body)]
  {
    if k > 0 {
      UpdateAt(hist[1..], id, body, k - 1);
      assert hist == [hist[0]] + hist[1..];
    }
  }

  lemma {:induction false} UpdateAbsent(hist: seq<Entry>, id: int, body: string)
    requires !Has(hist, id)
    ensures Update(hist, id, body) == hist
  {
    if hist != [] {
      assert forall i | 0 <= i < |hist[1..]| :: hist[1..][i] == hist[i + 1];
      UpdateAbsent(hist[1..], id, body);
    }
  }

  /** Only the body and two flags of entries with that id can change. */
  lemma {:induction false} UpdateElsewhere(hist: seq<Entry>, id: int, body: string)
    ensures forall i | 0 <= i < |hist| :: var e := Update(hist, id, body)[i];
      e == hist[i] || (hist[i].id == id && e == Edited(hist[i], body))
  {
    if hist != [] && hist[0].id != id {
      UpdateElsewhere(hist[1..], id, body);
    }
  }

  /** The list of edits that find no message. */
  function Unmatched(hist: seq<Entry>, edits: seq<Edit>): seq<Edit> {
    if edits == [] then []
    else Unmatched(hist, edits[..|edits| - 1]) + (if Has(hist, edits[|edits| - 1].target) then [] else [edits[|edits| - 1]])
  }

  /** Edits made in order. */
  function ApplyAll(hist: seq<Entry>, edits: seq<Edit>): (r: seq<Entry>)
    ensures |r| == |hist|
  {
    if edits == [] then hist
    else
      var e := edits[|edits| - 1];
      Update(ApplyAll(hist, edits[..|edits| - 1]), e.target, e.body)
  }

  lemma {:induction false} ApplyKeepsIds(hist: seq<Entry>, edits: seq<Edit>)
    ensures forall i | 0 <= i < |hist| :: var e := ApplyAll(hist, edits)[i];
      e == hist[i].(body := e.body, edited := e.edited, deleted := e.deleted)
    ensures forall id :: Has(ApplyAll(hist, edits), id) <==> Has(hist, id)
  {
    if edits != [] {
      var e := edits[|edits| - 1];
      ApplyKeepsIds(hist, edits[..|edits| - 1]);
      UpdateElsewhere(ApplyAll(hist, edits[..|edits| - 1]), e.target, e.body);
    }
    var r := ApplyAll(hist, edits);
    forall id ensures Has(r, id) <==> Has(hist, id) {
      if i :| 0 <= i < |hist| && hist[i].id == id { assert r[i].id == id; }
      if i :| 0 <= i < |r| && r[i].id == id { assert hist[i].id == id; }
    }
  }

  /** The last edit of a message, by position in the list. */
  function LastFor(edits: seq<Edit>, id: int): (k: int)
    ensures -1 <= k < |edits|
    ensures k >= 0 ==> edits[k].target == id
    ensures forall j | k < j < |edits| :: edits[j].target != id
  {
    if edits == [] then -1
    else if edits[|edits| - 1].target == id then |edits| - 1
    else LastFor(edits[..|edits| - 1], id)
  }

  /** A message whose id is there once ends with the body of its last edit. */
  lemma {:induction false} LastEditCounts(hist: seq<Entry>, edits: seq<Edit>, i: nat)
    requires i < |hist| && forall j | 0 <= j < |hist| && j != i :: hist[j].id != hist[i].id
    ensures var k := LastFor(edits, hist[i].id);
      ApplyAll(hist, edits)[i] == if k < 0 then hist[i] else Edited(hist[i], edits[k].body)
  {
    if edits != [] {
      var n := |edits| - 1;
      var before := ApplyAll(hist, edits[..n]);
      LastEditCounts(hist, edits[..n], i);
      ApplyKeepsIds(hist, edits[..n]);
      if edits[n].target == hist[i].id {
        UpdateAt(before, edits[n].target, edits[n].body, i);
      } else {
        UpdateElsewhere(before, edits[n].target, edits[n].body);
      }
    }
  }
}
