/**
 Edits commute with arrival: however messages and edits of one conversation are
 interleaved, the page ends as if every message had come before every edit.
 */
module PendingEdits {
  import opened Edits

  /** `hist` and `_pending_edit_events` of one conversation. */
  datatype Page = Page(hist: seq<Entry>, pending: seq<Edit>)

  /** `_apply_pending_edit_events`. */
  function Settle(p: Page): Page {
    Page(ApplyAll(p.hist, p.pending), Unmatched(p.hist, p.pending))
  }

  /** `add_msg`. */
  function Arrive(p: Page, e: Entry): Page {
    Settle(p.(hist := p.hist + [e]))
  }

  /** `apply_edit_event`. */
  function Amend(p: Page, e: Edit): Page {
    if Has(p.hist, e.target) then p.(hist := Update(p.hist, e.target, e.body)) else p.(pending := p.pending + [e])
  }

  // ---- any interleaving ------------------------------------------------

  datatype Happening = Arrives(e: Entry) | Amends(edit: Edit)

  function After(hs: seq<Happening>): Page {
    if hs == [] then Page([], [])
    else
      var p := After(hs[..|hs| - 1]);
      match hs[|hs| - 1]
      case Arrives(e) => Arrive(p, e)
      case Amends(edit) => Amend(p, edit)
  }

  function Arrivals(hs: seq<Happening>): seq<Entry> {
    if hs == [] then []
    else Arrivals(hs[..|hs| - 1]) + (if hs[|hs| - 1].Arrives? then [hs[|hs| - 1].e] else [])
  }

  function Amendments(hs: seq<Happening>): seq<Edit> {
    if hs == [] then []
    else Amendments(hs[..|hs| - 1]) + (if hs[|hs| - 1].Amends? then [hs[|hs| - 1].edit] else [])
  }

  predicate Distinct(hist: seq<Entry>) {
    forall i, j | 0 <= i < j < |hist| :: hist[i].id != hist[j].id
  }

  lemma {:induction false} UnmatchedTargets(hist: seq<Entry>, edits: seq<Edit>)
    ensures forall k | 0 <= k < |Unmatched(hist, edits)| :: !Has(hist, Unmatched(hist, edits)[k].target)
  {
    if edits != [] { UnmatchedTargets(hist, edits[..|edits| - 1]); }
  }

  /** An edit of an absent message stays in the list, in its place among those of that message. */
  lemma {:induction false} UnmatchedLast(hist: seq<Entry>, edits: seq<Edit>, id: int)
    requires !Has(hist, id)
    ensures var u := Unmatched(hist, edits); var k, l := LastFor(edits, id), LastFor(u, id);
      (k < 0 <==> l < 0) && (k >= 0 ==> edits[k] == u[l])
  {
    if edits != [] {
      var n := |edits| - 1;
      UnmatchedLast(hist, edits[..n], id);
      var u := Unmatched(hist, edits);
      if Has(hist, edits[n].target) { assert u == Unmatched(hist, edits[..n]); } else { assert u[..|u| - 1] == Unmatched(hist, edits[..n]); }
    }
  }

  /** Going through a list again, with more messages there, is going through it once. */
  lemma {:induction false} UnmatchedTwice(a: seq<Entry>, b: seq<Entry>, edits: seq<Edit>)
    requires forall id | Has(a, id) :: Has(b, id)
    ensures Unmatched(b, Unmatched(a, edits)) == Unmatched(b, edits)
  {
    if edits != [] {
      var n := |edits| - 1;
      UnmatchedTwice(a, b, edits[..n]);
      var u := Unmatched(a, edits);
      if Has(a, edits[n].target) { assert u == Unmatched(a, edits[..n]); } else { assert u[..|u| - 1] == Unmatched(a, edits[..n]); }
    }
  }

  lemma HasAfterArrival(hist: seq<Entry>, e: Entry, id: int)
    ensures Has(hist + [e], id) <==> Has(hist, id) || e.id == id
  {
    var r := hist + [e];
    if Has(hist, id) {
      var i :| 0 <= i < |hist| && hist[i].id == id;
      assert r[i].id == id;
    }
    if e.id == id { assert r[|hist|].id == id; }
  }

  /** An arrival after the edits is an arrival before them. */
  lemma ArrivalMovesUp(hist: seq<Entry>, edits: seq<Edit>, e: Entry)
    requires Distinct(hist + [e])
    ensures Arrive(Page(ApplyAll(hist, edits), Unmatched(hist, edits)), e)
         == Page(ApplyAll(hist + [e], edits), Unmatched(hist + [e], edits))
  {
    var h, u := ApplyAll(hist, edits), Unmatched(hist, edits);
    var left, right := ApplyAll(h + [e], u), ApplyAll(hist + [e], edits);
    ApplyKeepsIds(hist, edits);
    UnmatchedTargets(hist, edits);
    assert !Has(hist, e.id) by {
      if i :| 0 <= i < |hist| && hist[i].id == e.id { assert (hist + [e])[i].id != (hist + [e])[|hist|].id; }
    }
    forall i | 0 <= i < |left| ensures left[i] == right[i] {
      assert forall j | 0 <= j < |hist| :: (h + [e])[j].id == (hist + [e])[j].id;
      LastEditCounts(h + [e], u, i);
      LastEditCounts(hist + [e], edits, i);
      if i < |hist| {
        assert forall j | 0 <= j < |hist| && j != i :: hist[j].id == (hist + [e])[j].id;
        LastEditCounts(hist, edits, i);
        assert Has(hist, hist[i].id);
      } else {
        UnmatchedLast(hist, edits, e.id);
      }
    }
    forall id ensures Has(h + [e], id) <==> Has(hist + [e], id) {
      HasAfterArrival(h, e, id);
      HasAfterArrival(hist, e, id);
    }
    SameIdsSameUnmatched(h + [e], hist + [e], u);
    UnmatchedTwice(hist, hist + [e], edits) by {
      forall id | Has(hist, id) ensures Has(hist + [e], id) { HasAfterArrival(hist, e, id); }
    }
  }

  lemma {:induction false} SameIdsSameUnmatched(a: seq<Entry>, b: seq<Entry>, edits: seq<Edit>)
    requires forall id :: Has(a, id) <==> Has(b, id)
    ensures Unmatched(a, edits) == Unmatched(b, edits)
  {
    if edits != [] { SameIdsSameUnmatched(a, b, edits[..|edits| - 1]); }
  }

  /**
   Any interleaving of arrivals of distinct messages and of edits leaves the page as
   if the messages had all come first: only the order among messages and the order
   among edits matter.
   */
  lemma {:induction false} InterleavingDoesNotMatter(hs: seq<Happening>)
    requires Distinct(Arrivals(hs))
    ensures After(hs) == Page(ApplyAll(Arrivals(hs), Amendments(hs)), Unmatched(Arrivals(hs), Amendments(hs)))
  {
    if hs != [] {
      var n := |hs| - 1;
      var a, m := Arrivals(hs[..n]), Amendments(hs[..n]);
      assert Distinct(a) by {
        assert forall i | 0 <= i < |a| :: a[i] == Arrivals(hs)[i];
      }
      InterleavingDoesNotMatter(hs[..n]);
      match hs[n] {
        case Arrives(e) =>
          assert Amendments(hs) == m && Arrivals(hs) == a + [e];
          ArrivalMovesUp(a, m, e);
        case Amends(edit) =>
          assert Arrivals(hs) == a;
          ApplyKeepsIds(a, m);
          if !Has(a, edit.target) { UpdateAbsent(ApplyAll(a, m), edit.target, edit.body); }
          assert (m + [edit])[..|m|] == m;
      }
    }
  }

  /** A message's final body is that of its last edit, before or after it; none of its edits is left waiting. */
  lemma LastEditWins(hs: seq<Happening>, i: nat)
    requires Distinct(Arrivals(hs)) && i < |Arrivals(hs)|
    ensures var e, p, k := Arrivals(hs)[i], After(hs), LastFor(Amendments(hs), Arrivals(hs)[i].id);
      && |p.hist| == |Arrivals(hs)|
      && p.hist[i] == (if k < 0 then e else Edited(e, Amendments(hs)[k].body))
      && (forall j | 0 <= j < |p.pending| :: p.pending[j].target != e.id)
  {
    InterleavingDoesNotMatter(hs);
    LastEditCounts(Arrivals(hs), Amendments(hs), i);
    UnmatchedTargets(Arrivals(hs), Amendments(hs));
    assert Has(Arrivals(hs), Arrivals(hs)[i].id);
  }
}
