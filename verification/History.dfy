/**
 Server history against the digests seen before: what `verify_history_consistency`
 reports, for one window and over whole runs of windows.
 */
module History {
  import opened Ascending
  import opened Transcript

  datatype Warning = OutOfOrder | Missing(id: int) | Changed(id: int)

  /** Messages that take part: a positive id and a body shown to the user. */
  predicate TakesPart(m: Message) { m.id > 0 && Visible(m.body) }

  function Relevant(ms: seq<Message>): (r: seq<Message>)
    ensures forall m :: m in r <==> m in ms && TakesPart(m)
  {
    if ms == [] then []
    else
      var n := |ms| - 1;
      Relevant(ms[..n]) + (if TakesPart(ms[n]) then [ms[n]] else [])
  }

  /** Digests by id; of two messages with one id the later counts. */
  function Incoming(sha: Sha, ms: seq<Message>): map<int, Digest> {
    if ms == [] then map[]
    else
      var n := |ms| - 1;
      Incoming(sha, ms[..n])[ms[n].id := sha.message(ms[n])]
  }

  predicate InOrder(ms: seq<Message>) {
    forall i, j | 0 <= i < j < |ms| :: ms[i].id <= ms[j].id
  }

  /** Between the smallest and the largest id of a window. */
  ghost predicate Spans(ms: seq<Message>, id: int) {
    (exists m :: m in ms && m.id <= id) && (exists m :: m in ms && id <= m.id)
  }

  /** What a warning says about a window and what was known before. */
  ghost predicate Justified(sha: Sha, known: map<int, Digest>, ms: seq<Message>, w: Warning) {
    match w
    case OutOfOrder => !InOrder(ms)
    case Missing(id) => id in known && Spans(ms, id) && id !in Incoming(sha, ms)
    case Changed(id) => id in known && id in Incoming(sha, ms) && Incoming(sha, ms)[id] != known[id]
  }

  /** Every justified warning once, in the order the client lists them. */
  ghost predicate Reports(sha: Sha, known: map<int, Digest>, ms: seq<Message>, ws: seq<Warning>) {
    && (forall w :: w in ws <==> Justified(sha, known, ms, w))
    && (forall i, j | 0 <= i < j < |ws| :: Rank(ws[i]) < Rank(ws[j]))
  }

  /** Ids of known messages in a window are positive, so the order warning comes first. */
  function Rank(w: Warning): int { if w.OutOfOrder? then 0 else w.id }

  method FilterRelevant(ms: seq<Message>) returns (r: seq<Message>)
    ensures r == Relevant(ms)
  {
    r := [];
    for i := 0 to |ms|
      invariant r == Relevant(ms[..i])
    {
      assert ms[..i + 1][..i] == ms[..i];
      if TakesPart(ms[i]) { r := r + [ms[i]]; }
    }
    assert ms[..|ms|] == ms;
  }

  /** `min(ids)` and `max(ids)`. */
  method Bounds(ms: seq<Message>) returns (lo: int, hi: int)
    requires |ms| > 0
    ensures forall id :: lo <= id <= hi <==> Spans(ms, id)
    ensures exists m :: m in ms && m.id == lo
  {
    lo, hi := ms[0].id, ms[0].id;
    for i := 1 to |ms|
      invariant exists k :: 0 <= k < i && ms[k].id == lo
      invariant exists k :: 0 <= k < i && ms[k].id == hi
      invariant forall k | 0 <= k < i :: lo <= ms[k].id <= hi
    {
      if ms[i].id < lo { lo := ms[i].id; }
      if ms[i].id > hi { hi := ms[i].id; }
    }
    SpansIs(ms, lo, hi);
  }

  /** `ids == sorted(ids)`. */
  method IsSorted(ms: seq<Message>) returns (sorted: bool)
    ensures sorted <==> InOrder(ms)
  {
    sorted := true;
    if ms == [] { return; }
    for i := 1 to |ms|
      invariant sorted <==> InOrder(ms[..i])
    {
      OrderGrows(ms, i);
      if ms[i].id < ms[i - 1].id { sorted := false; }
    }
    assert ms[..|ms|] == ms;
  }

  method DigestAll(sha: Sha, ms: seq<Message>) returns (incoming: map<int, Digest>)
    ensures incoming == Incoming(sha, ms)
  {
    incoming := map[];
    for i := 0 to |ms|
      invariant incoming == Incoming(sha, ms[..i])
    {
      assert ms[..i + 1][..i] == ms[..i];
      incoming := incoming[ms[i].id := sha.message(ms[i])];
    }
    assert ms[..|ms|] == ms;
  }

  lemma OrderGrows(ms: seq<Message>, i: nat)
    requires 0 < i < |ms|
    ensures InOrder(ms[..i + 1]) <==> InOrder(ms[..i]) && ms[i - 1].id <= ms[i].id
  {
    var a, b := ms[..i], ms[..i + 1];
    if InOrder(b) {
      assert forall k, l | 0 <= k < l < |a| :: a[k] == b[k] && a[l] == b[l];
      assert b[i - 1].id <= b[i].id;
    }
    if InOrder(a) && ms[i - 1].id <= ms[i].id {
      forall k, l | 0 <= k < l < |b| ensures b[k].id <= b[l].id {
        if l == i && k < i - 1 { assert a[k].id <= a[i - 1].id; }
        if l < i { assert a[k].id <= a[l].id; }
      }
    }
  }

  lemma SpansIs(ms: seq<Message>, lo: int, hi: int)
    requires exists k :: 0 <= k < |ms| && ms[k].id == lo
    requires exists k :: 0 <= k < |ms| && ms[k].id == hi
    requires forall k | 0 <= k < |ms| :: lo <= ms[k].id <= hi
    ensures forall id :: lo <= id <= hi <==> Spans(ms, id)
    ensures exists m :: m in ms && m.id == lo
  {
    var k :| 0 <= k < |ms| && ms[k].id == lo;
    var l :| 0 <= l < |ms| && ms[l].id == hi;
    assert ms[k] in ms && ms[l] in ms;
  }

  /** The warning a known id gives, if any. */
  function Problem(known: map<int, Digest>, incoming: map<int, Digest>, lo: int, hi: int, id: int): seq<Warning>
    requires id in known
  {
    if lo <= id <= hi && id !in incoming then [Missing(id)]
    else if id in incoming && incoming[id] != known[id] then [Changed(id)]
    else []
  }

  /** Their warnings, for a list of known ids. */
  function Problems(known: map<int, Digest>, incoming: map<int, Digest>, lo: int, hi: int, ids: seq<int>): seq<Warning> {
    if ids == [] then []
    else
      var id := ids[|ids| - 1];
      Problems(known, incoming, lo, hi, ids[..|ids| - 1]) + (if id in known then Problem(known, incoming, lo, hi, id) else [])
  }

  lemma {:induction false} ProblemsFacts(known: map<int, Digest>, incoming: map<int, Digest>, lo: int, hi: int, ids: seq<int>)
    requires Increasing(ids)
    ensures var ws := Problems(known, incoming, lo, hi, ids);
      && (forall w :: w in ws <==> !w.OutOfOrder? && w.id in ids && w.id in known && Problem(known, incoming, lo, hi, w.id) == [w])
      && (forall i, j | 0 <= i < j < |ws| :: Rank(ws[i]) < Rank(ws[j]))
  {
    if ids != [] {
      var n := |ids| - 1;
      ProblemsFacts(known, incoming, lo, hi, ids[..n]);
      assert ids == ids[..n] + [ids[n]];
      var before := Problems(known, incoming, lo, hi, ids[..n]);
      forall i | 0 <= i < |before| ensures Rank(before[i]) < ids[n] {
        assert before[i] in before;
        assert before[i].id in ids[..n];
      }
    }
  }

  /** The loop over known ids in order. */
  method Compare(known: map<int, Digest>, incoming: map<int, Digest>, lo: int, hi: int, ids: seq<int>) returns (ws: seq<Warning>)
    ensures ws == Problems(known, incoming, lo, hi, ids)
  {
    ws := [];
    for i := 0 to |ids|
      invariant ws == Problems(known, incoming, lo, hi, ids[..i])
    {
      assert ids[..i + 1][..i] == ids[..i];
      if ids[i] in known { ws := ws + Problem(known, incoming, lo, hi, ids[i]); }
    }
    assert ids[..|ids|] == ids;
  }

  lemma ProblemsAreJustified(sha: Sha, known: map<int, Digest>, ms: seq<Message>, lo: int, hi: int, ids: seq<int>)
    requires Increasing(ids) && (forall id | id in known :: id in ids) && forall id :: lo <= id <= hi <==> Spans(ms, id)
    ensures var ws := Problems(known, Incoming(sha, ms), lo, hi, ids);
      && (forall w :: w in ws <==> !w.OutOfOrder? && Justified(sha, known, ms, w))
      && (forall i, j | 0 <= i < j < |ws| :: Rank(ws[i]) < Rank(ws[j]))
  {
    ProblemsFacts(known, Incoming(sha, ms), lo, hi, ids);
    var ws := Problems(known, Incoming(sha, ms), lo, hi, ids);
    forall w ensures w in ws <==> !w.OutOfOrder? && Justified(sha, known, ms, w) {
      if !w.OutOfOrder? { ProblemIsJustified(sha, known, ms, lo, hi, w); }
    }
  }

  lemma OrderWarningFirst(sha: Sha, known: map<int, Digest>, ms: seq<Message>, ws: seq<Warning>)
    requires (forall w :: w in ws <==> !w.OutOfOrder? && Justified(sha, known, ms, w)) && forall m | m in ms :: m.id > 0
    requires forall i, j | 0 <= i < j < |ws| :: Rank(ws[i]) < Rank(ws[j])
    ensures Reports(sha, known, ms, if InOrder(ms) then ws else [OutOfOrder] + ws)
  {
    forall i | 0 <= i < |ws| ensures Rank(ws[i]) > 0 {
      assert ws[i] in ws;
      PositiveIds(sha, ms, ws[i].id);
    }
  }

  /** The three sources of warnings put together. */
  method Report(sha: Sha, known: map<int, Digest>, ms: seq<Message>) returns (ws: seq<Warning>, incoming: map<int, Digest>)
    requires ms != [] && forall m | m in ms :: m.id > 0
    ensures incoming == Incoming(sha, ms) && Reports(sha, known, ms, ws)
  {
    incoming := DigestAll(sha, ms);
    var sorted := IsSorted(ms);
    var lo, hi := Bounds(ms);
    var ids := Sorted(known.Keys);
    ws := Compare(known, incoming, lo, hi, ids);
    ProblemsAreJustified(sha, known, ms, lo, hi, ids);
    OrderWarningFirst(sha, known, ms, ws);
    if !sorted { ws := [OutOfOrder] + ws; }
  }

  lemma {:induction false} IncomingIds(sha: Sha, ms: seq<Message>)
    ensures forall id :: id in Incoming(sha, ms) <==> exists m :: m in ms && m.id == id
    ensures forall id | id in Incoming(sha, ms) :: exists m :: m in ms && m.id == id && Incoming(sha, ms)[id] == sha.message(m)
  {
    if ms != [] {
      var n := |ms| - 1;
      IncomingIds(sha, ms[..n]);
      assert ms == ms[..n] + [ms[n]];
      forall id ensures id in Incoming(sha, ms) <==> exists m :: m in ms && m.id == id {
        if m :| m in ms && m.id == id { assert m == ms[n] || m in ms[..n]; }
        if id in Incoming(sha, ms) && id != ms[n].id {
          assert id in Incoming(sha, ms[..n]);
          var m :| m in ms[..n] && m.id == id;
          assert m in ms;
        }
      }
      forall id | id in Incoming(sha, ms) ensures exists m :: m in ms && m.id == id && Incoming(sha, ms)[id] == sha.message(m) {
        if id != ms[n].id {
          var m :| m in ms[..n] && m.id == id && Incoming(sha, ms[..n])[id] == sha.message(m);
          assert m in ms;
        } else {
          assert ms[n] in ms;
        }
      }
    }
  }

  lemma PositiveIds(sha: Sha, ms: seq<Message>, id: int)
    requires forall m | m in ms :: m.id > 0
    ensures id in Incoming(sha, ms) || Spans(ms, id) ==> id > 0
  {
    IncomingIds(sha, ms);
  }

  lemma ProblemIsJustified(sha: Sha, known: map<int, Digest>, ms: seq<Message>, lo: int, hi: int, w: Warning)
    requires !w.OutOfOrder? && forall id :: lo <= id <= hi <==> Spans(ms, id)
    ensures (w.id in known && Problem(known, Incoming(sha, ms), lo, hi, w.id) == [w]) <==> Justified(sha, known, ms, w)
  {
  }

  // ---- one check -------------------------------------------------------

  /** `warnings[:3]`. */
  function FirstThree(ws: seq<Warning>): seq<Warning> { if |ws| > 3 then ws[..3] else ws }

  /** What one call returns and leaves in the transcript. */
  ghost predicate Checked(sha: Sha, known: map<int, Digest>, ms: seq<Message>, ws: seq<Warning>, after: map<int, Digest>) {
    var r := Relevant(ms);
    if r == [] then ws == [] && after == known
    else after == known + Incoming(sha, r) && exists full :: Reports(sha, known, r, full) && ws == FirstThree(full)
  }

  /** `verify_history_consistency` on the digests known so far. */
  method CheckHistory(sha: Sha, known: map<int, Digest>, ms: seq<Message>) returns (ws: seq<Warning>, after: map<int, Digest>)
    ensures Checked(sha, known, ms, ws, after)
  {
    var r := FilterRelevant(ms);
    if r == [] { return [], known; }
    var full, incoming := Report(sha, known, r);
    ws, after := FirstThree(full), known + incoming;
  }

  /**
   For a window with a visible message: no warning comes exactly when its ids are in
   order, every known id it spans is there, and every known digest is the same.
   */
  lemma NoWarningIff(sha: Sha, known: map<int, Digest>, ms: seq<Message>, ws: seq<Warning>, after: map<int, Digest>)
    requires Checked(sha, known, ms, ws, after) && Relevant(ms) != []
    ensures var r := Relevant(ms); var inc := Incoming(sha, Relevant(ms));
      ws == [] <==> InOrder(r) && (forall id | id in known && Spans(r, id) :: id in inc)
                    && (forall id | id in known && id in inc :: inc[id] == known[id])
  {
    var r := Relevant(ms);
    var full :| Reports(sha, known, r, full) && ws == FirstThree(full);
    var inc := Incoming(sha, r);
    if full == [] {
      assert OutOfOrder !in full;
      forall id | id in known && Spans(r, id) ensures id in inc { assert Missing(id) !in full; }
      forall id | id in known && id in inc ensures inc[id] == known[id] { assert Changed(id) !in full; }
    } else {
      assert full[0] in full;
    }
  }

  lemma {:induction false} RelevantSkips(a: seq<Message>, m: Message, b: seq<Message>)
    requires !TakesPart(m)
    ensures Relevant(a + [m] + b) == Relevant(a + b)
  {
    if b == [] {
      assert a + [m] + b == a + [m] && a + b == a;
      RelevantOfNext(a, m);
    } else {
      var n := |b| - 1;
      RelevantSkips(a, m, b[..n]);
      assert a + [m] + b == (a + [m] + b[..n]) + [b[n]] && a + b == (a + b[..n]) + [b[n]];
      RelevantOfNext(a + [m] + b[..n], b[n]);
      RelevantOfNext(a + b[..n], b[n]);
    }
  }

  lemma RelevantOfNext(a: seq<Message>, m: Message)
    ensures Relevant(a + [m]) == Relevant(a) + (if TakesPart(m) then [m] else [])
  {
    assert (a + [m])[..|a|] == a;
  }

  /** A message without an id, or with no user's text, makes no difference to a check wherever it stands. */
  lemma OthersMakeNoDifference(sha: Sha, known: map<int, Digest>, a: seq<Message>, m: Message, b: seq<Message>,
                               ws: seq<Warning>, after: map<int, Digest>)
    requires m.id <= 0 || NoUserText(m.body)
    ensures Checked(sha, known, a + [m] + b, ws, after) <==> Checked(sha, known, a + b, ws, after)
  {
    VisibleIff(m.body);
    RelevantSkips(a, m, b);
  }

  /** After a check the digest of an id is that of the last message in the window with it, and else the one known before. */
  lemma LastMessageCounts(sha: Sha, known: map<int, Digest>, ms: seq<Message>, ws: seq<Warning>, after: map<int, Digest>, k: nat)
    requires Checked(sha, known, ms, ws, after) && k < |Relevant(ms)|
    requires forall j | k < j < |Relevant(ms)| :: Relevant(ms)[j].id != Relevant(ms)[k].id
    ensures var m := Relevant(ms)[k]; m.id in after && after[m.id] == sha.message(m)
  {
    IncomingLast(sha, Relevant(ms), k);
  }

  lemma {:induction false} IncomingLast(sha: Sha, ms: seq<Message>, k: nat)
    requires k < |ms| && forall j | k < j < |ms| :: ms[j].id != ms[k].id
    ensures ms[k].id in Incoming(sha, ms) && Incoming(sha, ms)[ms[k].id] == sha.message(ms[k])
  {
    var n := |ms| - 1;
    if k < n { IncomingLast(sha, ms[..n], k); }
  }

  /** An id the window does not have keeps what was known of it. */
  lemma OthersStayKnown(sha: Sha, known: map<int, Digest>, ms: seq<Message>, ws: seq<Warning>, after: map<int, Digest>, id: int)
    requires Checked(sha, known, ms, ws, after) && forall m | m in Relevant(ms) :: m.id != id
    ensures (id in after <==> id in known) && (id in known ==> after[id] == known[id])
  {
    IncomingIds(sha, Relevant(ms));
  }

  // ---- the same window twice -------------------------------------------

  /** The warnings that are not about a change, in their order. */
  function Unchanged(ws: seq<Warning>): seq<Warning> {
    if ws == [] then [] else Unchanged(ws[..|ws| - 1]) + (if ws[|ws| - 1].Changed? then [] else [ws[|ws| - 1]])
  }

  ghost predicate Ranked(ws: seq<Warning>) { forall i, j | 0 <= i < j < |ws| :: Rank(ws[i]) < Rank(ws[j]) }

  lemma {:induction false} UnchangedFacts(ws: seq<Warning>)
    requires Ranked(ws)
    ensures Ranked(Unchanged(ws)) && |Unchanged(ws)| <= |ws| && forall w :: w in Unchanged(ws) <==> w in ws && !w.Changed?
  {
    if ws != [] {
      var n := |ws| - 1;
      UnchangedFacts(ws[..n]);
      assert ws == ws[..n] + [ws[n]];
      var u := Unchanged(ws[..n]);
      forall i | 0 <= i < |u| ensures Rank(u[i]) < Rank(ws[n]) { assert u[i] in u; }
    }
  }

  lemma {:induction false} FirstIsFirst(a: seq<Warning>, b: seq<Warning>)
    requires Ranked(a) && Ranked(b) && |a| > 0 && |b| > 0 && a[0] in b && b[0] in a
    ensures a[0] == b[0]
  {
    var i :| 0 <= i < |b| && b[i] == a[0];
    var j :| 0 <= j < |a| && a[j] == b[0];
    RankedFirst(b, i);
    RankedFirst(a, j);
  }

  lemma {:induction false} RankedFirst(ws: seq<Warning>, i: nat)
    requires Ranked(ws) && i < |ws|
    ensures Rank(ws[0]) <= Rank(ws[i]) && (Rank(ws[0]) == Rank(ws[i]) ==> ws[0] == ws[i])
  {
  }

  /** A list in strict order is determined by its elements. */
  lemma {:induction false} SameRanked(a: seq<Warning>, b: seq<Warning>)
    requires Ranked(a) && Ranked(b) && forall w :: w in a <==> w in b
    ensures a == b
  {
    forall i | 0 <= i < |a| ensures a[i] in b { assert a[i] in a; }
    forall i | 0 <= i < |b| ensures b[i] in a { assert b[i] in b; }
    assert |a| > 0 ==> a[0] in b;
    assert |b| > 0 ==> b[0] in a;
    if |a| > 0 && |b| > 0 {
      FirstIsFirst(a, b);
      assert a == [a[0]] + a[1..] && b == [b[0]] + b[1..];
      forall w ensures w in a[1..] <==> w in b[1..] {
        assert w in a[1..] ==> w in a && w != a[0];
        assert w in b[1..] ==> w in b && w != b[0];
      }
      SameRanked(a[1..], b[1..]);
    }
  }

  /** What the same window is due the second time: what it was due the first time, without the changes. */
  lemma {:induction false} RepeatIsUnchanged(sha: Sha, known: map<int, Digest>, r: seq<Message>, full: seq<Warning>, again: seq<Warning>)
    requires Reports(sha, known, r, full) && Reports(sha, known + Incoming(sha, r), r, again)
    ensures again == Unchanged(full)
  {
    var known2 := known + Incoming(sha, r);
    UnchangedFacts(full);
    forall w ensures w in again <==> w in Unchanged(full) {
      assert Justified(sha, known2, r, w) <==> Justified(sha, known, r, w) && !w.Changed?;
    }
    SameRanked(again, Unchanged(full));
  }

  lemma {:induction false} UnchangedConcat(a: seq<Warning>, b: seq<Warning>)
    ensures Unchanged(a + b) == Unchanged(a) + Unchanged(b)
  {
    if b == [] {
      assert a + b == a;
    } else {
      assert (a + b)[..|a + b| - 1] == a + b[..|b| - 1];
      UnchangedConcat(a, b[..|b| - 1]);
    }
  }

  lemma {:induction false} UnchangedAll(ws: seq<Warning>)
    ensures |Unchanged(ws)| <= |ws| && (|Unchanged(ws)| == |ws| <==> forall w | w in ws :: !w.Changed?)
    ensures (forall w | w in ws :: !w.Changed?) ==> Unchanged(ws) == ws
    ensures forall w | w in Unchanged(ws) :: w in ws && !w.Changed?
  {
    if ws != [] {
      UnchangedAll(ws[..|ws| - 1]);
      assert ws == ws[..|ws| - 1] + [ws[|ws| - 1]];
    }
  }

  /** A change took one of the three places, and something that is no change was cut off. */
  ghost predicate Crowded(full: seq<Warning>) {
    |full| > 3 && (exists w :: w in full[..3] && w.Changed?) && exists w :: w in full[3..] && !w.Changed?
  }

  lemma {:induction false} CutThenUnchanged(full: seq<Warning>)
    ensures Unchanged(FirstThree(full)) <= FirstThree(Unchanged(full))
    ensures FirstThree(Unchanged(full)) == Unchanged(FirstThree(full)) <==> !Crowded(full)
  {
    if |full| > 3 {
      var head, tail := full[..3], full[3..];
      assert full == head + tail;
      UnchangedConcat(head, tail);
      UnchangedAll(head);
      UnchangedSome(tail);
      CutJoined(Unchanged(head), Unchanged(tail));
      assert Crowded(full) <==> |Unchanged(head)| < 3 && Unchanged(tail) != [];
    } else {
      UnchangedAll(full);
    }
  }

  lemma {:induction false} CutJoined(a: seq<Warning>, b: seq<Warning>)
    requires |a| <= 3
    ensures a <= FirstThree(a + b) && (FirstThree(a + b) == a <==> !(|a| < 3 && b != []))
  {
    if |a| < 3 && b != [] { assert |FirstThree(a + b)| > |a|; }
  }

  lemma {:induction false} UnchangedSome(ws: seq<Warning>)
    ensures Unchanged(ws) != [] <==> exists w :: w in ws && !w.Changed?
  {
    UnchangedAll(ws);
    if Unchanged(ws) != [] { assert Unchanged(ws)[0] in Unchanged(ws); }
    UnchangedHas(ws);
  }

  lemma {:induction false} UnchangedHas(ws: seq<Warning>)
    ensures (exists w :: w in ws && !w.Changed?) ==> Unchanged(ws) != []
  {
    if ws != [] {
      UnchangedHas(ws[..|ws| - 1]);
      assert ws == ws[..|ws| - 1] + [ws[|ws| - 1]];
    }
  }

  /**
   The same window in two calls, `full` being all that was due in the first. The second
   reports no change, and again all that the first reported and is no change. It reports
   nothing more exactly when no change had taken the place of something else.
   */
  lemma {:induction false} RepeatReportsSame(sha: Sha, known: map<int, Digest>, ms: seq<Message>, ws: seq<Warning>, after: map<int, Digest>,
                          ws2: seq<Warning>, after2: map<int, Digest>, full: seq<Warning>)
    requires Checked(sha, known, ms, ws, after) && Checked(sha, after, ms, ws2, after2) && Relevant(ms) != []
    requires Reports(sha, known, Relevant(ms), full)
    ensures (forall w | w in ws2 :: !w.Changed?) && Unchanged(ws) <= ws2
    ensures ws2 == Unchanged(ws) <==> !Crowded(full)
    ensures after2 == after
  {
    var r := Relevant(ms);
    var first :| Reports(sha, known, r, first) && ws == FirstThree(first);
    var again :| Reports(sha, after, r, again) && ws2 == FirstThree(again);
    SameRanked(first, full);
    RepeatIsUnchanged(sha, known, r, full, again);
    CutThenUnchanged(full);
    UnchangedAll(full);
    FirstAreIn(again);
    SameAfter(known, Incoming(sha, r));
  }

  lemma {:induction false} FirstAreIn(ws: seq<Warning>)
    ensures forall w | w in FirstThree(ws) :: w in ws
  {
  }

  lemma SameAfter(known: map<int, Digest>, incoming: map<int, Digest>)
    ensures known + incoming + incoming == known + incoming
  {
  }

  /** Messages 1, 2, 3 and 5 as the server returns them. */
  function FourMessages(body: string): seq<Message> {
    [Message(1, 1, body, 0, false), Message(2, 1, body, 0, false), Message(3, 1, body, 0, false), Message(5, 1, body, 0, false)]
  }

  /** Four messages seen before, with other digests, and a fourth id the server leaves out. */
  function FourKnown(sha: Sha, body: string): map<int, Digest> {
    var ms := FourMessages(body);
    map[1 := sha.message(ms[0]) + "x", 2 := sha.message(ms[1]) + "x", 3 := sha.message(ms[2]) + "x", 4 := "x"]
  }

  lemma {:induction false} OneMore(sha: Sha, ms: seq<Message>, m: Message)
    requires TakesPart(m)
    ensures Relevant(ms + [m]) == Relevant(ms) + [m] && Incoming(sha, ms + [m]) == Incoming(sha, ms)[m.id := sha.message(m)]
  {
    assert (ms + [m])[..|ms|] == ms;
  }

  lemma {:induction false} FourRelevant(sha: Sha, a: Message, b: Message, c: Message, d: Message)
    requires TakesPart(a) && TakesPart(b) && TakesPart(c) && TakesPart(d)
    ensures Relevant([a, b, c, d]) == [a, b, c, d]
    ensures Incoming(sha, [a, b, c, d]) == map[][a.id := sha.message(a)][b.id := sha.message(b)][c.id := sha.message(c)][d.id := sha.message(d)]
  {
    var one, two, three := [] + [a], [] + [a] + [b], [] + [a] + [b] + [c];
    OneMore(sha, [], a);
    OneMore(sha, one, b);
    OneMore(sha, two, c);
    OneMore(sha, three, d);
    assert three + [d] == [a, b, c, d];
  }

  /** What is due to it: three changes, and the missing id behind them. */
  lemma {:induction false} FourReports(sha: Sha, ms: seq<Message>, known: map<int, Digest>)
    requires |ms| == 4 && ms[0].id == 1 && ms[1].id == 2 && ms[2].id == 3 && ms[3].id == 5
    requires known.Keys == {1, 2, 3, 4} && known[1] != sha.message(ms[0]) && known[2] != sha.message(ms[1]) && known[3] != sha.message(ms[2])
    requires Incoming(sha, ms) == map[][1 := sha.message(ms[0])][2 := sha.message(ms[1])][3 := sha.message(ms[2])][5 := sha.message(ms[3])]
    ensures Reports(sha, known, ms, [Changed(1), Changed(2), Changed(3), Missing(4)])
  {
    var full := [Changed(1), Changed(2), Changed(3), Missing(4)];
    assert ms[0] in ms && ms[3] in ms;
    assert Spans(ms, 4);
    forall w ensures w in full <==> Justified(sha, known, ms, w) {
      match w
      case OutOfOrder =>
      case Missing(id) =>
      case Changed(id) =>
    }
  }

  lemma {:induction false} FourCut(full: seq<Warning>, w: Warning)
    requires |full| == 4 && full[0].Changed? && full[1].Changed? && full[2].Changed? && full[3] == w && !w.Changed? && Ranked(full)
    ensures w !in FirstThree(full) && Unchanged(full) == [w]
  {
    var f := full;
    assert f[..3][..2] == f[..2] && f[..2][..1] == f[..1] && f[..1][..0] == [];
    assert Unchanged(f[..1]) == [] && Unchanged(f[..2]) == [] && Unchanged(f[..3]) == [];
  }

  /** Such a window reports its missing id the second time only. */
  lemma {:induction false} MissingCrowdedOut(sha: Sha, body: string, ws: seq<Warning>, after: map<int, Digest>, ws2: seq<Warning>, after2: map<int, Digest>)
    requires Visible(body) && Checked(sha, FourKnown(sha, body), FourMessages(body), ws, after)
    requires Checked(sha, after, FourMessages(body), ws2, after2)
    ensures Missing(4) !in ws && Missing(4) in ws2
  {
    var ms, known := FourMessages(body), FourKnown(sha, body);
    FourRelevant(sha, ms[0], ms[1], ms[2], ms[3]);
    FourReports(sha, ms, known);
    CutOnce(sha, known, ms, ws, after, ws2, after2, [Changed(1), Changed(2), Changed(3), Missing(4)]);
  }

  lemma {:induction false} CutOnce(sha: Sha, known: map<int, Digest>, ms: seq<Message>, ws: seq<Warning>, after: map<int, Digest>,
                                   ws2: seq<Warning>, after2: map<int, Digest>, full: seq<Warning>)
    requires Checked(sha, known, ms, ws, after) && Checked(sha, after, ms, ws2, after2) && Relevant(ms) == ms != []
    requires Reports(sha, known, ms, full) && |full| == 4
    requires full[0].Changed? && full[1].Changed? && full[2].Changed? && !full[3].Changed?
    ensures full[3] !in ws && full[3] in ws2
  {
    var first :| Reports(sha, known, ms, first) && ws == FirstThree(first);
    var again :| Reports(sha, after, ms, again) && ws2 == FirstThree(again);
    SameRanked(first, full);
    RepeatIsUnchanged(sha, known, ms, full, again);
    FourCut(full, full[3]);
  }

  // ---- runs of windows -------------------------------------------------

  /** A log as the server keeps it: ids increase. */
  ghost predicate IsLog(log: seq<Message>) {
    forall i, j | 0 <= i < j < |log| :: log[i].id < log[j].id
  }

  /** Every known digest is that of a message of the log which takes part. */
  ghost predicate KnownFrom(sha: Sha, known: map<int, Digest>, log: seq<Message>) {
    forall id | id in known :: exists i :: 0 <= i < |log| && log[i].id == id && TakesPart(log[i]) && known[id] == sha.message(log[i])
  }

  lemma {:induction false} RelevantInOrder(log: seq<Message>)
    requires IsLog(log)
    ensures InOrder(Relevant(log))
  {
    if log != [] {
      var n := |log| - 1;
      RelevantInOrder(log[..n]);
      var r := Relevant(log[..n]);
      forall i | 0 <= i < |r| ensures r[i].id <= log[n].id {
        assert r[i] in r && r[i] in log[..n];
      }
    }
  }

  /** A window cut from the log says nothing the log does not. */
  lemma WindowIncoming(sha: Sha, log: seq<Message>, lo: nat, hi: nat)
    requires IsLog(log) && lo <= hi <= |log|
    ensures KnownFrom(sha, Incoming(sha, Relevant(log[lo..hi])), log)
  {
    var r := Relevant(log[lo..hi]);
    var inc := Incoming(sha, r);
    IncomingIds(sha, r);
    forall id | id in inc ensures exists i :: 0 <= i < |log| && log[i].id == id && TakesPart(log[i]) && inc[id] == sha.message(log[i]) {
      var m :| m in r && m.id == id && inc[id] == sha.message(m);
      assert m in log[lo..hi];
      var i :| 0 <= i < |log[lo..hi]| && log[lo..hi][i] == m;
      assert log[lo + i] == m;
    }
  }

  /** A log message that takes part and lies between two ids of a window is in the window. */
  lemma WindowHasAll(log: seq<Message>, lo: nat, hi: nat, i: nat)
    requires IsLog(log) && lo <= hi <= |log| && i < |log| && TakesPart(log[i])
    requires Spans(Relevant(log[lo..hi]), log[i].id)
    ensures log[i] in Relevant(log[lo..hi])
  {
    var w := log[lo..hi];
    var a :| a in Relevant(w) && a.id <= log[i].id;
    var b :| b in Relevant(w) && log[i].id <= b.id;
    var k := PlaceInLog(log, lo, hi, a);
    var l := PlaceInLog(log, lo, hi, b);
    assert k <= i <= l;
    assert w[i - lo] == log[i];
  }

  lemma PlaceInLog(log: seq<Message>, lo: nat, hi: nat, m: Message) returns (k: nat)
    requires lo <= hi <= |log| && m in log[lo..hi]
    ensures lo <= k < hi && log[k] == m
  {
    var i :| 0 <= i < hi - lo && log[lo..hi][i] == m;
    k := lo + i;
  }

  lemma SpannedIsThere(sha: Sha, log: seq<Message>, lo: nat, hi: nat, known: map<int, Digest>, id: int)
    requires IsLog(log) && lo <= hi <= |log| && KnownFrom(sha, known, log) && id in known && Spans(Relevant(log[lo..hi]), id)
    ensures id in Incoming(sha, Relevant(log[lo..hi]))
  {
    IncomingIds(sha, Relevant(log[lo..hi]));
    var i :| 0 <= i < |log| && log[i].id == id && TakesPart(log[i]) && known[id] == sha.message(log[i]);
    WindowHasAll(log, lo, hi, i);
  }

  lemma SameLogSameDigests(sha: Sha, log: seq<Message>, a: map<int, Digest>, b: map<int, Digest>)
    requires IsLog(log) && KnownFrom(sha, a, log) && KnownFrom(sha, b, log)
    ensures forall id | id in a && id in b :: a[id] == b[id]
  {
    forall id | id in a && id in b ensures a[id] == b[id] {
      var i :| 0 <= i < |log| && log[i].id == id && TakesPart(log[i]) && a[id] == sha.message(log[i]);
      var j :| 0 <= j < |log| && log[j].id == id && TakesPart(log[j]) && b[id] == sha.message(log[j]);
      assert i == j;
    }
  }

  /** An ordered window of the log the transcript was built from is not warned about. */
  lemma LogWindowIsQuiet(sha: Sha, log: seq<Message>, lo: nat, hi: nat, known: map<int, Digest>, ws: seq<Warning>, after: map<int, Digest>)
    requires IsLog(log) && lo <= hi <= |log| && KnownFrom(sha, known, log) && Checked(sha, known, log[lo..hi], ws, after)
    ensures ws == [] && KnownFrom(sha, after, log)
  {
    var r := Relevant(log[lo..hi]);
    var inc := Incoming(sha, r);
    WindowIncoming(sha, log, lo, hi);
    if r != [] {
      RelevantInOrder(log[lo..hi]);
      forall id | id in known && Spans(r, id) ensures id in inc { SpannedIsThere(sha, log, lo, hi, known, id); }
      SameLogSameDigests(sha, log, known, inc);
      NoWarningIff(sha, known, log[lo..hi], ws, after);
    }
  }

  /** A run of checks: what was known before each, and after the last. */
  ghost predicate ChecksRun(sha: Sha, windows: seq<seq<Message>>, warned: seq<seq<Warning>>, known: seq<map<int, Digest>>) {
    && |warned| == |windows| && |known| == |windows| + 1
    && forall k | 0 <= k < |windows| :: Checked(sha, known[k], windows[k], warned[k], known[k + 1])
  }

  ghost predicate CutFrom(log: seq<Message>, window: seq<Message>) {
    exists lo, hi :: 0 <= lo <= hi <= |log| && window == log[lo..hi]
  }

  /** Whatever windows of one log are fetched, in whatever order and overlap: no warning, ever. */
  lemma {:induction false} OneLogNeverWarns(sha: Sha, log: seq<Message>, windows: seq<seq<Message>>, warned: seq<seq<Warning>>, known: seq<map<int, Digest>>, k: nat)
    requires ChecksRun(sha, windows, warned, known) && IsLog(log) && KnownFrom(sha, known[0], log)
    requires (forall i | 0 <= i < |windows| :: CutFrom(log, windows[i])) && k <= |windows|
    ensures KnownFrom(sha, known[k], log) && forall i | 0 <= i < k :: warned[i] == []
  {
    if k > 0 {
      OneLogNeverWarns(sha, log, windows, warned, known, k - 1);
      assert CutFrom(log, windows[k - 1]);
      var lo, hi :| 0 <= lo <= hi <= |log| && windows[k - 1] == log[lo..hi];
      LogWindowIsQuiet(sha, log, lo, hi, known[k - 1], warned[k - 1], known[k]);
    }
  }

  /** Ids stay known, whatever the server sends later. */
  lemma {:induction false} KnownGrows(sha: Sha, windows: seq<seq<Message>>, warned: seq<seq<Warning>>, known: seq<map<int, Digest>>, i: nat, k: nat)
    requires ChecksRun(sha, windows, warned, known) && i <= k <= |windows|
    ensures known[i].Keys <= known[k].Keys
    decreases k - i
  {
    if i < k {
      KnownGrows(sha, windows, warned, known, i, k - 1);
      assert Checked(sha, known[k - 1], windows[k - 1], warned[k - 1], known[k]);
    }
  }

  /**
   A message shown once and left out of any later window around it is among the three
   warnings returned, unless three others come before it.
   */
  lemma OmissionIsReported(sha: Sha, windows: seq<seq<Message>>, warned: seq<seq<Warning>>, known: seq<map<int, Digest>>, i: nat, k: nat, m: Message)
    requires ChecksRun(sha, windows, warned, known) && i < k < |windows|
    requires m in Relevant(windows[i]) && Spans(Relevant(windows[k]), m.id)
    requires forall x | x in Relevant(windows[k]) :: x.id != m.id
    ensures Missing(m.id) in warned[k] <==> !(|warned[k]| == 3 && forall w | w in warned[k] :: Rank(w) < m.id)
    ensures warned[k] != []
  {
    assert Checked(sha, known[i], windows[i], warned[i], known[i + 1]);
    IncomingIds(sha, Relevant(windows[i]));
    KnownGrows(sha, windows, warned, known, i + 1, k);
    assert m.id in known[k];
    assert Checked(sha, known[k], windows[k], warned[k], known[k + 1]);
    IncomingIds(sha, Relevant(windows[k]));
    var full :| Reports(sha, known[k], Relevant(windows[k]), full) && warned[k] == FirstThree(full);
    assert Justified(sha, known[k], Relevant(windows[k]), Missing(m.id));
    FirstOrThreeBefore(full, Missing(m.id));
  }

  /** A warning of the whole list is one of the first three, or three smaller ones are. */
  lemma {:induction false} FirstOrThreeBefore(full: seq<Warning>, w: Warning)
    requires Ranked(full) && w in full
    ensures w in FirstThree(full) <==> !(|FirstThree(full)| == 3 && forall v | v in FirstThree(full) :: Rank(v) < Rank(w))
    ensures FirstThree(full) != []
  {
    var j :| 0 <= j < |full| && full[j] == w;
    var ws := FirstThree(full);
    if j < 3 {
      assert ws[j] == w;
    } else {
      forall v | v in ws ensures Rank(v) < Rank(w) {
        var i :| 0 <= i < |ws| && ws[i] == v;
        assert full[i] == v;
      }
    }
  }
}
