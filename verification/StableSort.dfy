/** A stable sort of timeline items by their three-part key, and what it is determined by. */
module StableSort {
  import opened Edits

  datatype Key = Key(anchor: int, kind: int, order: int)

  datatype Item = Item(key: Key, entry: Entry)

  predicate Less(a: Key, b: Key) {
    a.anchor < b.anchor || (a.anchor == b.anchor && (a.kind < b.kind || (a.kind == b.kind && a.order < b.order)))
  }

  /** No item comes after one with a larger key. */
  predicate Ordered(s: seq<Item>) {
    forall i, j | 0 <= i < j < |s| :: !Less(s[j].key, s[i].key)
  }

  /** Puts an item behind all those that are not larger. */
  function Insert(s: seq<Item>, x: Item): seq<Item> {
    if s == [] || !Less(x.key, s[|s| - 1].key) then s + [x]
    else Insert(s[..|s| - 1], x) + [s[|s| - 1]]
  }

  function Sort(s: seq<Item>): seq<Item> {
    if s == [] then [] else Insert(Sort(s[..|s| - 1]), s[|s| - 1])
  }

  /** The items with one key, in their order. */
  function WithKey(s: seq<Item>, k: Key): seq<Item> {
    if s == [] then [] else WithKey(s[..|s| - 1], k) + (if s[|s| - 1].key == k then [s[|s| - 1]] else [])
  }

  lemma {:induction false} InsertElements(s: seq<Item>, x: Item)
    ensures multiset(Insert(s, x)) == multiset(s) + multiset{x}
  {
    if s != [] && Less(x.key, s[|s| - 1].key) {
      InsertElements(s[..|s| - 1], x);
      assert s == s[..|s| - 1] + [s[|s| - 1]];
    }
  }

  lemma InsertHas(s: seq<Item>, x: Item, y: Item)
    requires y in Insert(s, x)
    ensures y in s || y == x
  {
    InsertElements(s, x);
    assert y in multiset(Insert(s, x));
  }

  lemma {:induction false} InsertOrdered(s: seq<Item>, x: Item)
    requires Ordered(s)
    ensures Ordered(Insert(s, x))
  {
    if s != [] {
      var n := |s| - 1;
      if Less(x.key, s[n].key) {
        InsertOrdered(s[..n], x);
        var r := Insert(s[..n], x);
        forall i | 0 <= i < |r| ensures !Less(s[n].key, r[i].key) {
          InsertHas(s[..n], x, r[i]);
        }
      } else {
        forall i | 0 <= i <= n ensures !Less(x.key, s[i].key) {
          assert i < n ==> !Less(s[n].key, s[i].key);
        }
      }
    }
  }

  lemma {:induction false} InsertWithKey(s: seq<Item>, x: Item, k: Key)
    requires Ordered(s)
    ensures WithKey(Insert(s, x), k) == WithKey(s, k) + (if x.key == k then [x] else [])
  {
    var n := |s| - 1;
    if s == [] || !Less(x.key, s[n].key) {
      assert (s + [x])[..|s|] == s;
    } else {
      InsertWithKey(s[..n], x, k);
      assert Insert(s, x)[..|Insert(s, x)| - 1] == Insert(s[..n], x);
      if x.key == k { NoneWithKey(s, n, k); }
    }
  }

  lemma NoneWithKey(s: seq<Item>, n: nat, k: Key)
    requires n == |s| - 1 && Less(k, s[n].key)
    ensures WithKey(s, k) == WithKey(s[..n], k)
  {
  }

  lemma {:induction false} SortFacts(s: seq<Item>)
    ensures Ordered(Sort(s)) && multiset(Sort(s)) == multiset(s) && |Sort(s)| == |s|
    ensures forall k :: WithKey(Sort(s), k) == WithKey(s, k)
  {
    if s != [] {
      var n := |s| - 1;
      SortFacts(s[..n]);
      InsertOrdered(Sort(s[..n]), s[n]);
      InsertElements(Sort(s[..n]), s[n]);
      assert s == s[..n] + [s[n]];
      assert |Sort(s)| == |multiset(Sort(s))|;
      forall k ensures WithKey(Sort(s), k) == WithKey(s, k) { InsertWithKey(Sort(s[..n]), s[n], k); }
    }
  }

  /** A key with items is not larger than the last one of an ordered list. */
  lemma {:induction false} HasKey(s: seq<Item>, k: Key)
    requires Ordered(s) && WithKey(s, k) != []
    ensures s != [] && !Less(s[|s| - 1].key, k)
  {
    var n := |s| - 1;
    if s[n].key != k {
      HasKey(s[..n], k);
      assert !Less(s[n].key, s[n - 1].key);
      assert s[..n][n - 1] == s[n - 1];
    }
  }

  lemma LastWithKey(s: seq<Item>)
    requires s != []
    ensures var x := s[|s| - 1]; WithKey(s, x.key) == WithKey(s[..|s| - 1], x.key) + [x]
  {
  }

  /** The last key of one ordered list is not larger than the last of another with the same items. */
  lemma LastNotLarger(a: seq<Item>, b: seq<Item>)
    requires Ordered(b) && a != [] && WithKey(a, a[|a| - 1].key) == WithKey(b, a[|a| - 1].key)
    ensures b != [] && !Less(b[|b| - 1].key, a[|a| - 1].key)
  {
    LastWithKey(a);
    HasKey(b, a[|a| - 1].key);
  }

  lemma LastIsLargest(a: seq<Item>, b: seq<Item>)
    requires Ordered(a) && Ordered(b) && a != [] && (forall k :: WithKey(a, k) == WithKey(b, k))
    ensures b != [] && a[|a| - 1] == b[|b| - 1]
  {
    LastNotLarger(a, b);
    LastsAgree(a, b);
  }

  lemma LastsAgree(a: seq<Item>, b: seq<Item>)
    requires Ordered(a) && Ordered(b) && a != [] && b != []
    requires WithKey(a, a[|a| - 1].key) == WithKey(b, a[|a| - 1].key) && WithKey(a, b[|b| - 1].key) == WithKey(b, b[|b| - 1].key)
    ensures a[|a| - 1] == b[|b| - 1]
  {
    LastNotLarger(a, b);
    LastNotLarger(b, a);
    LastOfKey(a, b);
  }

  lemma LastOfKey(a: seq<Item>, b: seq<Item>)
    requires a != [] && b != [] && a[|a| - 1].key == b[|b| - 1].key && WithKey(a, a[|a| - 1].key) == WithKey(b, a[|a| - 1].key)
    ensures a[|a| - 1] == b[|b| - 1]
  {
    var x, y := a[|a| - 1], b[|b| - 1];
    LastWithKey(a);
    LastWithKey(b);
    SameEnd(WithKey(a[..|a| - 1], x.key), x, WithKey(b[..|b| - 1], x.key), y);
  }

  lemma SameEnd(p: seq<Item>, x: Item, q: seq<Item>, y: Item)
    requires p + [x] == q + [y]
    ensures p == q && x == y
  {
    assert (p + [x])[|p + [x]| - 1] == x && (q + [y])[|q + [y]| - 1] == y;
    assert p == (p + [x])[..|p + [x]| - 1] && q == (q + [y])[..|q + [y]| - 1];
  }

  /** Two ordered lists with the same items of every key are equal. */
  lemma {:induction false} SameByKeys(a: seq<Item>, b: seq<Item>)
    requires Ordered(a) && Ordered(b) && forall k :: WithKey(a, k) == WithKey(b, k)
    ensures a == b
  {
    if a == [] {
      if b != [] { LastIsLargest(b, a); }
    } else {
      LastIsLargest(a, b);
      var m, n := |a| - 1, |b| - 1;
      forall k ensures WithKey(a[..m], k) == WithKey(b[..n], k) {
        var p, q := WithKey(a[..m], k), WithKey(b[..n], k);
        assert WithKey(a, k) == WithKey(b, k);
        assert WithKey(a, k) == p + (if a[m].key == k then [a[m]] else []);
        assert WithKey(b, k) == q + (if b[n].key == k then [b[n]] else []);
        if a[m].key == k {
          SameEnd(p, a[m], q, b[n]);
        } else {
          assert p + [] == p && q + [] == q;
        }
      }
      SameByKeys(a[..m], b[..n]);
      assert a == a[..m] + [a[m]] && b == b[..n] + [b[n]];
    }
  }

  /** Sorting a list that already has the items of `t`, key by key, gives `t` if `t` is ordered. */
  lemma SortIs(s: seq<Item>, t: seq<Item>)
    requires Ordered(t) && forall k :: WithKey(s, k) == WithKey(t, k)
    ensures Sort(s) == t
  {
    SortFacts(s);
    SameByKeys(Sort(s), t);
  }
}
