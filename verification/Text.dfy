/**
 Strings as the client compares and prints them: the code-point order behind
 `sorted` and `min`, decimal numbers, and the colon-joined identifiers built
 from them.
 */
module Text {

  /** The order Python gives two strings. */
  predicate Le(a: string, b: string) {
    a == "" || (b != "" && (a[0] < b[0] || (a[0] == b[0] && Le(a[1..], b[1..]))))
  }

  lemma {:induction false} LeTotal(a: string, b: string)
    ensures Le(a, b) || Le(b, a)
  {
    if a != "" && b != "" && a[0] == b[0] {
      LeTotal(a[1..], b[1..]);
    }
  }

  /** The first character that differs decides, and a text comes before any that goes on from it. */
  lemma {:induction false} LeByFirstDifference(p: string, a: char, s: string, b: char, t: string)
    requires a != b
    ensures Le(p + [a] + s, p + [b] + t) <==> a < b
    ensures Le(p, p + s)
  {
    var x, y := p + [a] + s, p + [b] + t;
    if p != "" {
      LeByFirstDifference(p[1..], a, s, b, t);
      assert x[1..] == p[1..] + [a] + s && y[1..] == p[1..] + [b] + t && (p + s)[1..] == p[1..] + s;
    } else {
      assert x[0] == a && y[0] == b;
    }
  }

  lemma {:induction false} LeAntisymmetric(a: string, b: string)
    requires Le(a, b) && Le(b, a)
    ensures a == b
  {
    if a != "" && b != "" {
      LeAntisymmetric(a[1..], b[1..]);
      assert a == [a[0]] + a[1..] && b == [b[0]] + b[1..];
    }
  }

  lemma {:induction false} LeTransitive(a: string, b: string, c: string)
    requires Le(a, b) && Le(b, c)
    ensures Le(a, c)
  {
    if a != "" && b != "" && c != "" && a[0] == b[0] == c[0] {
      LeTransitive(a[1..], b[1..], c[1..]);
    }
  }

  lemma {:induction false} MinExists(s: set<string>)
    requires s != {}
    ensures exists m :: m in s && forall x | x in s :: Le(m, x)
  {
    var y :| y in s;
    var rest := s - {y};
    if rest == {} {
      LeTotal(y, y);
      assert s == {y} + rest;
      assert forall x | x in s :: Le(y, x);
    } else {
      MinExists(rest);
      var m :| m in rest && forall x | x in rest :: Le(m, x);
      LeTotal(m, y);
      LeTotal(y, y);
      if Le(m, y) {
        assert forall x | x in s :: x == y || x in rest;
      } else {
        forall x | x in s ensures Le(y, x) {
          if x != y { LeTransitive(y, m, x); }
        }
      }
    }
  }

  /** `min` of a non-empty collection of strings. */
  function Min(s: set<string>): (m: string)
    requires s != {}
    ensures m in s && forall x | x in s :: Le(m, x)
  {
    MinExists(s);
    assert forall a, b | a in s && b in s && (forall x | x in s :: Le(a, x)) && (forall x | x in s :: Le(b, x)) :: a == b by {
      forall a, b | a in s && b in s && (forall x | x in s :: Le(a, x)) && (forall x | x in s :: Le(b, x)) ensures a == b {
        LeAntisymmetric(a, b);
      }
    }
    var m :| m in s && forall x | x in s :: Le(m, x);
    m
  }

  /** `kept` is `sorted(full)[-k:]` as a set. */
  ghost predicate IsLargest(full: set<string>, kept: set<string>, k: nat) {
    if |full| <= k then kept == full
    else kept <= full && |kept| == k && forall x, y | x in kept && y in full - kept :: Le(y, x)
  }

  /** `sorted(full)[-k:]` by leaving out the smallest. */
  function LargestOf(full: set<string>, k: nat): set<string>
    decreases |full|
  {
    if |full| <= k then full else LargestOf(full - {Min(full)}, k)
  }

  lemma {:induction false} LargestOfIs(full: set<string>, k: nat)
    ensures IsLargest(full, LargestOf(full, k), k) && LargestOf(full, k) <= full
    decreases |full|
  {
    if |full| > k {
      var rest := full - {Min(full)};
      LargestOfIs(rest, k);
      if |rest| == k { assert forall x, y | x in rest && y in full - rest :: y == Min(full); }
    }
  }

  method Largest(full: set<string>, k: nat) returns (kept: set<string>)
    ensures IsLargest(full, kept, k)
    ensures kept <= full
  {
    kept := full;
    while |kept| > k
      invariant kept <= full
      invariant |full| <= k ==> kept == full
      invariant |full| > k ==> |kept| >= k
      invariant forall x, y | x in kept && y in full - kept :: Le(y, x)
      decreases |kept|
    {
      var m := Min(kept);
      kept := kept - {m};
    }
  }

  // ---- decimal numbers -------------------------------------------------

  function Digit(d: nat): char
    requires d < 10
  {
    "0123456789"[d]
  }

  function Decimal(n: nat): (s: string) {
    (if n < 10 then "" else Decimal(n / 10)) + [Digit(n % 10)]
  }

  /** `str(int)`. */
  function Number(n: int): string {
    if n < 0 then "-" + Decimal(-n) else Decimal(n)
  }

  function Value(s: string): int {
    if s == "" then 0 else 10 * Value(s[..|s| - 1]) + (s[|s| - 1] as int - '0' as int)
  }

  lemma {:induction false} DecimalValue(n: nat)
    ensures Value(Decimal(n)) == n
  {
    var s := Decimal(n);
    if n >= 10 {
      DecimalValue(n / 10);
      assert s[..|s| - 1] == Decimal(n / 10);
    } else {
      assert s[..|s| - 1] == "";
    }
  }

  lemma DecimalInjective(a: nat, b: nat)
    requires Decimal(a) == Decimal(b)
    ensures a == b
  {
    DecimalValue(a);
    DecimalValue(b);
  }

  /** A colon ends the left part when the left part has none of its own. */
  lemma {:induction false} ColonSplits(p: string, x: string, q: string, y: string)
    requires ':' !in p && ':' !in q
    requires p + ":" + x == q + ":" + y
    ensures p == q && x == y
  {
    var s, t := p + ":" + x, q + ":" + y;
    assert s[0] == (if p == "" then ':' else p[0]);
    assert t[0] == (if q == "" then ':' else q[0]);
    if p == "" || q == "" {
      assert p == q == "";
      assert s[1..] == x && t[1..] == y;
    } else {
      assert s[1..] == p[1..] + ":" + x && t[1..] == q[1..] + ":" + y;
      ColonSplits(p[1..], x, q[1..], y);
      assert p == [p[0]] + p[1..] && q == [q[0]] + q[1..];
    }
  }
}
