/** Octets, and the hexadecimal text Python makes of them and reads back. */
module Octets {
  import opened Wrappers

  type Byte = b: int | 0 <= b < 256
  type Bytes = seq<Byte>

  // ---- hexadecimal text ------------------------------------------------

  predicate IsSpace(c: char) {
    c == ' ' || c == '\t' || c == '\n' || c == '\r' || c == 11 as char || c == 12 as char
  }

  /** The value of a digit, in either case. */
  function Nibble(c: char): Option<nat> {
    if '0' <= c <= '9' then Some(c as int - '0' as int)
    else if 'a' <= c <= 'f' then Some(c as int - 'a' as int + 10)
    else if 'A' <= c <= 'F' then Some(c as int - 'A' as int + 10)
    else None
  }

  /** `bytes.fromhex`: pairs of digits, with white space allowed around the pairs. */
  function FromHex(s: string): Option<Bytes> {
    if s == "" then Some([])
    else if IsSpace(s[0]) then FromHex(s[1..])
    else if |s| == 1 || Nibble(s[0]).None? || Nibble(s[1]).None? || FromHex(s[2..]).None? then None
    else Some([PairValue(s[0], s[1])] + FromHex(s[2..]).value)
  }

  function PairValue(a: char, b: char): Byte
    requires Nibble(a).Some? && Nibble(b).Some?
  {
    16 * Nibble(a).value + Nibble(b).value
  }

  function LowerDigit(n: nat): (c: char)
    requires n < 16
    ensures Nibble(c) == Some(n) && !IsSpace(c)
  {
    if n < 10 then ('0' as int + n) as char else ('a' as int + n - 10) as char
  }

  /** `hex()` of some bytes. */
  function ToHex(b: Bytes): (s: string)
    ensures |s| == 2 * |b|
  {
    if b == [] then "" else [LowerDigit(b[0] / 16), LowerDigit(b[0] % 16)] + ToHex(b[1..])
  }

  function Spaces(n: nat): (s: string)
    ensures |s| == n
  {
    if n == 0 then "" else " " + Spaces(n - 1)
  }

  lemma {:induction false} SpacesAreNothing(n: nat)
    ensures FromHex(Spaces(n)) == Some([])
  {
    if n > 0 {
      SpacesAreNothing(n - 1);
      assert Spaces(n)[1..] == Spaces(n - 1);
    }
  }

  /** Text made by `hex()` reads back, and so does it with spaces behind. */
  lemma {:induction false} HexReadsBack(b: Bytes, n: nat)
    ensures FromHex(ToHex(b) + Spaces(n)) == Some(b)
  {
    var s := ToHex(b) + Spaces(n);
    if b == [] {
      SpacesAreNothing(n);
      assert s == Spaces(n);
    } else {
      HexReadsBack(b[1..], n);
      assert s[2..] == ToHex(b[1..]) + Spaces(n);
      assert PairValue(s[0], s[1]) == b[0];
      assert b == [b[0]] + b[1..];
    }
  }

  /** What `bytes.fromhex` makes of a text; nothing where it would raise. */
  function Dec(t: string): Bytes { if FromHex(t).Some? then FromHex(t).value else [] }

  lemma HexDecodes(b: Bytes)
    ensures FromHex(ToHex(b)) == Some(b) && Dec(ToHex(b)) == b
  {
    HexReadsBack(b, 0);
    assert ToHex(b) + Spaces(0) == ToHex(b);
  }

  lemma HexInjective(a: Bytes, b: Bytes)
    requires ToHex(a) == ToHex(b)
    ensures a == b
  {
    HexDecodes(a);
    HexDecodes(b);
  }

  /** The same digit as a capital letter. */
  function Capital(c: char): char {
    if 'a' <= c <= 'f' then (c as int - 'a' as int + 'A' as int) as char else c
  }

  function Capitals(s: string): (t: string)
    ensures |t| == |s|
  {
    if s == "" then "" else [Capital(s[0])] + Capitals(s[1..])
  }

  /** Capital letters read as the small ones do. */
  lemma {:induction false} CaseMakesNoDifference(s: string)
    ensures FromHex(Capitals(s)) == FromHex(s)
    decreases |s|
  {
    var t := Capitals(s);
    if s != "" {
      assert t[1..] == Capitals(s[1..]);
      CaseMakesNoDifference(s[1..]);
      if |s| > 1 {
        assert t[1] == Capital(s[1]) && t[2..] == Capitals(s[2..]);
        CaseMakesNoDifference(s[2..]);
      }
    }
  }
}
