/**
 WebSocket frames (sections 5.2 and 5.3 of RFC 6455) as the client writes and
 reads them, and the receive loop over a stream that arrives in pieces.
 */
module Frames {
  import opened Wrappers
  import opened Octets

  // ---- numbers in network byte order -----------------------------------

  function Pow256(k: nat): nat { if k == 0 then 1 else 256 * Pow256(k - 1) }

  /** `n.to_bytes(k, "big")`. */
  function ToBytes(n: nat, k: nat): (bs: Bytes)
    ensures |bs| == k
  {
    if k == 0 then [] else ToBytes(n / 256, k - 1) + [n % 256]
  }

  /** `int.from_bytes(bs, "big")`. */
  function FromBytes(bs: Bytes): nat {
    if bs == [] then 0 else 256 * FromBytes(bs[..|bs| - 1]) + bs[|bs| - 1]
  }

  lemma {:induction false} FromToBytes(n: nat, k: nat)
    requires n < Pow256(k)
    ensures FromBytes(ToBytes(n, k)) == n
  {
    if k > 0 {
      FromToBytes(n / 256, k - 1);
      var bs := ToBytes(n, k);
      assert bs[..|bs| - 1] == ToBytes(n / 256, k - 1);
    }
  }

  /** The first octet counts most. */
  lemma {:induction false} FirstCountsMost(b: Byte, rest: Bytes)
    ensures FromBytes([b] + rest) == b * Pow256(|rest|) + FromBytes(rest)
  {
    var all := [b] + rest;
    if rest == [] {
      assert all[..0] == [] && FromBytes(all) == 256 * FromBytes([]) + b;
    } else {
      var n := |rest| - 1;
      FirstCountsMost(b, rest[..n]);
      assert all[..n + 1] == [b] + rest[..n] && all[n + 1] == rest[n];
      assert FromBytes(all) == 256 * (b * Pow256(n) + FromBytes(rest[..n])) + rest[n];
    }
  }

  // ---- one frame -------------------------------------------------------

  function Pow2(k: nat): nat { if k == 0 then 1 else 2 * Pow2(k - 1) }

  /** Exclusive or of two numbers. */
  function XorNat(a: nat, b: nat): nat
    decreases a + b
  {
    if a == 0 && b == 0 then 0 else 2 * XorNat(a / 2, b / 2) + (a + b) % 2
  }

  lemma {:induction false} XorFits(a: nat, b: nat, k: nat)
    requires a < Pow2(k) && b < Pow2(k)
    ensures XorNat(a, b) < Pow2(k)
  {
    if k > 0 { XorFits(a / 2, b / 2, k - 1); }
  }

  function Xor(a: Byte, b: Byte): Byte {
    assert Pow2(8) == 256 by { assert Pow2(4) == 16 && Pow2(6) == 64; }
    XorFits(a, b, 8);
    XorNat(a, b)
  }

  /** One bit split off. */
  lemma XorHalves(a: nat, b: nat)
    ensures XorNat(a, b) / 2 == XorNat(a / 2, b / 2) && XorNat(a, b) % 2 == (a + b) % 2
  {
  }

  /** Bit `i` of a number. */
  function Bit(a: nat, i: nat): nat { if i == 0 then a % 2 else Bit(a / 2, i - 1) }

  /** Every bit is set in one of the two and not in the other. */
  lemma {:induction false} XorIsBitwise(a: nat, b: nat, i: nat)
    ensures Bit(XorNat(a, b), i) == 1 <==> Bit(a, i) != Bit(b, i)
    decreases i
  {
    XorHalves(a, b);
    if i > 0 { XorIsBitwise(a / 2, b / 2, i - 1); } else { SumIsOdd(a, b); }
  }

  lemma SumIsOdd(a: nat, b: nat)
    ensures (a + b) % 2 == 1 <==> a % 2 != b % 2
  {
  }

  lemma Parity(x: nat, a: nat, b: nat)
    requires x % 2 == (a + b) % 2
    ensures (x + b) % 2 == a % 2
  {
    var p, q := a % 2, b % 2;
    assert a == 2 * (a / 2) + p && b == 2 * (b / 2) + q && x == 2 * (x / 2) + (a + b) % 2;
  }

  lemma {:induction false} XorNatTwice(a: nat, b: nat)
    ensures XorNat(XorNat(a, b), b) == a
    decreases a + b
  {
    if a != 0 || b != 0 {
      var r := XorNat(a, b);
      XorHalves(a, b);
      XorHalves(r, b);
      Parity(r, a, b);
      XorNatTwice(a / 2, b / 2);
    }
  }

  lemma XorTwice(a: Byte, b: Byte)
    ensures Xor(Xor(a, b), b) == a
  {
    XorNatTwice(a, b);
  }

  /** Section 5.3: octet `i` is combined with octet `i` modulo 4 of the key. */
  function Mask(data: Bytes, mk: Bytes): (r: Bytes)
    requires |mk| == 4
    ensures |r| == |data|
  {
    if data == [] then []
    else
      var n := |data| - 1;
      Mask(data[..n], mk) + [Xor(data[n], mk[n % 4])]
  }

  lemma {:induction false} MaskAt(data: Bytes, mk: Bytes, i: nat)
    requires |mk| == 4 && i < |data|
    ensures Mask(data, mk)[i] == Xor(data[i], mk[i % 4])
  {
    if i < |data| - 1 { MaskAt(data[..|data| - 1], mk, i); }
  }

  lemma {:induction false} MaskTwice(data: Bytes, mk: Bytes)
    requires |mk| == 4
    ensures Mask(Mask(data, mk), mk) == data
  {
    if data != [] {
      var n := |data| - 1;
      var m := Mask(data, mk);
      assert m[..n] == Mask(data[..n], mk) && m[n] == Xor(data[n], mk[n % 4]);
      MaskTwice(data[..n], mk);
      XorTwice(data[n], mk[n % 4]);
    }
  }

  /** The second octet and the length octets after it; None when no length form is long enough. */
  function LengthField(n: nat, masked: bool): Option<Bytes> {
    var flag := if masked then 0x80 else 0;
    if n <= 125 then Some([flag + n])
    else if n <= 65535 then Some([flag + 126] + ToBytes(n, 2))
    else if n < Pow256(8) then Some([flag + 127] + ToBytes(n, 8))
    else None
  }

  /** A frame with first octet `b0`, masked when there is a key. */
  function Encoded(b0: Byte, mk: Option<Bytes>, payload: Bytes): Option<Bytes>
    requires mk.Some? ==> |mk.value| == 4
  {
    match LengthField(|payload|, mk.Some?)
    case None => None
    case Some(length) =>
      Some([b0] + length + (if mk.Some? then mk.value + Mask(payload, mk.value) else payload))
  }

  /** `_frame`: a final text frame under a random mask; None where `to_bytes` would raise. */
  function Frame(payload: Bytes, mk: Bytes): Option<Bytes>
    requires |mk| == 4
  {
    Encoded(0x81, Some(mk), payload)
  }

  /** `_parse` returns no payload and the buffer, or a payload and what follows the frame. */
  datatype Parsed = NeedMore | Payload(data: Bytes, rest: Bytes)

  /** The text CLOSE, which stands for a close frame. */
  const CLOSE: Bytes := [67, 76, 79, 83, 69]

  /** What the client takes a frame for: a close, nothing for a ping, and else its data. */
  function Meaning(b0: Byte, data: Bytes): Bytes {
    if b0 % 0x10 == 0x08 then CLOSE else if b0 % 0x10 == 0x09 then [] else data
  }

  /** Where the mask or the data starts, and the payload length; None when the header is not there yet. */
  function Header(buf: Bytes): Option<(nat, nat)> {
    if |buf| < 2 then None
    else
      var plen := buf[1] % 0x80;
      if plen == 126 then (if |buf| < 4 then None else Some((4, FromBytes(buf[2..4]))))
      else if plen == 127 then (if |buf| < 10 then None else Some((10, FromBytes(buf[2..10]))))
      else Some((2, plen))
  }

  /** The data of a frame, which starts at `off` behind its mask, if it has one. */
  function Data(buf: Bytes, off: nat, plen: nat, masked: bool): Bytes
    requires off + plen <= |buf| && (masked ==> off >= 4)
  {
    if masked then Mask(buf[off..off + plen], buf[off - 4..off]) else buf[off..off + plen]
  }

  /** The frame behind a complete header. */
  function Cut(buf: Bytes, start: nat, plen: nat): Parsed
    requires |buf| >= 2 && start >= 2
  {
    var masked := buf[1] >= 0x80;
    var off := if masked then start + 4 else start;
    if |buf| < off + plen then NeedMore
    else Payload(Meaning(buf[0], Data(buf, off, plen, masked)), buf[off + plen..])
  }

  /** `_parse`. */
  function Parse(buf: Bytes): Parsed {
    match Header(buf)
    case None => NeedMore
    case Some((start, plen)) => Cut(buf, start, plen)
  }

  // ---- reading back what was written -----------------------------------

  lemma Powers()
    ensures Pow256(2) == 65536 && Pow256(8) > 65536
  {
    assert Pow256(1) == 256 && Pow256(2) == 65536 && Pow256(3) == 256 * Pow256(2) && Pow256(4) == 256 * Pow256(3);
    assert Pow256(5) == 256 * Pow256(4) && Pow256(6) == 256 * Pow256(5) && Pow256(7) == 256 * Pow256(6);
  }

  lemma LongHeader(buf: Bytes, k: nat, n: nat)
    requires (k == 2 && |buf| >= 4 && buf[1] % 0x80 == 126) || (k == 8 && |buf| >= 10 && buf[1] % 0x80 == 127)
    requires n < Pow256(k) && buf[2..2 + k] == ToBytes(n, k)
    ensures Header(buf) == Some((2 + k, n))
  {
    FromToBytes(n, k);
  }

  /** The header that was written is the header that is read. */
  lemma HeaderOfLength(b0: Byte, n: nat, masked: bool, rest: Bytes)
    requires LengthField(n, masked).Some?
    ensures var length := LengthField(n, masked).value; var buf := [b0] + length + rest;
      Header(buf) == Some((1 + |length|, n)) && (buf[1] >= 0x80 <==> masked) && buf[0] == b0
  {
    var length := LengthField(n, masked).value;
    var buf := [b0] + length + rest;
    Powers();
    if n > 65535 {
      assert buf[2..10] == ToBytes(n, 8);
      LongHeader(buf, 8, n);
    } else if n > 125 {
      assert buf[2..4] == ToBytes(n, 2);
      LongHeader(buf, 2, n);
    }
  }

  /**
   A frame the client writes is final, text, masked, in the shortest of the three forms,
   with the key in front of the payload and octet `i` combined with octet `i` modulo 4 of it.
   */
  lemma FrameIs(payload: Bytes, mk: Bytes, f: Bytes)
    requires |mk| == 4 && Frame(payload, mk) == Some(f)
    ensures var n := |payload|; var long := if n <= 125 then 0 else if n <= 65535 then 2 else 8;
      && |f| == 2 + long + 4 + n && f[0] == 0x81 && f[1] == 0x80 + (if long == 0 then n else if long == 2 then 126 else 127)
      && (long > 0 ==> FromBytes(f[2..2 + long]) == n)
      && f[2 + long..6 + long] == mk && (forall i | 0 <= i < n :: f[6 + long + i] == Xor(payload[i], mk[i % 4]))
  {
    var n, masked := |payload|, Mask(payload, mk);
    var length := LengthField(n, true).value;
    LengthFieldIs(n, length);
    Layout(f, length, mk, masked);
    assert |f| == 5 + |length| + n;
    forall i | 0 <= i < n ensures f[5 + |length| + i] == Xor(payload[i], mk[i % 4]) { MaskAt(payload, mk, i); }
  }

  lemma Layout(f: Bytes, length: Bytes, mk: Bytes, masked: Bytes)
    requires f == [0x81] + length + (mk + masked) && |mk| == 4 && |length| > 0
    ensures f[0] == 0x81 && f[1..1 + |length|] == length && f[1] == length[0] && f[2..1 + |length|] == length[1..]
    ensures f[1 + |length|..5 + |length|] == mk && forall i | 0 <= i < |masked| :: f[5 + |length| + i] == masked[i]
  {
  }

  lemma LengthFieldIs(n: nat, length: Bytes)
    requires LengthField(n, true) == Some(length)
    ensures var long := if n <= 125 then 0 else if n <= 65535 then 2 else 8;
      && |length| == 1 + long && length[0] == 0x80 + (if long == 0 then n else if long == 2 then 126 else 127)
      && (long > 0 ==> FromBytes(length[1..]) == n)
  {
    Powers();
    if n > 65535 {
      assert length[1..] == ToBytes(n, 8);
      FromToBytes(n, 8);
    } else if n > 125 {
      assert length[1..] == ToBytes(n, 2);
      FromToBytes(n, 2);
    }
  }

  /** Any frame, masked or not, in any of the three length classes, reads back, whatever follows it. */
  lemma ParseEncoded(b0: Byte, mk: Option<Bytes>, payload: Bytes, f: Bytes, rest: Bytes)
    requires mk.Some? ==> |mk.value| == 4
    requires Encoded(b0, mk, payload) == Some(f)
    ensures Parse(f + rest) == Payload(Meaning(b0, payload), rest)
  {
    var length := LengthField(|payload|, mk.Some?).value;
    var body := if mk.Some? then mk.value + Mask(payload, mk.value) else payload;
    var buf := f + rest;
    assert buf == [b0] + length + (body + rest);
    HeaderOfLength(b0, |payload|, mk.Some?, body + rest);
    var off := 1 + |length| + (if mk.Some? then 4 else 0);
    assert buf[off + |payload|..] == rest;
    if mk.Some? {
      assert buf[off - 4..off] == mk.value;
      assert buf[off..off + |payload|] == Mask(payload, mk.value);
      MaskTwice(payload, mk.value);
    } else {
      assert buf[off..off + |payload|] == payload;
    }
  }

  /** The opcode decides what a whole frame is taken for: 8 is a close, 9 a ping, and all others are data. */
  lemma OpcodeDecides(b0: Byte, mk: Option<Bytes>, payload: Bytes, f: Bytes, rest: Bytes)
    requires (mk.Some? ==> |mk.value| == 4) && Encoded(b0, mk, payload) == Some(f)
    ensures Parse(f + rest).Payload? && Parse(f + rest).rest == rest
    ensures b0 % 16 == 8 ==> Parse(f + rest).data == [67, 76, 79, 83, 69]
    ensures b0 % 16 == 9 ==> Parse(f + rest).data == []
    ensures b0 % 16 != 8 && b0 % 16 != 9 ==> Parse(f + rest).data == payload
  {
    ParseEncoded(b0, mk, payload, f, rest);
  }

  lemma LengthFieldFits(n: nat)
    ensures LengthField(n, true).Some? <==> n < Pow256(8)
  {
    Powers();
  }

  /** `_frame` works for every payload whose length fits the longest form. */
  lemma FrameExists(payload: Bytes, mk: Bytes)
    requires |mk| == 4
    ensures Frame(payload, mk).Some? <==> |payload| < Pow256(8)
  {
    LengthFieldFits(|payload|);
  }

  /** A frame that is neither a close nor a ping reads back as its data. */
  lemma ParseData(b0: Byte, mk: Option<Bytes>, payload: Bytes, f: Bytes, rest: Bytes)
    requires (mk.Some? ==> |mk.value| == 4) && Encoded(b0, mk, payload) == Some(f)
    requires Meaning(b0, payload) == payload
    ensures Parse(f + rest) == Payload(payload, rest)
  {
    ParseEncoded(b0, mk, payload, f, rest);
  }

  /** `_parse(_frame(p) + rest)` is `(p, rest)`. */
  lemma ParseFrame(payload: Bytes, mk: Bytes, f: Bytes, rest: Bytes)
    requires |mk| == 4 && Frame(payload, mk) == Some(f)
    ensures Parse(f + rest) == Payload(payload, rest)
  {
    ParseData(0x81, Some(mk), payload, f, rest);
  }

  // ---- a stream in pieces ----------------------------------------------

  lemma HeaderStable(buf: Bytes, more: Bytes)
    requires Header(buf).Some?
    ensures Header(buf + more) == Header(buf)
    ensures Header(buf).value.0 <= |buf|
  {
    var all := buf + more;
    assert |buf| >= 4 ==> all[2..4] == buf[2..4];
    assert |buf| >= 10 ==> all[2..10] == buf[2..10];
  }

  lemma DataStable(buf: Bytes, more: Bytes, off: nat, plen: nat, masked: bool)
    requires off + plen <= |buf| && (masked ==> off >= 4)
    ensures Data(buf + more, off, plen, masked) == Data(buf, off, plen, masked)
  {
    SliceOfMore(buf, more, off, off + plen);
    if masked { SliceOfMore(buf, more, off - 4, off); }
  }

  lemma TailOfMore(buf: Bytes, more: Bytes, lo: nat)
    requires lo <= |buf|
    ensures (buf + more)[lo..] == buf[lo..] + more
  {
  }

  lemma CutStable(buf: Bytes, all: Bytes, start: nat, plen: nat, data: Bytes, rest: Bytes, more: Bytes)
    requires |buf| >= 2 && start >= 2 && Cut(buf, start, plen) == Payload(data, rest) && all == buf + more
    ensures Cut(all, start, plen) == Payload(data, rest + more)
  {
    var masked := buf[1] >= 0x80;
    var off := if masked then start + 4 else start;
    DataStable(buf, more, off, plen, masked);
    TailOfMore(buf, more, off + plen);
    CutAt(buf, start, plen, off, masked, Data(buf, off, plen, masked));
    CutAt(all, start, plen, off, masked, Data(buf, off, plen, masked));
  }

  lemma CutAt(buf: Bytes, start: nat, plen: nat, off: nat, masked: bool, data: Bytes)
    requires |buf| >= 2 && start >= 2 && masked == (buf[1] >= 0x80) && off == (if masked then start + 4 else start) && off + plen <= |buf|
    requires data == Data(buf, off, plen, masked)
    ensures Cut(buf, start, plen) == Payload(Meaning(buf[0], data), buf[off + plen..])
  {
  }

  /** A completed parse is not changed by bytes that arrive later. */
  lemma ParseStable(buf: Bytes, more: Bytes)
    requires Parse(buf).Payload?
    ensures Parse(buf + more) == Payload(Parse(buf).data, Parse(buf).rest + more)
  {
    HeaderStable(buf, more);
    CutStable(buf, buf + more, Header(buf).value.0, Header(buf).value.1, Parse(buf).data, Parse(buf).rest, more);
  }

  lemma SliceOfMore(buf: Bytes, more: Bytes, lo: nat, hi: nat)
    requires lo <= hi <= |buf|
    ensures (buf + more)[lo..hi] == buf[lo..hi]
  {
  }

  /** Each parsed frame shortens the buffer, so the inner loop ends. */
  lemma ParseShortens(buf: Bytes)
    requires Parse(buf).Payload?
    ensures |Parse(buf).rest| < |buf| && Parse(buf).rest == buf[|buf| - |Parse(buf).rest|..]
  {
  }

  /** What a buffer comes to: the payloads handed on, what is left, and whether a close was read. */
  datatype Drained = Drained(payloads: seq<Bytes>, rest: Bytes, closed: bool)

  /** One payload handed on before the others; empty ones are not. */
  function Push(data: Bytes, d: Drained): Drained {
    Drained((if data == [] then [] else [data]) + d.payloads, d.rest, d.closed)
  }

  /** First what `payloads` holds, then what `e` does. */
  function Join(payloads: seq<Bytes>, e: Drained): Drained {
    Drained(payloads + e.payloads, e.rest, e.closed)
  }

  lemma PushThenJoin(data: Bytes, d: Drained, e: Drained)
    ensures Join(Push(data, d).payloads, e) == Push(data, Join(d.payloads, e))
  {
  }

  lemma JoinThenPush(p: seq<Bytes>, data: Bytes, d: Drained)
    ensures Join(p, Push(data, d)) == Join(if data == [] then p else p + [data], d)
  {
    if data != [] { assert p + ([data] + d.payloads) == (p + [data]) + d.payloads; }
  }

  function Drain(buf: Bytes): Drained
    decreases |buf|
  {
    match Parse(buf)
    case NeedMore => Drained([], buf, false)
    case Payload(data, rest) =>
      ParseShortens(buf);
      if IsClose(data) then Drained([], rest, true) else Push(data, Drain(rest))
  }

  predicate IsClose(data: Bytes) { data == CLOSE }

  lemma DrainUnfolds(buf: Bytes, data: Bytes, rest: Bytes)
    requires Parse(buf) == Payload(data, rest)
    ensures Drain(buf) == if IsClose(data) then Drained([], rest, true) else Push(data, Drain(rest))
  {
  }

  /** Draining early and going on with the rest is draining once, up to the first close. */
  lemma {:induction false} DrainSplits(a: Bytes, b: Bytes)
    ensures var d := Drain(a);
      if d.closed then Drain(a + b).closed && Drain(a + b).payloads == d.payloads
      else Drain(a + b) == Join(d.payloads, Drain(d.rest + b))
    decreases |a|
  {
    match Parse(a) {
      case NeedMore =>
        assert Join([], Drain(a + b)) == Drain(a + b);
      case Payload(data, rest) =>
        ParseStable(a, b);
        ParseShortens(a);
        DrainUnfolds(a, data, rest);
        DrainUnfolds(a + b, data, rest + b);
        if !IsClose(data) {
          DrainSplits(rest, b);
          PushThenJoin(data, Drain(rest), Drain(Drain(rest).rest + b));
        }
    }
  }

  function Concat(chunks: seq<Bytes>): Bytes {
    if chunks == [] then [] else chunks[0] + Concat(chunks[1..])
  }

  /** The pieces before the first empty one, which is the end of the connection. */
  function Arrived(chunks: seq<Bytes>): seq<Bytes> {
    if chunks == [] || chunks[0] == [] then [] else [chunks[0]] + Arrived(chunks[1..])
  }

  /** The inner loop: payloads are handed on until the buffer holds no whole frame. */
  method DrainBuffer(buffer: Bytes) returns (payloads: seq<Bytes>, rest: Bytes, closed: bool)
    ensures Drained(payloads, rest, closed) == Drain(buffer)
  {
    payloads, rest, closed := [], buffer, false;
    assert Join([], Drain(buffer)) == Drain(buffer);
    while true
      invariant !closed && Drain(buffer) == Join(payloads, Drain(rest))
      decreases |rest|
    {
      match Parse(rest) {
        case NeedMore => return;
        case Payload(data, tail) =>
          ParseShortens(rest);
          DrainUnfolds(rest, data, tail);
          rest := tail;
          if IsClose(data) { closed := true; return; }
          JoinThenPush(payloads, data, Drain(tail));
          if data != [] { payloads := payloads + [data]; }
      }
    }
  }

  /** What the loop hands on, and whether the end reaches `on_close`, which a close frame prevents. */
  datatype Received = Received(emitted: seq<Bytes>, reported: bool)

  /** The loop, piece by piece, with `buf` not parsed yet. */
  function Receive(chunks: seq<Bytes>, buf: Bytes): Received {
    if chunks == [] || chunks[0] == [] then Received([], true)
    else
      var d := Drain(buf + chunks[0]);
      if d.closed then Received(d.payloads, false) else After(d.payloads, Receive(chunks[1..], d.rest))
  }

  function After(payloads: seq<Bytes>, r: Received): Received {
    Received(payloads + r.emitted, r.reported)
  }

  lemma AfterAfter(p: seq<Bytes>, q: seq<Bytes>, r: Received)
    ensures After(p, After(q, r)) == After(p + q, r)
  {
  }

  lemma ReceiveUnfolds(chunks: seq<Bytes>, buf: Bytes, i: nat, d: Drained)
    requires i < |chunks| && chunks[i] != [] && d == Drain(buf + chunks[i])
    ensures Receive(chunks[i..], buf) ==
      if d.closed then Received(d.payloads, false) else After(d.payloads, Receive(chunks[i + 1..], d.rest))
  {
    assert chunks[i..][1..] == chunks[i + 1..];
  }

  /** `_recv_loop` on a connection that stays its own. */
  method RecvLoop(chunks: seq<Bytes>) returns (emitted: seq<Bytes>, reported: bool)
    ensures Received(emitted, reported) == Receive(chunks, [])
  {
    var buf: Bytes, i := [], 0;
    emitted := [];
    ghost var all := Receive(chunks, []);
    NothingEmitted(chunks, all);
    while i < |chunks| && chunks[i] != []
      invariant i <= |chunks| && Remains(chunks, i, buf, emitted, all)
    {
      var payloads, rest, closed := DrainBuffer(buf + chunks[i]);
      TakesPiece(chunks, i, buf, emitted, all, Drained(payloads, rest, closed));
      if closed { return emitted + payloads, false; }
      emitted, buf, i := emitted + payloads, rest, i + 1;
    }
    NothingRemains(chunks, i, buf, emitted, all);
    reported := true;
  }

  /** The loop comes to `all`: what it has emitted, then what the pieces from `i` on come to. */
  predicate Remains(chunks: seq<Bytes>, i: nat, buf: Bytes, emitted: seq<Bytes>, all: Received)
    requires i <= |chunks|
  {
    all == After(emitted, Receive(chunks[i..], buf))
  }

  lemma NothingEmitted(chunks: seq<Bytes>, all: Received)
    requires all == Receive(chunks, [])
    ensures Remains(chunks, 0, [], [], all)
  {
    assert chunks[0..] == chunks;
  }

  lemma TakesPiece(chunks: seq<Bytes>, i: nat, buf: Bytes, emitted: seq<Bytes>, all: Received, d: Drained)
    requires i < |chunks| && chunks[i] != [] && Remains(chunks, i, buf, emitted, all) && d == Drain(buf + chunks[i])
    ensures if d.closed then all == Received(emitted + d.payloads, false) else Remains(chunks, i + 1, d.rest, emitted + d.payloads, all)
  {
    ReceiveUnfolds(chunks, buf, i, d);
    if !d.closed { AfterAfter(emitted, d.payloads, Receive(chunks[i + 1..], d.rest)); }
  }

  lemma NothingRemains(chunks: seq<Bytes>, i: nat, buf: Bytes, emitted: seq<Bytes>, all: Received)
    requires i <= |chunks| && Remains(chunks, i, buf, emitted, all) && (i < |chunks| ==> chunks[i] == [])
    ensures all == Received(emitted, true)
  {
    assert emitted + [] == emitted;
  }

  lemma WholeOf(d: Drained, r: Received, e: Drained)
    requires r == Received(e.payloads, !e.closed)
    ensures After(d.payloads, r) == Received(Join(d.payloads, e).payloads, !Join(d.payloads, e).closed)
  {
  }

  /** What comes out depends on the bytes that arrive, not on how they are cut into pieces. */
  lemma {:induction false} ChunkingDoesNotMatter(chunks: seq<Bytes>, buf: Bytes)
    requires Drain(buf) == Drained([], buf, false)
    ensures var d := Drain(buf + Concat(Arrived(chunks))); Receive(chunks, buf) == Received(d.payloads, !d.closed)
  {
    if chunks == [] || chunks[0] == [] {
      assert buf + [] == buf;
    } else {
      var now, rest := buf + chunks[0], Concat(Arrived(chunks[1..]));
      assert Arrived(chunks)[1..] == Arrived(chunks[1..]);
      assert buf + (chunks[0] + rest) == now + rest;
      DrainSplits(now, rest);
      var d := Drain(now);
      if !d.closed {
        RestIsPartial(now);
        ChunkingDoesNotMatter(chunks[1..], d.rest);
        WholeOf(d, Receive(chunks[1..], d.rest), Drain(d.rest + rest));
      }
    }
  }

  /** What is left of a buffer without a close holds no whole frame. */
  lemma {:induction false} RestIsPartial(buf: Bytes)
    requires !Drain(buf).closed
    ensures Drain(Drain(buf).rest) == Drained([], Drain(buf).rest, false)
    decreases |buf|
  {
    if Parse(buf).Payload? {
      ParseShortens(buf);
      RestIsPartial(Parse(buf).rest);
    }
  }

  // ---- from sender to receiver -----------------------------------------

  /** The stream of several text frames, each under its own mask. */
  function Stream(ps: seq<(Bytes, Bytes)>): Option<Bytes>
    requires forall p | p in ps :: |p.1| == 4
  {
    if ps == [] then Some([])
    else
      var f, r := Frame(ps[0].0, ps[0].1), Stream(ps[1..]);
      if f.Some? && r.Some? then Some(f.value + r.value) else None
  }

  /** What comes out: every non-empty payload before the first that reads CLOSE. */
  function HandedOn(ps: seq<(Bytes, Bytes)>): seq<Bytes> {
    if ps == [] || ps[0].0 == [67, 76, 79, 83, 69] then []
    else (if ps[0].0 == [] then [] else [ps[0].0]) + HandedOn(ps[1..])
  }

  /** Drained in one piece, a stream of frames gives what was sent, in order, up to the first CLOSE. */
  lemma {:induction false} SentIsDrained(ps: seq<(Bytes, Bytes)>)
    requires (forall p | p in ps :: |p.1| == 4) && Stream(ps).Some?
    ensures var d := Drain(Stream(ps).value);
      && d.payloads == HandedOn(ps)
      && (d.closed <==> exists p :: p in ps && p.0 == [67, 76, 79, 83, 69])
      && (!d.closed ==> d.rest == [])
  {
    if ps != [] {
      ParseFrame(ps[0].0, ps[0].1, Frame(ps[0].0, ps[0].1).value, Stream(ps[1..]).value);
      if IsClose(ps[0].0) {
        assert ps[0] in ps;
      } else {
        SentIsDrained(ps[1..]);
        assert forall p :: p in ps <==> p == ps[0] || p in ps[1..];
      }
    }
  }

  lemma FromTheStart(chunks: seq<Bytes>, all: Bytes)
    requires Concat(Arrived(chunks)) == all
    ensures var d := Drain(all); Receive(chunks, []) == Received(d.payloads, !d.closed)
  {
    assert [] + all == all;
    ChunkingDoesNotMatter(chunks, []);
  }

  /**
   However the stream is cut into pieces, the loop hands on every non-empty payload sent
   before the first that reads CLOSE, in order, and reports the end if there is none.
   */
  lemma SentIsHandedOn(ps: seq<(Bytes, Bytes)>, chunks: seq<Bytes>)
    requires (forall p | p in ps :: |p.1| == 4) && Stream(ps) == Some(Concat(Arrived(chunks)))
    ensures Receive(chunks, []) == Received(HandedOn(ps), !exists p :: p in ps && p.0 == [67, 76, 79, 83, 69])
  {
    SentIsDrained(ps);
    FromTheStart(chunks, Stream(ps).value);
  }
}
