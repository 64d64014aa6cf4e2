/**
 Reading the S3DR messages of a history: each one is taken from the encrypted cache
 when it is there, and otherwise decrypted once and put there.
 */
module HistoryCache {
  import opened Wrappers
  import opened Keys
  import R = Ratchet
  import S = SessionMap
  import Text

  /** A cached plaintext; `wire` is the hash of the wire it was sent as, for own messages. */
  datatype Line = Line(id: int, body: string, wire: Option<string>)

  /** An S3DR message of the server's history. */
  datatype Item = Item(id: int, sender: int, deleted: bool, wire: R.Wire)

  /** What the client shows for it. */
  datatype Shown = Body(text: string) | Hidden | Deleted

  /** The user, `unpack_plaintext`, `wire_cache_key`, and whether the conversation is cached. */
  datatype Client = Client(me: int, unpack: string -> string, hash: R.Wire -> string, cached: bool)

  /** The cache file and the states of the sessions known. */
  datatype Reader = Reader(lines: seq<Line>, held: map<string, R.State>)

  // ---- the cache -------------------------------------------------------

  /** The last line with an id. */
  function FindId(lines: seq<Line>, id: int): Option<string> {
    if lines == [] then None
    else if lines[|lines| - 1].id == id then Some(lines[|lines| - 1].body)
    else FindId(lines[..|lines| - 1], id)
  }

  function FindWire(lines: seq<Line>, hash: string): Option<string> {
    if lines == [] then None
    else if lines[|lines| - 1].wire == Some(hash) then Some(lines[|lines| - 1].body)
    else FindWire(lines[..|lines| - 1], hash)
  }

  /** By id if there is one and it is known, else by the hash of the wire. */
  function Hit(c: Client, lines: seq<Line>, item: Item): Option<string> {
    if !c.cached then None
    else if item.id != 0 && FindId(lines, item.id).Some? then FindId(lines, item.id)
    else FindWire(lines, c.hash(item.wire))
  }

  /** `cache_message`. */
  function Cached(c: Client, lines: seq<Line>, id: int, body: string): seq<Line> {
    if c.cached && id != 0 then lines + [Line(id, body, None)] else lines
  }

  // ---- one message -----------------------------------------------------

  /** What trimming leaves of `seen`, after an accepted wire or a restored snapshot. */
  function Trimmed(s: R.State, outcome: R.Decryption): set<string> {
    match outcome
    case Opened(t, _) => if |t.seen| > R.SEEN_LIMIT then Text.LargestOf(t.seen, R.SEEN_KEPT) else t.seen
    case Refused(_, _) => Text.LargestOf(s.seen, R.SEEN_KEPT)
  }

  lemma TrimmedMatches(s: R.State, outcome: R.Decryption)
    ensures match outcome
      case Opened(t, _) => R.Remembers(t.seen, Trimmed(s, outcome))
      case Refused(_, _) => R.Restores(s, s.(seen := Trimmed(s, outcome)))
  {
    match outcome
    case Opened(t, _) => Text.LargestOfIs(t.seen, R.SEEN_KEPT);
    case Refused(_, _) => Text.LargestOfIs(s.seen, R.SEEN_KEPT);
  }

  /** A message the cache does not have. */
  function ReadFresh(c: Client, s: Reader, item: Item, own: Pub): (Reader, Shown) {
    if item.sender == c.me || s.held == map[] then (s, Hidden)
    else
      var t := S.TargetSid(s.held.Keys, Text.Min(s.held.Keys), item.wire);
      var outcome := R.Decrypt(s.held[t], item.wire, own);
      var held := S.AfterRead(s.held, item.wire, own, Trimmed(s.held[t], outcome));
      match outcome
      case Refused(_, _) => (s.(held := held), Hidden)
      case Opened(_, plain) => (Reader(Cached(c, s.lines, item.id, c.unpack(plain)), held), Body(c.unpack(plain)))
  }

  /** One turn of the loop; `index` is the cache as it was when the pass began. */
  function ReadOne(c: Client, index: seq<Line>, s: Reader, item: Item, own: Pub): (Reader, Shown) {
    if item.deleted then (s, Deleted)
    else
      match Hit(c, index, item)
      case Some(body) => (s.(lines := Cached(c, s.lines, item.id, c.unpack(body))), Body(c.unpack(body)))
      case None => ReadFresh(c, s, item, own)
  }

  // ---- one pass --------------------------------------------------------

  /** The state before each message and after the last; `owns` are the key pairs a ratchet step would generate. */
  function Pass(c: Client, s: Reader, items: seq<Item>, owns: seq<Pub>): (r: Reader)
    requires |owns| == |items|
  {
    if items == [] then s
    else
      var n := |items| - 1;
      ReadOne(c, s.lines, Pass(c, s, items[..n], owns[..n]), items[n], owns[n]).0
  }

  /** What message `i` of a pass is shown as. */
  function ShownAt(c: Client, s: Reader, items: seq<Item>, owns: seq<Pub>, i: nat): Shown
    requires |owns| == |items| && i < |items|
  {
    ReadOne(c, s.lines, Pass(c, s, items[..i], owns[..i]), items[i], owns[i]).1
  }

  class HistoryReader {
    const client: Client
    var lines: seq<Line>
    var held: map<string, R.State>

    function View(): Reader reads this { Reader(lines, held) }

    constructor (c: Client, s: Reader)
      ensures client == c && View() == s
    {
      client, lines, held := c, s.lines, s.held;
    }

    /** `decrypt_history_messages` on the S3DR messages of a history. */
    method DecryptHistory(items: seq<Item>, owns: seq<Pub>) returns (shown: seq<Shown>)
      requires |owns| == |items|
      modifies this
      ensures View() == Pass(client, old(View()), items, owns)
      ensures |shown| == |items| && forall i | 0 <= i < |items| :: shown[i] == ShownAt(client, old(View()), items, owns, i)
    {
      var index := lines;
      shown := [];
      for i := 0 to |items|
        invariant View() == Pass(client, old(View()), items[..i], owns[..i])
        invariant |shown| == i && forall j | 0 <= j < i :: shown[j] == ShownAt(client, old(View()), items, owns, j)
      {
        assert items[..i + 1][..i] == items[..i] && owns[..i + 1][..i] == owns[..i];
        var body := Read(index, items[i], owns[i]);
        shown := shown + [body];
      }
      assert items[..|items|] == items && owns[..|owns|] == owns;
    }

    /** One message of the loop. */
    method Read(index: seq<Line>, item: Item, own: Pub) returns (shown: Shown)
      modifies this
      ensures (View(), shown) == ReadOne(client, index, old(View()), item, own)
    {
      if item.deleted { return Deleted; }
      var hit := Hit(client, index, item);
      if hit.Some? {
        var plain := client.unpack(hit.value);
        lines := Cached(client, lines, item.id, plain);
        return Body(plain);
      }
      var next, text := ReadFresh(client, Reader(lines, held), item, own).0, ReadFresh(client, Reader(lines, held), item, own).1;
      lines, held := next.lines, next.held;
      shown := text;
    }
  }

  // ---- what later passes show ------------------------------------------

  /** What reading one message does to the line found for an id. */
  lemma ReadFinds(c: Client, index: seq<Line>, s: Reader, item: Item, own: Pub, id: int)
    requires c.cached && id != 0
    ensures var (t, shown) := ReadOne(c, index, s, item, own);
      FindId(t.lines, id) == if item.id == id && shown.Body? then Some(shown.text) else FindId(s.lines, id)
  {
    var (t, shown) := ReadOne(c, index, s, item, own);
    if shown.Body? && item.id != 0 {
      assert t.lines == s.lines + [Line(item.id, shown.text, None)];
      assert t.lines[..|t.lines| - 1] == s.lines;
    } else {
      assert t.lines == s.lines;
    }
  }

  /** A text in the cache that unpacking leaves alone is shown again, and costs no session anything. */
  lemma CachedIsShown(c: Client, index: seq<Line>, s: Reader, item: Item, own: Pub, b: string)
    requires c.cached && item.id != 0 && !item.deleted && FindId(index, item.id) == Some(b) && c.unpack(b) == b
    ensures var (t, shown) := ReadOne(c, index, s, item, own); shown == Body(b) && t.held == s.held
  {
  }

  /** Any pass keeps such a text. */
  lemma {:induction false} PassKeepsCached(c: Client, s: Reader, items: seq<Item>, owns: seq<Pub>, id: int, b: string)
    requires |owns| == |items| && c.cached && id != 0 && FindId(s.lines, id) == Some(b) && c.unpack(b) == b
    ensures FindId(Pass(c, s, items, owns).lines, id) == Some(b)
  {
    if items != [] {
      var n := |items| - 1;
      PassKeepsCached(c, s, items[..n], owns[..n], id, b);
      var before := Pass(c, s, items[..n], owns[..n]);
      ReadFinds(c, s.lines, before, items[n], owns[n], id);
      if items[n].id == id && !items[n].deleted { CachedIsShown(c, s.lines, before, items[n], owns[n], b); }
    }
  }

  predicate DistinctIds(items: seq<Item>) {
    forall i, j | 0 <= i < j < |items| :: items[i].id != items[j].id
  }

  /** A message read in a pass is in the cache after it. */
  lemma {:induction false} PassCaches(c: Client, s: Reader, items: seq<Item>, owns: seq<Pub>, i: nat)
    requires |owns| == |items| && c.cached && DistinctIds(items) && i < |items| && items[i].id != 0
    requires ShownAt(c, s, items, owns, i).Body?
    ensures FindId(Pass(c, s, items, owns).lines, items[i].id) == Some(ShownAt(c, s, items, owns, i).text)
  {
    var n := |items| - 1;
    PassUnfolds(c, s, items, owns);
    ReadFinds(c, s.lines, Pass(c, s, items[..n], owns[..n]), items[n], owns[n], items[i].id);
    if i < n {
      ShownEarlier(c, s, items, owns, i, n);
      PassCaches(c, s, items[..n], owns[..n], i);
    }
  }

  lemma PassUnfolds(c: Client, s: Reader, items: seq<Item>, owns: seq<Pub>)
    requires |owns| == |items| > 0
    ensures var n := |items| - 1;
      Pass(c, s, items, owns) == ReadOne(c, s.lines, Pass(c, s, items[..n], owns[..n]), items[n], owns[n]).0
  {
  }

  /** What a message is shown as does not depend on what follows it. */
  lemma ShownEarlier(c: Client, s: Reader, items: seq<Item>, owns: seq<Pub>, i: nat, n: nat)
    requires |owns| == |items| && i < n <= |items|
    ensures ShownAt(c, s, items[..n], owns[..n], i) == ShownAt(c, s, items, owns, i)
  {
    assert items[..n][..i] == items[..i] && owns[..n][..i] == owns[..i];
  }

  /** Passes over any histories, one after the other. */
  datatype Reading = Reading(items: seq<Item>, owns: seq<Pub>)

  function Passes(c: Client, s: Reader, rs: seq<Reading>): Reader
    requires forall r | r in rs :: |r.owns| == |r.items|
  {
    if rs == [] then s
    else
      var n := |rs| - 1;
      assert forall r | r in rs[..n] :: r in rs;
      assert rs[n] in rs;
      Pass(c, Passes(c, s, rs[..n]), rs[n].items, rs[n].owns)
  }

  lemma {:induction false} PassesKeepCached(c: Client, s: Reader, rs: seq<Reading>, id: int, b: string)
    requires (forall r | r in rs :: |r.owns| == |r.items|) && c.cached && id != 0 && FindId(s.lines, id) == Some(b) && c.unpack(b) == b
    ensures FindId(Passes(c, s, rs).lines, id) == Some(b)
  {
    if rs != [] {
      var n := |rs| - 1;
      assert forall r | r in rs[..n] :: r in rs;
      PassesKeepCached(c, s, rs[..n], id, b);
      PassKeepsCached(c, Passes(c, s, rs[..n]), rs[n].items, rs[n].owns, id, b);
    }
  }

  /**
   A message read in one pass has the same text in every later one, whatever passes
   come between, and reading it again leaves every session as it was.
   */
  lemma ReadAgainIsSame(c: Client, s: Reader, first: Reading, between: seq<Reading>, later: Reading, i: nat, k: nat)
    requires |first.owns| == |first.items| && |later.owns| == |later.items| && forall r | r in between :: |r.owns| == |r.items|
    requires c.cached && DistinctIds(first.items) && i < |first.items| && first.items[i].id > 0
    requires k < |later.items| && later.items[k].id == first.items[i].id && !later.items[k].deleted
    requires ShownAt(c, s, first.items, first.owns, i).Body?
    requires var b := ShownAt(c, s, first.items, first.owns, i).text; c.unpack(b) == b
    ensures var again := Passes(c, Pass(c, s, first.items, first.owns), between);
      && ShownAt(c, again, later.items, later.owns, k) == ShownAt(c, s, first.items, first.owns, i)
      && Pass(c, again, later.items[..k + 1], later.owns[..k + 1]).held == Pass(c, again, later.items[..k], later.owns[..k]).held
  {
    var shown, after := ShownAt(c, s, first.items, first.owns, i), Pass(c, s, first.items, first.owns);
    var id := first.items[i].id;
    PassCaches(c, s, first.items, first.owns, i);
    PassesKeepCached(c, after, between, id, shown.text);
    var again := Passes(c, after, between);
    assert later.items[..k + 1][..k] == later.items[..k] && later.owns[..k + 1][..k] == later.owns[..k];
    CachedIsShown(c, again.lines, Pass(c, again, later.items[..k], later.owns[..k]), later.items[k], later.owns[k], shown.text);
  }

  /** A pass over nothing but cached and deleted messages changes no session. */
  lemma {:induction false} CachedPassIsFree(c: Client, s: Reader, items: seq<Item>, owns: seq<Pub>)
    requires |owns| == |items| && forall i | 0 <= i < |items| :: items[i].deleted || Hit(c, s.lines, items[i]).Some?
    ensures Pass(c, s, items, owns).held == s.held
  {
    if items != [] { CachedPassIsFree(c, s, items[..|items| - 1], owns[..|owns| - 1]); }
  }

  /** So a history read completely can be read again, with the same texts, at no cost to any session. */
  lemma ReplayIsFree(c: Client, s: Reader, items: seq<Item>, owns: seq<Pub>, owns2: seq<Pub>)
    requires |owns| == |owns2| == |items| && c.cached && DistinctIds(items) && forall i | 0 <= i < |items| :: items[i].id > 0
    requires forall i | 0 <= i < |items| :: ShownAt(c, s, items, owns, i) != Hidden
    requires forall i | 0 <= i < |items| && ShownAt(c, s, items, owns, i).Body? ::
      var b := ShownAt(c, s, items, owns, i).text; c.unpack(b) == b
    ensures var after := Pass(c, s, items, owns);
      && Pass(c, after, items, owns2).held == after.held
      && forall i | 0 <= i < |items| :: ShownAt(c, after, items, owns2, i) == ShownAt(c, s, items, owns, i)
  {
    var after := Pass(c, s, items, owns);
    forall i | 0 <= i < |items|
      ensures ShownAt(c, after, items, owns2, i) == ShownAt(c, s, items, owns, i)
      ensures items[i].deleted || Hit(c, after.lines, items[i]).Some?
    {
      if !items[i].deleted {
        PassCaches(c, s, items, owns, i);
        CachedIsShown(c, after.lines, Pass(c, after, items[..i], owns2[..i]), items[i], owns2[i], ShownAt(c, s, items, owns, i).text);
      }
    }
    CachedPassIsFree(c, after, items, owns2);
  }
}
