/**
 The transcript of one conversation: the digest of every message seen, the hash
 chain over them in id order, and the checks of server history against it.
 */
module Transcript {
  import opened Wrappers
  import opened Ascending

  type Digest = string

  /** What one link of the chain hashes. */
  datatype Block = Block(conversation: int, id: int, digest: Digest, prev: Digest)

  /** The fields `_message_digest` hashes. */
  datatype Message = Message(id: int, sender: int, body: string, editTarget: int, deleted: bool)

  /** SHA-256 over the two canonical forms. */
  datatype Sha = Sha(block: Block -> Digest, message: Message -> Digest)

  const ZEROS: Digest := seq(64, _ => '0')

  predicate Hex64(d: Digest) { |d| == 64 }

  ghost predicate Digests(sha: Sha) {
    (forall b :: Hex64(sha.block(b))) && (forall m :: Hex64(sha.message(m)))
  }

  predicate StartsWith(s: string, p: string) { |p| <= |s| && s[..|p|] == p }

  /** `_is_user_visible_body`. */
  predicate Visible(body: string) {
    && body != "__S2_CONTROL__" && body != "__S3_INIT__" && body != ""
    && !StartsWith(body, "[Forward-secret]") && !StartsWith(body, "[Cannot") && !StartsWith(body, "[Encrypted")
  }

  /** A text made of a beginning and anything. */
  ghost predicate Begins(s: string, p: string) { exists rest :: s == p + rest }

  /** No text at all, a protocol marker, or one of the placeholders shown for what cannot be read. */
  ghost predicate NoUserText(body: string) {
    || body in {"", "__S2_CONTROL__", "__S3_INIT__"}
    || Begins(body, "[Forward-secret]") || Begins(body, "[Cannot") || Begins(body, "[Encrypted")
  }

  lemma VisibleIff(body: string)
    ensures Visible(body) <==> !NoUserText(body)
  {
    BeginsIff(body, "[Forward-secret]");
    BeginsIff(body, "[Cannot");
    BeginsIff(body, "[Encrypted");
  }

  lemma BeginsIff(s: string, p: string)
    ensures StartsWith(s, p) <==> Begins(s, p)
  {
    if StartsWith(s, p) { assert s == p + s[|p|..]; }
  }

  // ---- the chain -------------------------------------------------------

  /** The entries that take part, as a set of ids. */
  function Chained(m: map<int, Digest>): set<int> {
    set id | id in m && id > 0 && m[id] != ""
  }

  datatype Entry = Entry(id: int, digest: Digest)

  /** The digest of an id, "" when there is none. */
  function DigestAt(m: map<int, Digest>, id: int): Digest { if id in m then m[id] else "" }

  /** The entries that take part, in id order. */
  function Entries(m: map<int, Digest>): (es: seq<Entry>)
    ensures Ordered(es) && |es| == |Chained(m)|
    ensures forall i | 0 <= i < |es| :: es[i] == Entry(Sorted(Chained(m))[i], DigestAt(m, es[i].id)) && es[i].id in Chained(m)
  {
    EntriesFor(m, Sorted(Chained(m)))
  }

  function EntriesFor(m: map<int, Digest>, ids: seq<int>): (es: seq<Entry>)
    ensures |es| == |ids| && forall i | 0 <= i < |es| :: es[i] == Entry(ids[i], DigestAt(m, ids[i]))
  {
    seq(|ids|, i requires 0 <= i < |ids| => Entry(ids[i], DigestAt(m, ids[i])))
  }

  /** The entries are the stored digests under positive ids that are not empty, and no others. */
  lemma EntriesAre(m: map<int, Digest>, e: Entry)
    ensures e in Entries(m) <==> e.id > 0 && e.id in m && m[e.id] == e.digest != ""
  {
    var ids, es := Sorted(Chained(m)), Entries(m);
    if e.id in Chained(m) {
      var i :| 0 <= i < |ids| && ids[i] == e.id;
      assert es[i].id == e.id;
    }
  }

  predicate Ordered(es: seq<Entry>) {
    forall i, j | 0 <= i < j < |es| :: es[i].id < es[j].id
  }

  /** The head of the chain over a list of entries. */
  function Head(sha: Sha, conv: int, es: seq<Entry>): Digest {
    if es == [] then ZEROS
    else
      var n := |es| - 1;
      sha.block(Block(conv, es[n].id, es[n].digest, Head(sha, conv, es[..n])))
  }

  /** The fields `_recompute_transcript_chain` sets. */
  datatype Chain = Chain(head: Digest, count: nat, first: int, last: int, heads: map<int, Digest>)

  /** A head for each of the first `n` entries, and no others. */
  ghost predicate HeadsOver(sha: Sha, conv: int, es: seq<Entry>, heads: map<int, Digest>, n: nat)
    requires n <= |es|
  {
    && (forall id | id in heads :: exists i :: 0 <= i < n && es[i].id == id)
    && (forall i | 0 <= i < n :: es[i].id in heads && heads[es[i].id] == Head(sha, conv, es[..i + 1]))
  }

  /** What they must be for a list of entries. */
  ghost predicate ChainOver(sha: Sha, conv: int, es: seq<Entry>, c: Chain) {
    && c.count == |es| && HeadsOver(sha, conv, es, c.heads, |es|)
    && (if es == [] then c.head == "" && c.first == c.last == 0
        else c.head == Head(sha, conv, es) && c.first == es[0].id && c.last == es[|es| - 1].id)
  }

  /** First loop of `_recompute_transcript_chain`: the valid entries, in whatever order the dictionary has. */
  method CollectEntries(m: map<int, Digest>) returns (items: map<int, Digest>)
    ensures items.Keys == Chained(m) && forall id | id in items :: items[id] == m[id]
  {
    var rest := m.Keys;
    items := map[];
    while rest != {}
      invariant rest <= m.Keys
      invariant items.Keys == Chained(m) - rest
      invariant forall id | id in items :: items[id] == m[id]
      decreases rest
    {
      ghost var some := Pick(rest);
      var id :| id in rest;
      if id > 0 && m[id] != "" { items := items[id := m[id]]; }
      rest := rest - {id};
    }
  }

  /** The head of one entry more. */
  lemma HeadOfNext(sha: Sha, conv: int, es: seq<Entry>, i: nat)
    requires i < |es|
    ensures Head(sha, conv, es[..i + 1]) == sha.block(Block(conv, es[i].id, es[i].digest, Head(sha, conv, es[..i])))
  {
    assert es[..i + 1][..i] == es[..i];
  }

  /** The ids of the entries before `n`, and the head stored for each of them. */
  ghost predicate HeadsAre(es: seq<Entry>, stored: map<int, Digest>, at: seq<Digest>, n: nat)
    requires n <= |es| && n <= |at|
  {
    && (forall id | id in stored :: exists i :: 0 <= i < n && es[i].id == id)
    && (forall i | 0 <= i < n :: es[i].id in stored && stored[es[i].id] == at[i])
  }

  /** One more head. */
  lemma HeadsGrow(es: seq<Entry>, stored: map<int, Digest>, at: seq<Digest>, i: nat)
    requires i < |es| && i < |at| && Ordered(es) && HeadsAre(es, stored, at, i)
    ensures HeadsAre(es, stored[es[i].id := at[i]], at, i + 1)
  {
    var more := stored[es[i].id := at[i]];
    forall id | id in more ensures exists j :: 0 <= j < i + 1 && es[j].id == id {
      if id in stored {
        var j :| 0 <= j < i && es[j].id == id;
      } else {
        assert es[i].id == id;
      }
    }
  }

  /** The head after each entry. */
  function PrefixHeads(sha: Sha, conv: int, es: seq<Entry>): seq<Digest> {
    seq(|es|, i requires 0 <= i < |es| => Head(sha, conv, es[..i + 1]))
  }

  lemma AllHeads(sha: Sha, conv: int, es: seq<Entry>, heads: map<int, Digest>)
    requires HeadsAre(es, heads, PrefixHeads(sha, conv, es), |es|)
    ensures HeadsOver(sha, conv, es, heads, |es|)
  {
  }

  /** Second loop: each entry is hashed together with the head before it. */
  method ChainEntries(sha: Sha, conv: int, es: seq<Entry>) returns (c: Chain)
    requires Ordered(es)
    ensures ChainOver(sha, conv, es, c)
  {
    var head, heads: map<int, Digest> := ZEROS, map[];
    ghost var at := PrefixHeads(sha, conv, es);
    for i := 0 to |es|
      invariant head == Head(sha, conv, es[..i])
      invariant HeadsAre(es, heads, at, i)
    {
      HeadOfNext(sha, conv, es, i);
      HeadsGrow(es, heads, at, i);
      head := sha.block(Block(conv, es[i].id, es[i].digest, head));
      heads := heads[es[i].id := head];
    }
    AllHeads(sha, conv, es, heads);
    assert es[..|es|] == es;
    if es == [] {
      c := Chain("", 0, 0, 0, heads);
    } else {
      c := Chain(head, |es|, es[0].id, es[|es| - 1].id, heads);
    }
  }

  /** `_recompute_transcript_chain`. */
  method RecomputeChain(sha: Sha, conv: int, m: map<int, Digest>) returns (c: Chain)
    ensures ChainOver(sha, conv, Entries(m), c)
  {
    var items := CollectEntries(m);
    SameEntries(items, m);
    c := ChainEntries(sha, conv, Entries(items));
  }

  /** The entries depend only on which valid ids have which digest. */
  lemma SameEntries(a: map<int, Digest>, b: map<int, Digest>)
    requires Chained(a) == Chained(b) && forall id | id in Chained(a) :: a[id] == b[id]
    ensures Entries(a) == Entries(b)
  {
  }

  // ---- what a head stands for ------------------------------------------

  /** Two different blocks hashed in the two chains have one hash. */
  ghost predicate Collide(sha: Sha, conv: int, a: seq<Entry>, b: seq<Entry>) {
    exists i, j :: 0 <= i < |a| && 0 <= j < |b|
      && LinkAt(sha, conv, a, i) != LinkAt(sha, conv, b, j)
      && sha.block(LinkAt(sha, conv, a, i)) == sha.block(LinkAt(sha, conv, b, j))
  }

  function LinkAt(sha: Sha, conv: int, es: seq<Entry>, i: nat): Block
    requires i < |es|
  {
    Block(conv, es[i].id, es[i].digest, Head(sha, conv, es[..i]))
  }

  /** Two chains with one baseline and one head hold the same entries, or show a collision. */
  lemma {:induction false} HeadBinds(sha: Sha, conv: int, a: seq<Entry>, b: seq<Entry>)
    requires Ordered(a) && Ordered(b) && a != [] && b != [] && a[0].id == b[0].id
    requires Head(sha, conv, a) == Head(sha, conv, b)
    ensures a == b || Collide(sha, conv, a, b)
  {
    var m, n := |a| - 1, |b| - 1;
    if LinkAt(sha, conv, a, m) == LinkAt(sha, conv, b, n) {
      SameLast(sha, conv, a, b, m, n);
      if m > 0 {
        HeadBinds(sha, conv, a[..m], b[..n]);
        if a[..m] != b[..n] { CollidePrefix(sha, conv, a, b, m, n); }
      }
    }
  }

  /** Equal last blocks: the last entries are equal, and so are the heads before them. */
  lemma SameLast(sha: Sha, conv: int, a: seq<Entry>, b: seq<Entry>, m: nat, n: nat)
    requires Ordered(a) && Ordered(b) && |a| == m + 1 && |b| == n + 1 && a[0].id == b[0].id
    requires LinkAt(sha, conv, a, m) == LinkAt(sha, conv, b, n)
    ensures a[m] == b[n] && Head(sha, conv, a[..m]) == Head(sha, conv, b[..n]) && (m == 0 <==> n == 0)
    ensures a[..m] == b[..n] ==> a == b
  {
    assert a == a[..m] + [a[m]] && b == b[..n] + [b[n]];
  }

  /** Chains of two conversations never have one head, unless their last blocks collide. */
  lemma HeadsTellConversations(sha: Sha, c: int, a: seq<Entry>, d: int, b: seq<Entry>)
    requires a != [] && b != [] && c != d && Head(sha, c, a) == Head(sha, d, b)
    ensures LinkAt(sha, c, a, |a| - 1) != LinkAt(sha, d, b, |b| - 1)
    ensures sha.block(LinkAt(sha, c, a, |a| - 1)) == sha.block(LinkAt(sha, d, b, |b| - 1))
  {
  }

  lemma CollidePrefix(sha: Sha, conv: int, a: seq<Entry>, b: seq<Entry>, m: nat, n: nat)
    requires m <= |a| && n <= |b| && Collide(sha, conv, a[..m], b[..n])
    ensures Collide(sha, conv, a, b)
  {
    var i, j :| 0 <= i < m && 0 <= j < n
      && LinkAt(sha, conv, a[..m], i) != LinkAt(sha, conv, b[..n], j)
      && sha.block(LinkAt(sha, conv, a[..m], i)) == sha.block(LinkAt(sha, conv, b[..n], j));
    assert a[..m][..i] == a[..i] && b[..n][..j] == b[..j];
    assert LinkAt(sha, conv, a, i) == LinkAt(sha, conv, a[..m], i) && LinkAt(sha, conv, b, j) == LinkAt(sha, conv, b[..n], j);
  }
}
