/**
 Signed checkpoints over the transcript chain: what one client states about its
 view, and what another client's warnings about it mean.
 */
module Checkpoints {
  import opened Wrappers
  import opened Ascending
  import opened Transcript
  import H = History
  import Text

  datatype Event = TranscriptCheckpoint | OtherEvent(name: string)

  /** A checkpoint without its signature and hash. */
  datatype Checkpoint = Checkpoint(conversation: int, event: Event, actor: int, count: int, first: int, last: int,
                                   head: Digest, prev: Digest, identity: string, ts: int)

  /** What is kept of a peer's last checkpoint. */
  datatype Peer = Peer(last: int, head: Digest, hash: Digest)

  datatype Warning =
    | OtherConversation | BadEvent | MissingFields | BadSignature
    | RolledBack | ChangedView | BrokenChain | OrderMismatch

  // ---- the warnings ----------------------------------------------------

  function When(b: bool, w: Warning): seq<Warning> { if b then [w] else [] }

  /** Checks of the checkpoint by itself; `accepted` is the outcome of the signature check, if one is made. */
  function FieldWarnings(conv: int, cp: Checkpoint, accepted: bool): seq<Warning> {
    When(cp.conversation != conv, OtherConversation) + When(cp.event != TranscriptCheckpoint, BadEvent)
    + When(cp.actor <= 0 || cp.first <= 0 || cp.last <= 0 || cp.count <= 0 || |cp.head| != 64, MissingFields)
    + When(!accepted, BadSignature)
  }

  /** Checks against the peer's checkpoint before. */
  function PeerWarnings(before: Option<Peer>, cp: Checkpoint): seq<Warning> {
    match before
    case None => []
    case Some(p) =>
      When(cp.last < p.last, RolledBack)
      + When(cp.last == p.last && p.head != "" && cp.head != "" && p.head != cp.head, ChangedView)
      + When(cp.prev != "" && p.hash != "" && cp.prev != p.hash, BrokenChain)
  }

  /** The comparison with the local view, which is made only for one baseline. */
  predicate Mismatch(c: Chain, cp: Checkpoint) {
    && c.first > 0 && cp.first > 0 && c.first == cp.first
    && var here := if cp.last in c.heads then c.heads[cp.last] else "";
       if here != "" && cp.head != "" && here != cp.head then true
       else c.last == cp.last && c.head != "" && cp.head != "" && c.head != cp.head
  }

  function PeerKey(cp: Checkpoint): string {
    if cp.identity != "" then cp.identity else "uid:" + Text.Number(cp.actor)
  }

  function Before(peers: map<string, Peer>, cp: Checkpoint): Option<Peer> {
    if PeerKey(cp) in peers then Some(peers[PeerKey(cp)]) else None
  }

  function Warnings(conv: int, before: Option<Peer>, c: Chain, cp: Checkpoint, accepted: bool): seq<Warning> {
    FieldWarnings(conv, cp, accepted) + PeerWarnings(before, cp) + When(Mismatch(c, cp), OrderMismatch)
  }

  function FirstFive(ws: seq<Warning>): seq<Warning> { if |ws| > 5 then ws[..5] else ws }

  /** Five at most, and the first ones. */
  lemma FirstFiveIs(due: seq<Warning>)
    ensures FirstFive(due) <= due && |FirstFive(due)| == if |due| <= 5 then |due| else 5
  {
  }

  // ---- the client's transcript -----------------------------------------

  class TranscriptLog {
    const sha: Sha
    const hash: Checkpoint -> Digest
    const conv: int
    const myUid: int
    const identity: string
    var messages: map<int, Digest>
    var chain: Chain
    var peers: map<string, Peer>
    var ownLast: Digest

    /** Stored chain fields are those of the stored messages. */
    ghost predicate Valid()
      reads this
    {
      ChainOver(sha, conv, Entries(messages), chain)
    }

    constructor (sha: Sha, hash: Checkpoint -> Digest, conv: int, myUid: int, identity: string)
      ensures Valid() && messages == map[] && peers == map[] && ownLast == ""
      ensures (this.sha, this.hash, this.conv, this.myUid, this.identity) == (sha, hash, conv, myUid, identity)
    {
      this.sha, this.hash, this.conv, this.myUid, this.identity := sha, hash, conv, myUid, identity;
      messages, peers, ownLast := map[], map[], "";
      chain := Chain("", 0, 0, 0, map[]);
      new;
      assert Chained(messages) == {};
    }

    /** The chain over the stored digests. */
    method Recompute()
      modifies this`chain
      ensures Valid()
    {
      chain := RecomputeChain(sha, conv, messages);
    }

    /** New digests, and the chain over them. */
    method Replace(after: map<int, Digest>)
      modifies this`messages, this`chain
      ensures Valid() && messages == after
    {
      messages := after;
      Recompute();
    }

    /** `record_transcript_message`. */
    method RecordMessage(m: Message)
      requires Valid()
      modifies this`messages, this`chain
      ensures Valid()
      ensures messages == if m.id != 0 && Visible(m.body) then old(messages)[m.id := sha.message(m)] else old(messages)
    {
      var visible := Visible(m.body);
      if m.id != 0 && visible { Replace(messages[m.id := sha.message(m)]); }
    }

    /** `verify_history_consistency`. */
    method VerifyHistory(ms: seq<Message>) returns (ws: seq<H.Warning>)
      requires Valid()
      modifies this`messages, this`chain
      ensures Valid() && H.Checked(sha, old(messages), ms, ws, messages)
    {
      var after;
      ws, after := H.CheckHistory(sha, messages, ms);
      Replace(after);
    }

    /** `create_transcript_checkpoint`; None when there is nothing to state. */
    method CreateCheckpoint(ts: int) returns (r: Option<Checkpoint>)
      requires Valid()
      modifies this`chain, this`ownLast
      ensures Valid() && r == Statement(chain, conv, myUid, old(ownLast), identity, ts)
      ensures ownLast == if r.Some? then hash(r.value) else old(ownLast)
    {
      r := Stated(ts);
      if r.None? { return; }
      Link(hash(r.value));
    }

    /** The statement about the transcript as it is. */
    method Stated(ts: int) returns (r: Option<Checkpoint>)
      requires Valid()
      modifies this`chain
      ensures Valid() && r == Statement(chain, conv, myUid, ownLast, identity, ts)
    {
      Recompute();
      r := Statement(chain, conv, myUid, ownLast, identity, ts);
    }

    /** The last own checkpoint, which the next one is linked to. */
    method Link(d: Digest)
      requires Valid()
      modifies this`ownLast
      ensures Valid() && ownLast == d
    {
      ownLast := d;
    }

    /** `record_transcript_checkpoint`: the peer's checkpoint is kept whatever the warnings are. */
    method RecordCheckpoint(cp: Checkpoint, accepted: bool) returns (ws: seq<Warning>)
      requires Valid()
      modifies this`chain, this`peers
      ensures Valid() && ws == FirstFive(Warnings(conv, Before(old(peers), cp), chain, cp, accepted))
      ensures peers == old(peers)[PeerKey(cp) := Peer(cp.last, cp.head, hash(cp))]
    {
      Recompute();
      var key := PeerKey(cp);
      ws := CollectWarnings(conv, if key in peers then Some(peers[key]) else None, chain, cp, accepted);
      KeepPeer(key, Peer(cp.last, cp.head, hash(cp)));
    }

    method KeepPeer(key: string, p: Peer)
      requires Valid()
      modifies this`peers
      ensures Valid() && peers == old(peers)[key := p]
    {
      peers := peers[key := p];
    }
  }

  /** The payload of a checkpoint over a chain. */
  function Statement(c: Chain, conv: int, actor: int, prev: Digest, identity: string, ts: int): Option<Checkpoint> {
    if c.count <= 0 || c.first <= 0 || c.last <= 0 || c.head == "" then None
    else Some(Checkpoint(conv, TranscriptCheckpoint, actor, c.count, c.first, c.last, c.head, prev, identity, ts))
  }

  method CollectWarnings(conv: int, before: Option<Peer>, c: Chain, cp: Checkpoint, accepted: bool) returns (ws: seq<Warning>)
    ensures ws == FirstFive(Warnings(conv, before, c, cp, accepted))
  {
    ws := CollectFieldWarnings(conv, cp, accepted);
    ws := ws + PeerWarnings(before, cp);
    if Mismatch(c, cp) { ws := ws + [OrderMismatch]; }
    ws := FirstFive(ws);
  }

  method CollectFieldWarnings(conv: int, cp: Checkpoint, accepted: bool) returns (ws: seq<Warning>)
    ensures ws == FieldWarnings(conv, cp, accepted)
  {
    ws := [];
    if cp.conversation != conv { ws := ws + [OtherConversation]; }
    if cp.event != TranscriptCheckpoint { ws := ws + [BadEvent]; }
    if cp.actor <= 0 || cp.first <= 0 || cp.last <= 0 || cp.count <= 0 || |cp.head| != 64 { ws := ws + [MissingFields]; }
    if !accepted { ws := ws + [BadSignature]; }
  }

  /** A checkpoint that states exactly the view `es`. */
  ghost predicate States(cp: Checkpoint, sha: Sha, conv: int, es: seq<Entry>) {
    && es != [] && cp.conversation == conv && cp.event == TranscriptCheckpoint && cp.count == |es|
    && cp.first == es[0].id > 0 && cp.last == es[|es| - 1].id > 0 && cp.head == Head(sha, conv, es)
  }

  /** What a client states is its whole view; with an empty one it states nothing. */
  lemma StatementStates(sha: Sha, conv: int, m: map<int, Digest>, c: Chain, actor: int, prev: Digest, identity: string, ts: int)
    requires Digests(sha) && ChainOver(sha, conv, Entries(m), c)
    ensures var r := Statement(c, conv, actor, prev, identity, ts);
      && (r.Some? <==> Chained(m) != {})
      && (r.Some? ==> States(r.value, sha, conv, Entries(m)))
      && (r.Some? ==> var cp := r.value; (cp.actor, cp.prev, cp.identity, cp.ts) == (actor, prev, identity, ts))
  {
    var es := Entries(m);
    HeadsAreHex(sha, conv, es);
    if es != [] {
      assert es[0].id in Chained(m) && es[|es| - 1].id in Chained(m);
    }
  }

  /** What is wrong with a checkpoint by itself is always among the five warnings returned, and nothing else of the kind is. */
  lemma FieldProblemsAreReported(conv: int, before: Option<Peer>, c: Chain, cp: Checkpoint, accepted: bool, ws: seq<Warning>)
    requires ws == FirstFive(Warnings(conv, before, c, cp, accepted))
    ensures BadSignature in ws <==> !accepted
    ensures OtherConversation in ws <==> cp.conversation != conv
    ensures BadEvent in ws <==> cp.event != TranscriptCheckpoint
    ensures MissingFields in ws <==> cp.actor <= 0 || cp.first <= 0 || cp.last <= 0 || cp.count <= 0 || |cp.head| != 64
  {
    var f, p, o := FieldWarnings(conv, cp, accepted), PeerWarnings(before, cp), When(Mismatch(c, cp), OrderMismatch);
    assert f + p + o == f + (p + o);
    FieldsAre(conv, cp, accepted, f);
    FieldsFirst(f, p + o, ws);
    RestIsNoField(conv, before, c, cp, p + o);
  }

  lemma RestIsNoField(conv: int, before: Option<Peer>, c: Chain, cp: Checkpoint, rest: seq<Warning>)
    requires rest == PeerWarnings(before, cp) + When(Mismatch(c, cp), OrderMismatch)
    ensures OtherConversation !in rest && BadEvent !in rest && MissingFields !in rest && BadSignature !in rest
  {
    PeerWarningsAreOthers(before, cp);
  }

  lemma FieldsAre(conv: int, cp: Checkpoint, accepted: bool, f: seq<Warning>)
    requires f == FieldWarnings(conv, cp, accepted)
    ensures |f| <= 4 && (BadSignature in f <==> !accepted)
    ensures OtherConversation in f <==> cp.conversation != conv
    ensures BadEvent in f <==> cp.event != TranscriptCheckpoint
    ensures MissingFields in f <==> cp.actor <= 0 || cp.first <= 0 || cp.last <= 0 || cp.count <= 0 || |cp.head| != 64
  {
    var a, b := When(cp.conversation != conv, OtherConversation), When(cp.event != TranscriptCheckpoint, BadEvent);
    var bad := cp.actor <= 0 || cp.first <= 0 || cp.last <= 0 || cp.count <= 0 || |cp.head| != 64;
    var c, d := When(bad, MissingFields), When(!accepted, BadSignature);
    assert f == a + b + c + d;
    assert forall w :: w in f <==> w in a || w in b || w in c || w in d;
  }

  lemma FieldsFirst(f: seq<Warning>, rest: seq<Warning>, ws: seq<Warning>)
    requires |f| <= 4 && ws == FirstFive(f + rest)
    ensures (forall w | w in f :: w in ws) && forall w | w in ws :: w in f || w in rest
  {
    assert f == ws[..|f|];
    forall w | w in ws ensures w in f || w in rest { assert w in f + rest; }
  }

  lemma PeerWarningsAreOthers(before: Option<Peer>, cp: Checkpoint)
    ensures forall w | w in PeerWarnings(before, cp) :: w in {RolledBack, ChangedView, BrokenChain}
  {
  }

  /** A checkpoint that fails nothing by itself is compared with the peer's last one and the local view, and all of it is returned. */
  lemma ComparisonsAreReported(conv: int, before: Option<Peer>, c: Chain, cp: Checkpoint, ws: seq<Warning>)
    requires ws == FirstFive(Warnings(conv, before, c, cp, true))
    requires cp.conversation == conv && cp.event == TranscriptCheckpoint && cp.actor > 0 && cp.first > 0 && cp.last > 0 && cp.count > 0 && |cp.head| == 64
    ensures OrderMismatch in ws <==> Mismatch(c, cp)
    ensures before.None? ==> forall w | w in ws :: w == OrderMismatch
    ensures before.Some? ==> var p := before.value;
      && (RolledBack in ws <==> cp.last < p.last)
      && (ChangedView in ws <==> cp.last == p.last && p.head != "" && p.head != cp.head)
      && (BrokenChain in ws <==> cp.prev != "" && p.hash != "" && cp.prev != p.hash)
  {
    assert FieldWarnings(conv, cp, true) == [];
    PeerWarningsAreOthers(before, cp);
  }

  /** Two checkpoints are of one peer exactly when they name one identity, or none and one user. */
  lemma PeerKeysTell(a: Checkpoint, b: Checkpoint)
    requires a.actor >= 0 && b.actor >= 0
    requires ':' !in a.identity && ':' !in b.identity
    ensures PeerKey(a) == PeerKey(b) <==> a.identity == b.identity && (a.identity == "" ==> a.actor == b.actor)
  {
    assert PeerKey(a)[|PeerKey(a)| - 1] != ':' && (a.identity == "" ==> PeerKey(a)[3] == ':') && (b.identity == "" ==> PeerKey(b)[3] == ':');
    if a.identity == "" && b.identity == "" && PeerKey(a) == PeerKey(b) {
      assert PeerKey(a)[4..] == Text.Number(a.actor) && PeerKey(b)[4..] == Text.Number(b.actor);
      Text.DecimalInjective(a.actor, b.actor);
    }
  }

  // ---- what the warnings mean ------------------------------------------

  /**
   The comparison of a peer's view `b` with the local view `a`: a mismatch exactly
   when both start at one id, the peer's last id is local too, and the local head
   at that id is another one.
   */
  lemma MismatchIff(sha: Sha, conv: int, a: seq<Entry>, c: Chain, b: seq<Entry>, cp: Checkpoint)
    requires Digests(sha) && ChainOver(sha, conv, a, c) && States(cp, sha, conv, b)
    ensures Mismatch(c, cp) <==> exists i :: 0 <= i < |a| && a[0].id == b[0].id && a[i].id == cp.last && Head(sha, conv, a[..i + 1]) != cp.head
  {
    LastComparisonIsIdle(sha, conv, a, c, cp);
    HeadsAreHex(sha, conv, b);
    if Mismatch(c, cp) {
      var i :| 0 <= i < |a| && a[i].id == cp.last;
      assert Head(sha, conv, a[..i + 1]) != cp.head;
    }
  }

  lemma HeadsAreHex(sha: Sha, conv: int, es: seq<Entry>)
    requires Digests(sha)
    ensures Hex64(Head(sha, conv, es))
  {
  }

  /** The second comparison, at the last local id, never decides anything. */
  lemma LastComparisonIsIdle(sha: Sha, conv: int, a: seq<Entry>, c: Chain, cp: Checkpoint)
    requires Digests(sha) && ChainOver(sha, conv, a, c)
    ensures Mismatch(c, cp) <==>
      c.first > 0 && c.first == cp.first && cp.head != "" && cp.last in c.heads && c.heads[cp.last] != cp.head
  {
    forall id | id in c.heads ensures Hex64(c.heads[id]) {
      var i :| 0 <= i < |a| && a[i].id == id;
      HeadsAreHex(sha, conv, a[..i + 1]);
    }
    if a != [] {
      assert a[..|a|] == a && a[|a| - 1].id in c.heads;
      assert c.heads[c.last] == c.head;
    }
  }

  /** A peer that has seen a prefix of the local view, or more than it, is never reported. */
  lemma PrefixNeverMismatches(sha: Sha, conv: int, a: seq<Entry>, c: Chain, b: seq<Entry>, cp: Checkpoint)
    requires Digests(sha) && Ordered(a) && Ordered(b) && ChainOver(sha, conv, a, c) && States(cp, sha, conv, b)
    requires b <= a || a <= b
    ensures !Mismatch(c, cp)
  {
    MismatchIff(sha, conv, a, c, b, cp);
    forall i | 0 <= i < |a| && a[i].id == cp.last ensures a[..i + 1] == b {
      assert i < |b| ==> a[i] == b[i];
      assert |b| <= |a| ==> a[|b| - 1] == b[|b| - 1];
    }
  }

  /** No report at a shared last id over one baseline: the views agree up to it, or a collision is at hand. */
  lemma SilenceBinds(sha: Sha, conv: int, a: seq<Entry>, c: Chain, b: seq<Entry>, cp: Checkpoint, i: nat)
    requires Digests(sha) && Ordered(a) && Ordered(b) && ChainOver(sha, conv, a, c) && States(cp, sha, conv, b)
    requires i < |a| && a[0].id == b[0].id && a[i].id == cp.last
    ensures Mismatch(c, cp) ==> a[..i + 1] != b
    ensures !Mismatch(c, cp) ==> a[..i + 1] == b || Collide(sha, conv, a[..i + 1], b)
  {
    MismatchIff(sha, conv, a, c, b, cp);
    if !Mismatch(c, cp) { HeadBinds(sha, conv, a[..i + 1], b); }
  }

  /** The entries of a list of messages with increasing ids. */
  function View(sha: Sha, ms: seq<Message>): seq<Entry> {
    seq(|ms|, i requires 0 <= i < |ms| => Entry(ms[i].id, sha.message(ms[i])))
  }

  /** Two clients whose heads agree at an id both have, over one baseline, have the same messages up to it. */
  lemma EqualHeadsEqualMessages(sha: Sha, conv: int, a: seq<Message>, b: seq<Message>, i: nat, j: nat)
    requires H.IsLog(a) && H.IsLog(b) && i < |a| && j < |b| && a[i].id == b[j].id && a[0].id == b[0].id
    requires Head(sha, conv, View(sha, a)[..i + 1]) == Head(sha, conv, View(sha, b)[..j + 1])
    ensures || a[..i + 1] == b[..j + 1]
            || Collide(sha, conv, View(sha, a)[..i + 1], View(sha, b)[..j + 1])
            || exists k :: 0 <= k <= i && k < |b| && a[k] != b[k] && sha.message(a[k]) == sha.message(b[k])
  {
    var x, y := View(sha, a)[..i + 1], View(sha, b)[..j + 1];
    HeadBinds(sha, conv, x, y);
    if x == y {
      assert |x| == i + 1 && |y| == j + 1;
      if a[..i + 1] != b[..j + 1] {
        var k :| 0 <= k <= i && a[k] != b[k];
        assert x[k] == y[k];
      }
    }
  }

  /** A peer's checkpoint that follows its last one over a view that only grew draws no warning about the peer. */
  lemma GrowingPeerIsClean(sha: Sha, hash: Checkpoint -> Digest, conv: int, b1: seq<Entry>, cp1: Checkpoint, b2: seq<Entry>, cp2: Checkpoint,
                           peers: map<string, Peer>)
    requires Ordered(b2) && States(cp1, sha, conv, b1) && States(cp2, sha, conv, b2) && b1 <= b2
    requires cp2.prev == hash(cp1) && Before(peers, cp2) == Some(Peer(cp1.last, cp1.head, hash(cp1)))
    ensures PeerWarnings(Before(peers, cp2), cp2) == []
  {
    assert b2[|b1| - 1] == b1[|b1| - 1];
    if cp1.last == cp2.last { assert |b1| == |b2| && b1 == b2; }
  }

  /** And over one that shrank at its end, or changed below the same last id without a collision, it does. */
  lemma ShrinkingPeerIsReported(sha: Sha, hash: Checkpoint -> Digest, conv: int, b1: seq<Entry>, cp1: Checkpoint, b2: seq<Entry>, cp2: Checkpoint,
                                peers: map<string, Peer>)
    requires Digests(sha) && Ordered(b1) && Ordered(b2) && States(cp1, sha, conv, b1) && States(cp2, sha, conv, b2)
    requires Before(peers, cp2) == Some(Peer(cp1.last, cp1.head, hash(cp1)))
    requires cp2.last < cp1.last || (cp2.last == cp1.last && cp2.first == cp1.first && b1 != b2)
    ensures RolledBack in PeerWarnings(Before(peers, cp2), cp2) || ChangedView in PeerWarnings(Before(peers, cp2), cp2)
            || Collide(sha, conv, b1, b2)
  {
    HeadsAreHex(sha, conv, b1);
    HeadsAreHex(sha, conv, b2);
    if cp2.last == cp1.last && cp1.head == cp2.head { HeadBinds(sha, conv, b1, b2); }
  }

  /** The peer has stated nothing so far, or last stated a view `b` only adds to, and refers to that statement. */
  ghost predicate Continues(sha: Sha, hash: Checkpoint -> Digest, conv: int, before: Option<Peer>, b: seq<Entry>, cp: Checkpoint) {
    before.None? ||
    exists cp1, b1 :: States(cp1, sha, conv, b1) && b1 <= b && cp.prev == hash(cp1) && before == Some(Peer(cp1.last, cp1.head, hash(cp1)))
  }

  /**
   A signed checkpoint of a client that has seen a prefix of the local view, or more,
   and whose own view only grew, draws no warning at all.
   */
  lemma HonestCheckpointIsClean(sha: Sha, hash: Checkpoint -> Digest, conv: int, a: seq<Entry>, c: Chain, b: seq<Entry>, cp: Checkpoint,
                                peers: map<string, Peer>)
    requires Digests(sha) && Ordered(a) && Ordered(b) && ChainOver(sha, conv, a, c) && States(cp, sha, conv, b)
    requires (b <= a || a <= b) && cp.actor > 0 && Continues(sha, hash, conv, Before(peers, cp), b, cp)
    ensures Warnings(conv, Before(peers, cp), c, cp, true) == []
  {
    PrefixNeverMismatches(sha, conv, a, c, b, cp);
    HeadsAreHex(sha, conv, b);
    if Before(peers, cp).Some? {
      var cp1, b1 :| States(cp1, sha, conv, b1) && b1 <= b && cp.prev == hash(cp1) && Before(peers, cp) == Some(Peer(cp1.last, cp1.head, hash(cp1)));
      GrowingPeerIsClean(sha, hash, conv, b1, cp1, b, cp, peers);
    }
  }
}
