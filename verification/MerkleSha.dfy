/**
 The hash of the source: SHA-256 over a tag and the bytes `bytes.fromhex` makes of two
 texts, where white space and letter case do not count. Soundness ends in "or these
 two different byte strings have one hash"; nothing else is assumed about SHA-256.
 */
module MerkleSha {
  import opened Wrappers
  import opened Octets
  import opened MerkleTree
  import opened MerkleProofs

  type Sha = Bytes -> Bytes

  ghost predicate IsSha(sha: Sha) {
    forall x :: |sha(x)| == 32
  }

  /** "SecChatIdentityLeaf|" and "SecChatEmptyIdentityTree". */
  const LEAF_TAG: Bytes := [83, 101, 99, 67, 104, 97, 116, 73, 100, 101, 110, 116, 105, 116, 121, 76, 101, 97, 102, 124]
  const EMPTY_TREE: Bytes := [83, 101, 99, 67, 104, 97, 116, 69, 109, 112, 116, 121, 73, 100, 101, 110, 116, 105, 116, 121, 84, 114, 101, 101]

  const NODE_TAG: Bytes := [1]

  /** The string hashed for an inner node. */
  function NodeString(left: Bytes, right: Bytes): Bytes { NODE_TAG + left + right }

  predicate IsNodeString(x: Bytes) { NODE_TAG <= x }

  /** The string hashed for a row of the log. */
  predicate IsLeafString(x: Bytes) { LEAF_TAG <= x }

  /** `_node_hash` as a function of two texts. */
  function NodeText(sha: Sha): NodeHash {
    (left: Digest, right: Digest) => ToHex(sha(NodeString(Dec(left), Dec(right))))
  }

  /** The hashing of auditor and client. */
  function Texts(sha: Sha): Hashing {
    Hashing(NodeText(sha), ToHex(sha(EMPTY_TREE)), (t: Digest) => FromHex(t).Some?)
  }

  /** The octets of a text. */
  predicate Spells(b: Bytes, text: string) {
    |b| == |text| && forall i | 0 <= i < |b| :: b[i] == text[i] as int
  }

  /** A node is the hash of the octet 1, the left and the right bytes; the other tags are texts. */
  lemma HashedStringsAre(sha: Sha, left: Bytes, right: Bytes)
    ensures NodeText(sha)(ToHex(left), ToHex(right)) == ToHex(sha([1] + left + right))
    ensures Texts(sha).node == NodeText(sha) && Texts(sha).empty == ToHex(sha(EMPTY_TREE))
    ensures Spells(EMPTY_TREE, "SecChatEmptyIdentityTree") && Spells(LEAF_TAG, "SecChatIdentityLeaf|")
  {
    HexDecodes(left);
    HexDecodes(right);
    assert NODE_TAG == [1] && NodeString(left, right) == [1] + left + right;
  }

  /** The three kinds of hashed strings never meet. */
  lemma KindsDiffer(x: Bytes, left: Bytes, right: Bytes)
    requires IsLeafString(x)
    ensures x != NodeString(left, right) && x != EMPTY_TREE && NodeString(left, right) != EMPTY_TREE
  {
    assert x[0] == LEAF_TAG[0] && x[7] == LEAF_TAG[7];
    assert NodeString(left, right)[0] == 1;
  }

  /** Neither a row nor a node has the string of the empty tree. */
  lemma EmptyTreeApart(q: Bytes)
    requires IsLeafString(q) || IsNodeString(q)
    ensures q != EMPTY_TREE
  {
    if IsLeafString(q) {
      KindsDiffer(q, [], []);
    } else {
      assert q[0] == NODE_TAG[0] && EMPTY_TREE[0] == 83;
    }
  }

  // ---- canonical texts -------------------------------------------------

  /** The text `hex()` makes of 32 bytes. */
  predicate Canonical(t: Digest) { t == ToHex(Dec(t)) && |Dec(t)| == 32 }

  lemma ShaIsCanonical(sha: Sha, x: Bytes)
    requires IsSha(sha)
    ensures Canonical(ToHex(sha(x))) && Dec(ToHex(sha(x))) == sha(x)
  {
    HexDecodes(sha(x));
  }

  lemma CanonicalIsDigest(sha: Sha, t: Digest)
    requires Canonical(t)
    ensures IsDigest(Texts(sha), t)
  {
    HexDecodes(Dec(t));
  }

  /** SHA-256 gives digests, so every result about `Produces` holds of it. */
  lemma ShaProduces(sha: Sha)
    requires IsSha(sha)
    ensures Produces(Texts(sha)) && IsDigest(Texts(sha), Texts(sha).empty)
  {
    forall a, b ensures IsDigest(Texts(sha), Texts(sha).node(a, b)) {
      ShaIsCanonical(sha, NodeString(Dec(a), Dec(b)));
      CanonicalIsDigest(sha, Texts(sha).node(a, b));
    }
    ShaIsCanonical(sha, EMPTY_TREE);
    CanonicalIsDigest(sha, Texts(sha).empty);
  }

  // ---- the tree of a log -----------------------------------------------

  /** The leaf hashes of a log of rows. */
  function LeafTexts(sha: Sha, rows: seq<Bytes>): (d: seq<Digest>)
    ensures |d| == |rows| && forall i | 0 <= i < |rows| :: d[i] == ToHex(sha(rows[i]))
  {
    seq(|rows|, i requires 0 <= i < |rows| => ToHex(sha(rows[i])))
  }

  ghost predicate AllCanonical(d: seq<Digest>) { forall i | 0 <= i < |d| :: Canonical(d[i]) }

  ghost predicate AllRows(rows: seq<Bytes>) { forall i | 0 <= i < |rows| :: IsLeafString(rows[i]) }

  lemma LeavesAreCanonical(sha: Sha, rows: seq<Bytes>)
    requires IsSha(sha)
    ensures AllCanonical(LeafTexts(sha, rows))
  {
    forall i | 0 <= i < |rows| ensures Canonical(LeafTexts(sha, rows)[i]) { ShaIsCanonical(sha, rows[i]); }
  }

  /** The texts of all nodes of a tree, leaves included. */
  function Nodes(h: NodeHash, d: seq<Digest>): set<Digest>
    requires d != []
    decreases |d|
  {
    if |d| == 1 then {d[0]}
    else
      var k := Split(|d|);
      {Mth(h, d)} + Nodes(h, d[..k]) + Nodes(h, d[k..])
  }

  /** The string hashed for a pair. */
  function PairString(p: Pair): Bytes { NodeString(Dec(p.0), Dec(p.1)) }

  /** The strings hashed in a tree. */
  function TreeStrings(sha: Sha, d: seq<Digest>): set<Bytes> {
    if d == [] then {} else set p | p in TreePairs(NodeText(sha), d) :: PairString(p)
  }

  /** The strings hashed along a proof. */
  function ProofStrings(sha: Sha, leaf: Digest, proof: seq<ProofItem>): set<Bytes> {
    if proof == [] then {}
    else
      var rest := proof[..|proof| - 1];
      {PairString(PairWith(Climb(NodeText(sha), leaf, rest), proof[|proof| - 1]))} + ProofStrings(sha, leaf, rest)
  }

  function RowSet(rows: seq<Bytes>): set<Bytes> { set x | x in rows }

  /** Two different strings, one from each set, with one hash. */
  ghost predicate Collision(sha: Sha, ps: set<Bytes>, qs: set<Bytes>) {
    exists p, q :: p in ps && q in qs && p != q && sha(p) == sha(q)
  }

  lemma CollisionAt(sha: Sha, ps: set<Bytes>, qs: set<Bytes>, p: Bytes, q: Bytes)
    requires p in ps && q in qs && p != q && sha(p) == sha(q)
    ensures Collision(sha, ps, qs)
  {
  }

  lemma CollisionSpreads(sha: Sha, ps: set<Bytes>, qs: set<Bytes>, ps': set<Bytes>, qs': set<Bytes>)
    requires ps <= ps' && qs <= qs'
    ensures Collision(sha, ps, qs) ==> Collision(sha, ps', qs')
  {
  }

  /** A tree with two halves, seen as nodes and hashed strings. */
  lemma HalvesOf(sha: Sha, d: seq<Digest>)
    requires IsSha(sha) && |d| > 1
    ensures var l, r, h := LeftHalf(d), RightHalf(d), NodeText(sha);
      && Mth(h, d) == ToHex(sha(NodeString(Dec(Mth(h, l)), Dec(Mth(h, r)))))
      && NodeString(Dec(Mth(h, l)), Dec(Mth(h, r))) in TreeStrings(sha, d)
      && TreeStrings(sha, l) <= TreeStrings(sha, d) && TreeStrings(sha, r) <= TreeStrings(sha, d)
      && Nodes(h, d) == {Mth(h, d)} + Nodes(h, l) + Nodes(h, r)
  {
    var l, r, h := LeftHalf(d), RightHalf(d), NodeText(sha);
    TreeHalves(h, d);
    var p := (Mth(h, l), Mth(h, r));
    assert p in TreePairs(h, d) && PairString(p) == NodeString(Dec(p.0), Dec(p.1));
  }

  lemma {:induction false} MthIsCanonical(sha: Sha, d: seq<Digest>)
    requires IsSha(sha) && d != [] && AllCanonical(d)
    ensures Canonical(Mth(NodeText(sha), d))
  {
    if |d| > 1 {
      HalvesOf(sha, d);
      ShaIsCanonical(sha, NodeString(Dec(Mth(NodeText(sha), LeftHalf(d))), Dec(Mth(NodeText(sha), RightHalf(d)))));
    }
  }

  lemma {:induction false} NodesAreCanonical(sha: Sha, d: seq<Digest>)
    requires IsSha(sha) && d != [] && AllCanonical(d)
    ensures forall t | t in Nodes(NodeText(sha), d) :: Canonical(t)
    ensures Mth(NodeText(sha), d) in Nodes(NodeText(sha), d)
    decreases |d|
  {
    MthIsCanonical(sha, d);
    if |d| > 1 {
      HalvesOf(sha, d);
      NodesAreCanonical(sha, LeftHalf(d));
      NodesAreCanonical(sha, RightHalf(d));
    }
  }

  // ---- soundness -------------------------------------------------------

  /** The last step of a climb. */
  lemma ClimbStep(sha: Sha, leaf: Digest, proof: seq<ProofItem>)
    requires IsSha(sha) && proof != []
    ensures var rest := proof[..|proof| - 1]; var cur := Climb(NodeText(sha), leaf, rest);
      var p := PairString(PairWith(cur, proof[|proof| - 1]));
      && Dec(Climb(NodeText(sha), leaf, proof)) == sha(p) && p in ProofStrings(sha, leaf, proof)
      && ProofStrings(sha, leaf, rest) <= ProofStrings(sha, leaf, proof)
  {
    ShaIsCanonical(sha, PairString(PairWith(Climb(NodeText(sha), leaf, proof[..|proof| - 1]), proof[|proof| - 1])));
  }

  lemma ClimbIs32(sha: Sha, leaf: Digest, proof: seq<ProofItem>)
    requires IsSha(sha) && |Dec(leaf)| == 32
    ensures |Dec(Climb(NodeText(sha), leaf, proof))| == 32
  {
    if proof != [] { ClimbStep(sha, leaf, proof); }
  }

  /** Equal strings of two nodes, one of the climb and one of the tree: the climb comes from one of the halves. */
  lemma SameNode(cur: Bytes, sibling: Bytes, onLeft: bool, left: Bytes, right: Bytes)
    requires |cur| == |left| == |right| == 32
    requires (if onLeft then NodeString(sibling, cur) else NodeString(cur, sibling)) == NodeString(left, right)
    ensures cur == if onLeft then right else left
  {
    var x, y := if onLeft then NodeString(sibling, cur) else NodeString(cur, sibling), NodeString(left, right);
    assert |x| == 33 + |sibling| && |y| == 65;
    assert y[1..33] == left && y[33..] == right;
    assert if onLeft then x[33..] == cur else x[1..33] == cur;
  }

  /** Some node of the tree has the bytes the leaf text decodes to. */
  ghost predicate NamesNode(sha: Sha, leaf: Digest, d: seq<Digest>)
    requires d != []
  {
    exists t :: t in Nodes(NodeText(sha), d) && Dec(t) == Dec(leaf)
  }

  /** Every string hashed for a tree over rows, the rows included. */
  function LogStrings(sha: Sha, rows: seq<Bytes>): set<Bytes> {
    TreeStrings(sha, LeafTexts(sha, rows)) + RowSet(rows)
  }

  /** The tree over a slice of rows is the slice of the tree. */
  lemma LeafTextsSlice(sha: Sha, rows: seq<Bytes>, i: nat, j: nat)
    requires i <= j <= |rows|
    ensures LeafTexts(sha, rows)[i..j] == LeafTexts(sha, rows[i..j])
  {
  }

  lemma RowHalves(sha: Sha, rows: seq<Bytes>)
    requires IsSha(sha) && |rows| > 1
    ensures var k, d := Split(|rows|), LeafTexts(sha, rows);
      && LeftHalf(d) == LeafTexts(sha, rows[..k]) && RightHalf(d) == LeafTexts(sha, rows[k..])
      && LogStrings(sha, rows[..k]) <= LogStrings(sha, rows) && LogStrings(sha, rows[k..]) <= LogStrings(sha, rows)
  {
    var k, d := Split(|rows|), LeafTexts(sha, rows);
    LeafTextsSlice(sha, rows, 0, k);
    LeafTextsSlice(sha, rows, k, |rows|);
    assert rows[0..k] == rows[..k] && rows[k..|rows|] == rows[k..] && d[0..k] == d[..k] && d[k..|rows|] == d[k..];
    HalvesOf(sha, d);
  }

  /** One level of the climb against one level of the tree. */
  lemma ClimbMeetsTree(sha: Sha, leaf: Digest, proof: seq<ProofItem>, rows: seq<Bytes>)
    requires IsSha(sha) && |rows| > 1 && proof != [] && |Dec(leaf)| == 32
    requires Dec(Climb(NodeText(sha), leaf, proof)) == Dec(Mth(NodeText(sha), LeafTexts(sha, rows)))
    ensures var rest, k := proof[..|proof| - 1], Split(|rows|);
      || Collision(sha, ProofStrings(sha, leaf, proof), LogStrings(sha, rows))
      || Dec(Climb(NodeText(sha), leaf, rest)) ==
           Dec(Mth(NodeText(sha), LeafTexts(sha, if proof[|proof| - 1].side == Left then rows[k..] else rows[..k])))
  {
    var d, rest, item, k, h := LeafTexts(sha, rows), proof[..|proof| - 1], proof[|proof| - 1], Split(|rows|), NodeText(sha);
    ClimbStep(sha, leaf, proof);
    ClimbIs32(sha, leaf, rest);
    RowHalves(sha, rows);
    HalvesOf(sha, d);
    LeavesAreCanonical(sha, rows[..k]);
    LeavesAreCanonical(sha, rows[k..]);
    MthIsCanonical(sha, LeftHalf(d));
    MthIsCanonical(sha, RightHalf(d));
    var cur, l, r := Dec(Climb(h, leaf, rest)), Dec(Mth(h, LeftHalf(d))), Dec(Mth(h, RightHalf(d)));
    var p, q := PairString(PairWith(Climb(h, leaf, rest), item)), NodeString(l, r);
    HexDecodes(sha(q));
    if p == q {
      SameNode(cur, Dec(item.hash), item.side == Left, l, r);
    } else {
      CollisionAt(sha, ProofStrings(sha, leaf, proof), LogStrings(sha, rows), p, q);
    }
  }

  lemma NodesOfHalf(sha: Sha, rows: seq<Bytes>, leaf: Digest, right: bool)
    requires IsSha(sha) && |rows| > 1
    requires NamesNode(sha, leaf, LeafTexts(sha, if right then rows[Split(|rows|)..] else rows[..Split(|rows|)]))
    ensures NamesNode(sha, leaf, LeafTexts(sha, rows))
  {
    RowHalves(sha, rows);
    HalvesOf(sha, LeafTexts(sha, rows));
  }

  /** Nothing climbs to a leaf of the log: rows and nodes are hashed under different tags. */
  lemma ClimbMeetsRow(sha: Sha, leaf: Digest, proof: seq<ProofItem>, rows: seq<Bytes>)
    requires IsSha(sha) && AllRows(rows) && |rows| == 1 && proof != []
    requires Dec(Climb(NodeText(sha), leaf, proof)) == Dec(Mth(NodeText(sha), LeafTexts(sha, rows)))
    ensures Collision(sha, ProofStrings(sha, leaf, proof), LogStrings(sha, rows))
  {
    var pair := PairWith(Climb(NodeText(sha), leaf, proof[..|proof| - 1]), proof[|proof| - 1]);
    ClimbStep(sha, leaf, proof);
    KindsDiffer(rows[0], Dec(pair.0), Dec(pair.1));
    HexDecodes(sha(rows[0]));
    CollisionAt(sha, ProofStrings(sha, leaf, proof), LogStrings(sha, rows), PairString(pair), rows[0]);
  }

  /** A climb from 32 bytes to the root of a log starts at one of its nodes, or shows a collision. */
  lemma {:induction false} ClimbStartsAtNode(sha: Sha, leaf: Digest, proof: seq<ProofItem>, rows: seq<Bytes>)
    requires IsSha(sha) && AllRows(rows) && rows != [] && |Dec(leaf)| == 32
    requires Dec(Climb(NodeText(sha), leaf, proof)) == Dec(Mth(NodeText(sha), LeafTexts(sha, rows)))
    ensures NamesNode(sha, leaf, LeafTexts(sha, rows)) || Collision(sha, ProofStrings(sha, leaf, proof), LogStrings(sha, rows))
    decreases |proof|
  {
    if proof == [] {
      LeavesAreCanonical(sha, rows);
      NodesAreCanonical(sha, LeafTexts(sha, rows));
    } else if |rows| == 1 {
      ClimbMeetsRow(sha, leaf, proof, rows);
    } else {
      var rest, onLeft := proof[..|proof| - 1], proof[|proof| - 1].side == Left;
      ClimbMeetsTree(sha, leaf, proof, rows);
      if !Collision(sha, ProofStrings(sha, leaf, proof), LogStrings(sha, rows)) {
        var half := if onLeft then rows[Split(|rows|)..] else rows[..Split(|rows|)];
        ClimbStartsAtNode(sha, leaf, rest, half);
        HalfSpreads(sha, leaf, proof, rows, half, onLeft);
      }
    }
  }

  /** What was found in one half holds of the whole. */
  lemma HalfSpreads(sha: Sha, leaf: Digest, proof: seq<ProofItem>, rows: seq<Bytes>, half: seq<Bytes>, onLeft: bool)
    requires IsSha(sha) && |rows| > 1 && proof != []
    requires half == if onLeft then rows[Split(|rows|)..] else rows[..Split(|rows|)]
    requires NamesNode(sha, leaf, LeafTexts(sha, half)) || Collision(sha, ProofStrings(sha, leaf, proof[..|proof| - 1]), LogStrings(sha, half))
    ensures NamesNode(sha, leaf, LeafTexts(sha, rows)) || Collision(sha, ProofStrings(sha, leaf, proof), LogStrings(sha, rows))
  {
    RowHalves(sha, rows);
    ClimbStep(sha, leaf, proof);
    CollisionSpreads(sha, ProofStrings(sha, leaf, proof[..|proof| - 1]), LogStrings(sha, half), ProofStrings(sha, leaf, proof), LogStrings(sha, rows));
    if NamesNode(sha, leaf, LeafTexts(sha, half)) { NodesOfHalf(sha, rows, leaf, onLeft); }
  }

  /** The root of a log of rows, as the auditor publishes it. */
  function LogRoot(sha: Sha, rows: seq<Bytes>): Digest {
    RootOf(NodeText(sha), Texts(sha).empty, LeafTexts(sha, rows))
  }

  /** `verify_inclusion` accepts a leaf text against the log. */
  predicate AcceptsFor(sha: Sha, rows: seq<Bytes>, leaf: Digest, j: int, proof: seq<ProofItem>) {
    Accepts(Texts(sha), leaf, j, proof, |rows|, LogRoot(sha, rows))
  }

  /**
   An accepted leaf text stands for a node of the tree if and only if it decodes to 32
   bytes, or two different hashed strings collide. The code does not look at its length,
   nor does it tell inner nodes from leaves.
   */
  lemma AcceptedIsNodeIff(sha: Sha, rows: seq<Bytes>, leaf: Digest, j: int, proof: seq<ProofItem>)
    requires IsSha(sha) && AllRows(rows) && rows != [] && AcceptsFor(sha, rows, leaf, j, proof)
    ensures || (NamesNode(sha, leaf, LeafTexts(sha, rows)) <==> |Dec(leaf)| == 32)
            || Collision(sha, ProofStrings(sha, leaf, proof), LogStrings(sha, rows))
  {
    if |Dec(leaf)| == 32 {
      ClimbStartsAtNode(sha, leaf, proof, rows);
    } else {
      LeavesAreCanonical(sha, rows);
      NodesAreCanonical(sha, LeafTexts(sha, rows));
    }
  }

  /** What a node of a tree over rows hashes: a row of the log, or two nodes below it. */
  lemma {:induction false} NodeHashes(sha: Sha, rows: seq<Bytes>, t: Digest)
    requires IsSha(sha) && rows != [] && t in Nodes(NodeText(sha), LeafTexts(sha, rows))
    ensures exists q :: q in LogStrings(sha, rows) && t == ToHex(sha(q)) && (q in rows || IsNodeString(q))
    decreases |rows|
  {
    var d := LeafTexts(sha, rows);
    if |rows| == 1 {
      assert rows[0] in LogStrings(sha, rows) && t == ToHex(sha(rows[0]));
    } else {
      HalvesOf(sha, d);
      RowHalves(sha, rows);
      var k, h := Split(|rows|), NodeText(sha);
      if t == Mth(h, d) {
        var q := NodeString(Dec(Mth(h, LeftHalf(d))), Dec(Mth(h, RightHalf(d))));
        assert q in LogStrings(sha, rows) && IsNodeString(q);
      } else {
        var half := if t in Nodes(h, LeftHalf(d)) then rows[..k] else rows[k..];
        NodeHashes(sha, half, t);
        var q :| q in LogStrings(sha, half) && t == ToHex(sha(q)) && (q in half || IsNodeString(q));
        assert q in LogStrings(sha, rows) && (q in half ==> q in rows);
      }
    }
  }

  /**
   Membership: when the accepted leaf text is the hash of a row, that row is in the log,
   or two different hashed strings collide. Its position is not claimed.
   */
  lemma AcceptedIsMember(sha: Sha, rows: seq<Bytes>, row: Bytes, leaf: Digest, j: int, proof: seq<ProofItem>)
    requires IsSha(sha) && AllRows(rows) && rows != [] && AcceptsFor(sha, rows, leaf, j, proof)
    requires IsLeafString(row) && Dec(leaf) == sha(row)
    ensures row in rows || Collision(sha, ProofStrings(sha, leaf, proof) + {row}, LogStrings(sha, rows))
  {
    var ps, ls := ProofStrings(sha, leaf, proof), LogStrings(sha, rows);
    AcceptedIsNodeIff(sha, rows, leaf, j, proof);
    CollisionSpreads(sha, ps, ls, ps + {row}, ls);
    if NamesNode(sha, leaf, LeafTexts(sha, rows)) && row !in rows {
      var t :| t in Nodes(NodeText(sha), LeafTexts(sha, rows)) && Dec(t) == Dec(leaf);
      NodeHashes(sha, rows, t);
      var q :| q in ls && t == ToHex(sha(q)) && (q in rows || IsNodeString(q));
      HexDecodes(sha(q));
      assert row[0] == LEAF_TAG[0];
      CollisionAt(sha, ps + {row}, ls, row, q);
    }
  }

  // ---- what is accepted ------------------------------------------------

  lemma LeadsExtends(hs: Hashing, leaf: Digest, proof: seq<ProofItem>, root: Digest, item: ProofItem)
    requires Leads(hs, leaf, proof, root) && IsDigest(hs, root) && IsDigest(hs, item.hash) && !item.side.Other?
    ensures Leads(hs, leaf, proof + [item], Hash(hs.node, PairWith(root, item)))
  {
    var all := proof + [item];
    assert all[..|all| - 1] == proof;
    forall i | 0 <= i < |all| ensures ErrorAt(hs, leaf, all, i).None? {
      assert all[..i] == proof[..i];
      if i < |proof| { assert ErrorAt(hs, leaf, proof, i).None?; } else { assert all[..i] == proof; }
    }
  }

  /** The text of every node, leaf or not, has a proof that is accepted. */
  lemma {:induction false} EveryNodeLeads(sha: Sha, d: seq<Digest>, t: Digest) returns (proof: seq<ProofItem>)
    requires IsSha(sha) && d != [] && AllCanonical(d) && t in Nodes(NodeText(sha), d)
    ensures Leads(Texts(sha), t, proof, Mth(NodeText(sha), d))
    decreases |d|
  {
    var h := NodeText(sha);
    if t == Mth(h, d) {
      proof := [];
    } else {
      var left, right := LeftHalf(d), RightHalf(d);
      HalvesOf(sha, d);
      MthIsCanonical(sha, left);
      MthIsCanonical(sha, right);
      CanonicalIsDigest(sha, Mth(h, left));
      CanonicalIsDigest(sha, Mth(h, right));
      var inner, item, root;
      if t in Nodes(h, left) {
        inner := EveryNodeLeads(sha, left, t);
        item, root := ProofItem(Right, Mth(h, right)), Mth(h, left);
      } else {
        inner := EveryNodeLeads(sha, right, t);
        item, root := ProofItem(Left, Mth(h, left)), Mth(h, right);
      }
      LeadsExtends(Texts(sha), t, inner, root, item);
      proof := inner + [item];
    }
  }

  /** So inner nodes pass for leaves: every node of the tree of a log is accepted at every index of it. */
  lemma EveryNodeIsAccepted(sha: Sha, rows: seq<Bytes>, t: Digest, j: int)
    requires IsSha(sha) && 0 <= j < |rows| && t in Nodes(NodeText(sha), LeafTexts(sha, rows))
    ensures exists proof :: AcceptsFor(sha, rows, t, j, proof)
  {
    LeavesAreCanonical(sha, rows);
    var proof := EveryNodeLeads(sha, LeafTexts(sha, rows), t);
    assert AcceptsFor(sha, rows, t, j, proof);
  }

  /** A leaf text of 40 bytes and its sibling of 24: their bytes together are those of two leaves. */
  function LongLeaf(left: Digest, right: Digest): Digest
    requires |Dec(right)| == 32
  {
    ToHex(Dec(left) + Dec(right)[..8])
  }

  function ShortSibling(right: Digest): ProofItem
    requires |Dec(right)| == 32
  {
    ProofItem(Right, ToHex(Dec(right)[8..]) + Spaces(16))
  }

  /**
   A leaf text of the wrong length is accepted for a log of two rows, whatever the hash:
   it decodes to 40 bytes, so it is no node of the tree, and no hash has collided.
   */
  lemma LongLeafIsAccepted(sha: Sha, rows: seq<Bytes>)
    requires IsSha(sha) && |rows| == 2
    ensures var d := LeafTexts(sha, rows);
      && Canonical(d[0]) && Canonical(d[1])
      && AcceptsFor(sha, rows, LongLeaf(d[0], d[1]), 0, [ShortSibling(d[1])])
      && |Dec(LongLeaf(d[0], d[1]))| == 40 && !NamesNode(sha, LongLeaf(d[0], d[1]), d) && LongLeaf(d[0], d[1]) !in d
      && ProofStrings(sha, LongLeaf(d[0], d[1]), [ShortSibling(d[1])]) == TreeStrings(sha, d)
  {
    var d := LeafTexts(sha, rows);
    LeavesAreCanonical(sha, rows);
    NodesAreCanonical(sha, d);
    var leaf, item := LongLeaf(d[0], d[1]), ShortSibling(d[1]);
    HexDecodes(Dec(d[0]) + Dec(d[1])[..8]);
    HexReadsBack(Dec(d[1])[8..], 16);
    assert Dec(item.hash) == Dec(d[1])[8..];
    assert NodeString(Dec(leaf), Dec(item.hash)) == NodeString(Dec(d[0]), Dec(d[1]));
    LongLeafLeads(sha, d, leaf, item);
  }

  lemma LongLeafLeads(sha: Sha, d: seq<Digest>, leaf: Digest, item: ProofItem)
    requires IsSha(sha) && |d| == 2 && AllCanonical(d) && item.side == Right && |item.hash| == 64
    requires FromHex(leaf).Some? && FromHex(item.hash).Some?
    requires NodeString(Dec(leaf), Dec(item.hash)) == NodeString(Dec(d[0]), Dec(d[1]))
    ensures Leads(Texts(sha), leaf, [item], Mth(NodeText(sha), d))
    ensures ProofStrings(sha, leaf, [item]) == TreeStrings(sha, d)
  {
    var h := NodeText(sha);
    assert [item][..0] == [];
    assert d[..1] == [d[0]] && d[1..] == [d[1]];
    MthStep(h, d, 1, [d[0]], [d[1]]);
    PairsStep(h, d, 1, [d[0]], [d[1]]);
    assert TreePairs(h, d) == {(d[0], d[1])};
    assert TreeStrings(sha, d) == {PairString((d[0], d[1]))};
    assert ProofStrings(sha, leaf, [item]) == {PairString((leaf, item.hash))};
  }

  /** In the empty log, with its fixed root, everything is accepted. */
  lemma EmptyLogAcceptsAll(sha: Sha, leaf: Digest, j: int, proof: seq<ProofItem>)
    ensures AcceptsFor(sha, [], leaf, j, proof)
  {
  }

  // ---- roots bind logs -------------------------------------------------

  lemma {:induction false} PairsAreCanonical(sha: Sha, d: seq<Digest>)
    requires IsSha(sha) && d != [] && AllCanonical(d)
    ensures forall p | p in TreePairs(NodeText(sha), d) :: Canonical(p.0) && Canonical(p.1)
    decreases |d|
  {
    if |d| > 1 {
      var left, right := LeftHalf(d), RightHalf(d);
      PairsStep(NodeText(sha), d, Split(|d|), left, right);
      PairsAreCanonical(sha, left);
      PairsAreCanonical(sha, right);
      MthIsCanonical(sha, left);
      MthIsCanonical(sha, right);
    }
  }

  /** Different pairs of canonical texts are different strings to hash. */
  lemma PairStringInjective(p: Pair, q: Pair)
    requires Canonical(p.0) && Canonical(p.1) && Canonical(q.0) && Canonical(q.1) && PairString(p) == PairString(q)
    ensures p == q
  {
    var x, y := PairString(p), PairString(q);
    assert x[1..33] == Dec(p.0) && x[33..] == Dec(p.1) && y[1..33] == Dec(q.0) && y[33..] == Dec(q.1);
  }

  lemma ClashIsCollision(sha: Sha, a: seq<Digest>, b: seq<Digest>)
    requires IsSha(sha) && a != [] && b != [] && AllCanonical(a) && AllCanonical(b)
    ensures Clash(NodeText(sha), TreePairs(NodeText(sha), a), TreePairs(NodeText(sha), b)) ==>
              Collision(sha, TreeStrings(sha, a), TreeStrings(sha, b))
  {
    var ps, qs, h := TreePairs(NodeText(sha), a), TreePairs(NodeText(sha), b), NodeText(sha);
    if Clash(h, ps, qs) {
      var p, q :| p in ps && q in qs && p != q && Hash(h, p) == Hash(h, q);
      PairsAreCanonical(sha, a);
      PairsAreCanonical(sha, b);
      if PairString(p) == PairString(q) { PairStringInjective(p, q); }
      HexInjective(sha(PairString(p)), sha(PairString(q)));
      CollisionAt(sha, TreeStrings(sha, a), TreeStrings(sha, b), PairString(p), PairString(q));
    }
  }

  /** Two lists of one length with one root are equal, or the two trees hash different strings to one value. */
  lemma SameSizeTreesBind(sha: Sha, a: seq<Digest>, b: seq<Digest>)
    requires IsSha(sha) && AllCanonical(a) && AllCanonical(b) && |a| == |b|
    requires RootOf(NodeText(sha), Texts(sha).empty, a) == RootOf(NodeText(sha), Texts(sha).empty, b)
    ensures a == b || Collision(sha, TreeStrings(sha, a), TreeStrings(sha, b))
  {
    if a != [] {
      SameSizeRootsBind(NodeText(sha), a, b);
      ClashIsCollision(sha, a, b);
    }
  }

  /** A node of one tree that is a leaf text of the other log. */
  lemma MeetsIsCollision(sha: Sha, xs: seq<Bytes>, ys: seq<Bytes>)
    requires IsSha(sha) && AllRows(ys) && xs != []
    ensures Meets(NodeText(sha), TreePairs(NodeText(sha), LeafTexts(sha, xs)), LeafTexts(sha, ys)) ==>
              Collision(sha, LogStrings(sha, xs), LogStrings(sha, ys))
  {
    var d, e, h := LeafTexts(sha, xs), LeafTexts(sha, ys), NodeText(sha);
    if Meets(h, TreePairs(h, d), e) {
      var p :| p in TreePairs(h, d) && Hash(h, p) in e;
      var i :| 0 <= i < |e| && e[i] == Hash(h, p);
      HexInjective(sha(ys[i]), sha(PairString(p)));
      KindsDiffer(ys[i], Dec(p.0), Dec(p.1));
      assert ys[i] in RowSet(ys);
      CollisionAt(sha, LogStrings(sha, xs), LogStrings(sha, ys), PairString(p), ys[i]);
    }
  }

  lemma CollisionSwaps(sha: Sha, ps: set<Bytes>, qs: set<Bytes>)
    requires Collision(sha, ps, qs)
    ensures Collision(sha, qs, ps)
  {
    var p, q :| p in ps && q in qs && p != q && sha(p) == sha(q);
    CollisionAt(sha, qs, ps, q, p);
  }

  lemma ConfusionIsCollision(sha: Sha, xs: seq<Bytes>, ys: seq<Bytes>)
    requires IsSha(sha) && AllRows(xs) && AllRows(ys) && xs != [] && ys != []
    requires Confusable(NodeText(sha), LeafTexts(sha, xs), LeafTexts(sha, ys))
    ensures Collision(sha, LogStrings(sha, xs), LogStrings(sha, ys))
  {
    LeavesAreCanonical(sha, xs);
    LeavesAreCanonical(sha, ys);
    var d, e := LeafTexts(sha, xs), LeafTexts(sha, ys);
    ClashIsCollision(sha, d, e);
    CollisionSpreads(sha, TreeStrings(sha, d), TreeStrings(sha, e), LogStrings(sha, xs), LogStrings(sha, ys));
    MeetsIsCollision(sha, xs, ys);
    MeetsIsCollision(sha, ys, xs);
    if Meets(NodeText(sha), TreePairs(NodeText(sha), e), d) { CollisionSwaps(sha, LogStrings(sha, ys), LogStrings(sha, xs)); }
  }

  /** Equal leaf texts come from equal rows. */
  lemma SameLeavesSameRows(sha: Sha, xs: seq<Bytes>, ys: seq<Bytes>)
    requires LeafTexts(sha, xs) == LeafTexts(sha, ys)
    ensures xs == ys || Collision(sha, LogStrings(sha, xs), LogStrings(sha, ys))
  {
    var d, e := LeafTexts(sha, xs), LeafTexts(sha, ys);
    assert |d| == |xs| && |e| == |ys|;
    if xs != ys {
      var i :| 0 <= i < |xs| && xs[i] != ys[i];
      assert d[i] == e[i];
      HexInjective(sha(xs[i]), sha(ys[i]));
      assert xs[i] in RowSet(xs) && ys[i] in RowSet(ys);
      CollisionAt(sha, LogStrings(sha, xs), LogStrings(sha, ys), xs[i], ys[i]);
    }
  }

  /** The root of a non-empty log against the fixed root of the empty one. */
  lemma EmptyRootApart(sha: Sha, xs: seq<Bytes>)
    requires IsSha(sha) && AllRows(xs) && xs != [] && LogRoot(sha, xs) == Texts(sha).empty
    ensures Collision(sha, LogStrings(sha, xs), {EMPTY_TREE})
  {
    var d := LeafTexts(sha, xs);
    LeavesAreCanonical(sha, xs);
    NodesAreCanonical(sha, d);
    NodeHashes(sha, xs, Mth(NodeText(sha), d));
    var q :| q in LogStrings(sha, xs) && Mth(NodeText(sha), d) == ToHex(sha(q)) && (q in xs || IsNodeString(q));
    HexInjective(sha(q), sha(EMPTY_TREE));
    EmptyTreeApart(q);
    CollisionAt(sha, LogStrings(sha, xs), {EMPTY_TREE}, q, EMPTY_TREE);
  }

  /** The strings that stand behind the root of a log, which may be empty. */
  function RootStrings(sha: Sha, rows: seq<Bytes>): set<Bytes> {
    if rows == [] then {EMPTY_TREE} else LogStrings(sha, rows)
  }

  /** A root names one log of rows, of whatever length, or two different strings that were hashed collide. */
  lemma RootNamesLog(sha: Sha, xs: seq<Bytes>, ys: seq<Bytes>)
    requires IsSha(sha) && AllRows(xs) && AllRows(ys) && LogRoot(sha, xs) == LogRoot(sha, ys)
    ensures xs == ys || Collision(sha, RootStrings(sha, xs), RootStrings(sha, ys))
  {
    if xs != [] && ys != [] {
      RootsBind(NodeText(sha), LeafTexts(sha, xs), LeafTexts(sha, ys));
      if LeafTexts(sha, xs) == LeafTexts(sha, ys) {
        SameLeavesSameRows(sha, xs, ys);
      } else {
        ConfusionIsCollision(sha, xs, ys);
      }
    } else if xs != [] {
      EmptyRootApart(sha, xs);
    } else if ys != [] {
      EmptyRootApart(sha, ys);
      CollisionSwaps(sha, LogStrings(sha, ys), {EMPTY_TREE});
    }
  }
}
