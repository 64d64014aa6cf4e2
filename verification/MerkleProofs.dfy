/**
 The client's check of an inclusion proof against the auditor's tree, for every node
 hash on texts: what it returns, that the auditor's own proofs pass, and that roots
 bind lists up to a clash of two hashed pairs. MerkleSha.dfy has the hash of the source.
 */
module MerkleProofs {
  import opened Wrappers
  import opened MerkleTree

  type Pair = (Digest, Digest)

  /** A node hash on texts, the empty root, and which texts can be decoded. */
  datatype Hashing = Hashing(node: NodeHash, empty: Digest, isHex: Digest -> bool)

  /** What a hash in hexadecimal looks like. */
  predicate IsDigest(hs: Hashing, d: Digest) {
    |d| == 64 && hs.isHex(d)
  }

  /** Node hashes are digests. */
  ghost predicate Produces(hs: Hashing) {
    forall a, b :: IsDigest(hs, hs.node(a, b))
  }

  datatype AuditError =
    | CheckpointMalformed | CheckpointSignatureInvalid | EmptyRootInvalid | ProofIndexOutOfRange
    | ProofMalformed | ProofSideMalformed | ProofRootMismatch | NotHexadecimal
    | CheckpointRollback | CheckpointSplitView | ConsistencyProofMalformed
    | ConsistencyPreviousRootMismatch | ConsistencyNewRootMismatch
    | IdentityUserMismatch | IdentityVersionMismatch | IdentityKeyMismatch
    | AuditorHttpError | AuditorUnavailable

  datatype Verdict = Accepted | Rejected(error: AuditError)

  // ---- climbing from a leaf --------------------------------------------

  /** The pair one proof item makes the verifier hash. */
  function PairWith(cur: Digest, item: ProofItem): Pair {
    if item.side == Left then (item.hash, cur) else (cur, item.hash)
  }

  function Hash(h: NodeHash, p: Pair): Digest { h(p.0, p.1) }

  /** Where a proof leads from a leaf. */
  function Climb(h: NodeHash, leaf: Digest, proof: seq<ProofItem>): Digest {
    if proof == [] then leaf
    else Hash(h, PairWith(Climb(h, leaf, proof[..|proof| - 1]), proof[|proof| - 1]))
  }

  /** Why the verifier stops at an item, if it does. */
  function ItemError(hs: Hashing, cur: Digest, item: ProofItem): Option<AuditError> {
    if |item.hash| != 64 then Some(ProofMalformed)
    else if item.side.Other? then Some(ProofSideMalformed)
    else if !hs.isHex(item.hash) || !hs.isHex(cur) then Some(NotHexadecimal)
    else None
  }

  function ErrorAt(hs: Hashing, leaf: Digest, proof: seq<ProofItem>, i: nat): Option<AuditError>
    requires i < |proof|
  {
    ItemError(hs, Climb(hs.node, leaf, proof[..i]), proof[i])
  }

  /** Every item is usable and the climb ends at `root`. */
  predicate Leads(hs: Hashing, leaf: Digest, proof: seq<ProofItem>, root: Digest) {
    (forall i | 0 <= i < |proof| :: ErrorAt(hs, leaf, proof, i).None?) && Climb(hs.node, leaf, proof) == root
  }

  /** `verify_inclusion`. */
  method VerifyInclusion(hs: Hashing, leaf: Digest, leafIndex: int, proof: seq<ProofItem>, treeSize: int, root: Digest)
      returns (v: Verdict)
    ensures v == Accepted <==> Accepts(hs, leaf, leafIndex, proof, treeSize, root)
    ensures treeSize == 0 && v != Accepted ==> v == Rejected(EmptyRootInvalid)
    ensures treeSize != 0 && !(0 <= leafIndex < treeSize) ==> v == Rejected(ProofIndexOutOfRange)
    ensures treeSize != 0 && 0 <= leafIndex < treeSize ==>
      && (forall i | 0 <= i < |proof| && ErrorAt(hs, leaf, proof, i).Some?
                     && (forall j | 0 <= j < i :: ErrorAt(hs, leaf, proof, j).None?) ::
            v == Rejected(ErrorAt(hs, leaf, proof, i).value))
      && ((forall i | 0 <= i < |proof| :: ErrorAt(hs, leaf, proof, i).None?) && v != Accepted ==> v == Rejected(ProofRootMismatch))
  {
    if treeSize == 0 {
      return if root != hs.empty then Rejected(EmptyRootInvalid) else Accepted;
    }
    if leafIndex < 0 || leafIndex >= treeSize { return Rejected(ProofIndexOutOfRange); }
    var cur, idx, i := leaf, leafIndex, 0;
    while i < |proof|
      invariant 0 <= i <= |proof| && cur == Climb(hs.node, leaf, proof[..i])
      invariant forall j | 0 <= j < i :: ErrorAt(hs, leaf, proof, j).None?
    {
      var item := proof[i];
      if |item.hash| != 64 {
        assert ErrorAt(hs, leaf, proof, i) == Some(ProofMalformed);
        return Rejected(ProofMalformed);
      }
      if item.side.Other? {
        assert ErrorAt(hs, leaf, proof, i) == Some(ProofSideMalformed);
        return Rejected(ProofSideMalformed);
      }
      if !hs.isHex(item.hash) || !hs.isHex(cur) {
        assert ErrorAt(hs, leaf, proof, i) == Some(NotHexadecimal);
        return Rejected(NotHexadecimal);
      }
      assert proof[..i + 1][..i] == proof[..i];
      cur := if item.side == Left then hs.node(item.hash, cur) else hs.node(cur, item.hash);
      idx := idx / 2;
      i := i + 1;
    }
    assert proof[..i] == proof;
    v := if cur != root then Rejected(ProofRootMismatch) else Accepted;
  }

  /** A proof is accepted exactly when its items are whole and it leads to the root, or the log is empty and has the empty root. */
  lemma AcceptsIff(hs: Hashing, leaf: Digest, leafIndex: int, proof: seq<ProofItem>, treeSize: int, root: Digest)
    ensures Accepts(hs, leaf, leafIndex, proof, treeSize, root) <==>
      || (treeSize == 0 && root == hs.empty)
      || (treeSize != 0 && 0 <= leafIndex < treeSize && Climb(hs.node, leaf, proof) == root
          && forall i | 0 <= i < |proof| :: WholeItem(hs, leaf, proof, i))
  {
    forall i | 0 <= i < |proof| ensures WholeItem(hs, leaf, proof, i) <==> ErrorAt(hs, leaf, proof, i).None? {
    }
  }

  /** What the verifier says of the first item that is not whole. */
  lemma ItemErrorsAre(hs: Hashing, leaf: Digest, proof: seq<ProofItem>, i: nat)
    requires i < |proof|
    ensures var e, item := ErrorAt(hs, leaf, proof, i), proof[i];
      && (e == Some(ProofMalformed) <==> |item.hash| != 64)
      && (e == Some(ProofSideMalformed) <==> |item.hash| == 64 && item.side != Left && item.side != Right)
      && (e.None? <==> WholeItem(hs, leaf, proof, i))
  {
  }

  /** An item of 64 digits on one of the two sides, reached with a hexadecimal text. */
  predicate WholeItem(hs: Hashing, leaf: Digest, proof: seq<ProofItem>, i: nat)
    requires i < |proof|
  {
    && |proof[i].hash| == 64 && (proof[i].side == Left || proof[i].side == Right)
    && hs.isHex(proof[i].hash) && hs.isHex(Climb(hs.node, leaf, proof[..i]))
  }

  // ---- completeness ----------------------------------------------------

  /** The audit path leads from its leaf to the root. */
  lemma {:induction false} PathLeadsToRoot(h: NodeHash, m: nat, d: seq<Digest>)
    requires m < |d|
    ensures Climb(h, d[m], Path(h, m, d)) == Mth(h, d)
    decreases |d|
  {
    if |d| > 1 {
      var k := Split(|d|);
      var p := Path(h, m, d);
      if m < k {
        PathLeadsToRoot(h, m, d[..k]);
        assert p[..|p| - 1] == Path(h, m, d[..k]);
      } else {
        PathLeadsToRoot(h, m - k, d[k..]);
        assert p[..|p| - 1] == Path(h, m - k, d[k..]);
      }
    }
  }

  lemma {:induction false} MthIsDigest(hs: Hashing, d: seq<Digest>)
    requires Produces(hs) && d != [] && forall x | x in d :: IsDigest(hs, x)
    ensures IsDigest(hs, Mth(hs.node, d))
  {
  }

  lemma {:induction false} PathItemsUsable(hs: Hashing, m: nat, d: seq<Digest>)
    requires Produces(hs) && m < |d| && forall x | x in d :: IsDigest(hs, x)
    ensures forall item | item in Path(hs.node, m, d) :: IsDigest(hs, item.hash) && !item.side.Other?
    decreases |d|
  {
    if |d| > 1 {
      var k := Split(|d|);
      MthIsDigest(hs, d[..k]);
      MthIsDigest(hs, d[k..]);
      if m < k { PathItemsUsable(hs, m, d[..k]); } else { PathItemsUsable(hs, m - k, d[k..]); }
    }
  }

  lemma UsableItemsPass(hs: Hashing, leaf: Digest, proof: seq<ProofItem>, i: nat)
    requires Produces(hs) && IsDigest(hs, leaf) && i < |proof|
    requires forall item | item in proof :: IsDigest(hs, item.hash) && !item.side.Other?
    ensures ErrorAt(hs, leaf, proof, i).None?
  {
    assert IsDigest(hs, Climb(hs.node, leaf, proof[..i]));
  }

  /** Every proof the auditor makes for a list of digests leads from its leaf to its root. */
  lemma HonestProofLeads(hs: Hashing, leaves: seq<Digest>, m: nat)
    requires Produces(hs) && m < |leaves| && forall x | x in leaves :: IsDigest(hs, x)
    ensures Leads(hs, leaves[m], Path(hs.node, m, leaves), RootOf(hs.node, hs.empty, leaves))
  {
    var proof := Path(hs.node, m, leaves);
    PathLeadsToRoot(hs.node, m, leaves);
    PathItemsUsable(hs, m, leaves);
    forall i | 0 <= i < |proof| ensures ErrorAt(hs, leaves[m], proof, i).None? {
      UsableItemsPass(hs, leaves[m], proof, i);
    }
  }

  /** Auditor and client together: every leaf of every list verifies. */
  method ProveAndVerify(hs: Hashing, leaves: seq<Digest>, index: int) returns (v: Verdict)
    requires Produces(hs) && forall x | x in leaves :: IsDigest(hs, x)
    requires 0 <= index < |leaves|
    ensures v == Accepted
  {
    var root := Root(hs.node, hs.empty, leaves);
    var proof := InclusionProof(hs.node, leaves, index);
    HonestProofLeads(hs, leaves, index);
    v := VerifyInclusion(hs, leaves[index], index, proof, |leaves|, root);
  }

  // ---- soundness -------------------------------------------------------

  /** The pairs the tree over `d` hashes. */
  function TreePairs(h: NodeHash, d: seq<Digest>): set<Pair>
    requires d != []
    decreases |d|
  {
    if |d| == 1 then {}
    else
      var k := Split(|d|);
      {(Mth(h, d[..k]), Mth(h, d[k..]))} + TreePairs(h, d[..k]) + TreePairs(h, d[k..])
  }

  /** Two different pairs, one from each set, with one hash. */
  ghost predicate Clash(h: NodeHash, ps: set<Pair>, qs: set<Pair>) {
    exists p, q :: p in ps && q in qs && p != q && Hash(h, p) == Hash(h, q)
  }

  /** Some pair of `ps` hashes to one of `ds`. */
  ghost predicate Meets(h: NodeHash, ps: set<Pair>, ds: seq<Digest>) {
    exists p :: p in ps && Hash(h, p) in ds
  }

  /** Two lists that could share a root: the trees clash, or a leaf of one is a node hash of the other. */
  ghost predicate Confusable(h: NodeHash, a: seq<Digest>, b: seq<Digest>)
    requires a != [] && b != []
  {
    Clash(h, TreePairs(h, a), TreePairs(h, b)) || Meets(h, TreePairs(h, a), b) || Meets(h, TreePairs(h, b), a)
  }

  lemma ConfusionSpreads(h: NodeHash, a: seq<Digest>, b: seq<Digest>, a': seq<Digest>, b': seq<Digest>)
    requires a != [] && b != [] && a' != [] && b' != []
    requires TreePairs(h, a') <= TreePairs(h, a) && TreePairs(h, b') <= TreePairs(h, b)
    requires (forall x | x in a' :: x in a) && (forall x | x in b' :: x in b)
    ensures Confusable(h, a', b') ==> Confusable(h, a, b)
  {
  }

  function LeftHalf(d: seq<Digest>): seq<Digest> requires |d| > 1 { d[..Split(|d|)] }

  function RightHalf(d: seq<Digest>): seq<Digest> requires |d| > 1 { d[Split(|d|)..] }

  lemma PairsStep(h: NodeHash, d: seq<Digest>, k: nat, left: seq<Digest>, right: seq<Digest>)
    requires |d| > 1 && k == Split(|d|) && left == d[..k] && right == d[k..]
    ensures TreePairs(h, d) == {(Mth(h, left), Mth(h, right))} + TreePairs(h, left) + TreePairs(h, right)
  {
  }

  /** A tree with two halves: its pairs are the pair of their roots and the pairs of each. */
  lemma TreeHalves(h: NodeHash, d: seq<Digest>)
    requires |d| > 1
    ensures var l, r := LeftHalf(d), RightHalf(d);
      && l != [] && r != [] && d == l + r
      && Mth(h, d) == Hash(h, (Mth(h, l), Mth(h, r))) && (Mth(h, l), Mth(h, r)) in TreePairs(h, d)
      && TreePairs(h, l) <= TreePairs(h, d) && TreePairs(h, r) <= TreePairs(h, d)
  {
    RootOfHalves(h, d, LeftHalf(d), RightHalf(d));
    PairsOfHalves(h, d, LeftHalf(d), RightHalf(d));
  }

  lemma RootOfHalves(h: NodeHash, d: seq<Digest>, l: seq<Digest>, r: seq<Digest>)
    requires |d| > 1 && l == LeftHalf(d) && r == RightHalf(d)
    ensures l != [] && r != [] && d == l + r && Mth(h, d) == Hash(h, (Mth(h, l), Mth(h, r)))
  {
    var k := Split(|d|);
    HalvesJoin(d, k, l, r);
    MthStep(h, d, k, l, r);
  }

  lemma HalvesJoin(d: seq<Digest>, k: nat, l: seq<Digest>, r: seq<Digest>)
    requires 0 < k < |d| && l == d[..k] && r == d[k..]
    ensures l != [] && r != [] && d == l + r
  {
  }

  lemma PairsOfHalves(h: NodeHash, d: seq<Digest>, l: seq<Digest>, r: seq<Digest>)
    requires |d| > 1 && l == LeftHalf(d) && r == RightHalf(d)
    ensures (Mth(h, l), Mth(h, r)) in TreePairs(h, d) && TreePairs(h, l) <= TreePairs(h, d) && TreePairs(h, r) <= TreePairs(h, d)
  {
    PairsStep(h, d, Split(|d|), l, r);
    PairsInclude(TreePairs(h, d), (Mth(h, l), Mth(h, r)), TreePairs(h, l), TreePairs(h, r));
  }

  lemma PairsInclude(all: set<Pair>, top: Pair, ls: set<Pair>, rs: set<Pair>)
    requires all == {top} + ls + rs
    ensures top in all && ls <= all && rs <= all
  {
  }

  lemma ClashSpreads(h: NodeHash, ps: set<Pair>, qs: set<Pair>, ps': set<Pair>, qs': set<Pair>)
    requires ps <= ps' && qs <= qs'
    ensures Clash(h, ps, qs) ==> Clash(h, ps', qs')
  {
  }

  /** Roots of lists of one length bind the lists, without any domain separation. */
  lemma {:induction false} SameSizeRootsBind(h: NodeHash, a: seq<Digest>, b: seq<Digest>)
    requires a != [] && |a| == |b| && Mth(h, a) == Mth(h, b)
    ensures a == b || Clash(h, TreePairs(h, a), TreePairs(h, b))
    decreases |a|
  {
    if |a| > 1 {
      var a0, a1, b0, b1 := LeftHalf(a), RightHalf(a), LeftHalf(b), RightHalf(b);
      TreeHalves(h, a);
      TreeHalves(h, b);
      var ps, qs := TreePairs(h, a), TreePairs(h, b);
      if (Mth(h, a0), Mth(h, a1)) == (Mth(h, b0), Mth(h, b1)) {
        SameSizeRootsBind(h, a0, b0);
        SameSizeRootsBind(h, a1, b1);
        ClashSpreads(h, TreePairs(h, a0), TreePairs(h, b0), ps, qs);
        ClashSpreads(h, TreePairs(h, a1), TreePairs(h, b1), ps, qs);
      } else {
        ClashAt(h, ps, qs, (Mth(h, a0), Mth(h, a1)), (Mth(h, b0), Mth(h, b1)));
      }
    }
  }

  lemma ClashAt(h: NodeHash, ps: set<Pair>, qs: set<Pair>, p: Pair, q: Pair)
    requires p in ps && q in qs && p != q && Hash(h, p) == Hash(h, q)
    ensures Clash(h, ps, qs)
  {
  }

  /** The case of two trees with halves, given the induction hypothesis for both halves. */
  lemma RootsBindStep(h: NodeHash, a: seq<Digest>, b: seq<Digest>, a0: seq<Digest>, a1: seq<Digest>, b0: seq<Digest>, b1: seq<Digest>)
    requires |a| > 1 && |b| > 1 && Mth(h, a) == Mth(h, b)
    requires a0 == LeftHalf(a) && a1 == RightHalf(a) && b0 == LeftHalf(b) && b1 == RightHalf(b)
    requires Mth(h, a0) == Mth(h, b0) ==> a0 == b0 || Confusable(h, a0, b0)
    requires Mth(h, a1) == Mth(h, b1) ==> a1 == b1 || Confusable(h, a1, b1)
    ensures a == b || Confusable(h, a, b)
  {
    TreeHalves(h, a);
    TreeHalves(h, b);
    ConfusionSpreads(h, a, b, a0, b0);
    ConfusionSpreads(h, a, b, a1, b1);
    var p, q := (Mth(h, a0), Mth(h, a1)), (Mth(h, b0), Mth(h, b1));
    assert p != q ==> Clash(h, TreePairs(h, a), TreePairs(h, b));
  }

  /** `_root` over all non-empty lists, whatever their lengths. */
  lemma {:induction false} RootsBind(h: NodeHash, a: seq<Digest>, b: seq<Digest>)
    requires a != [] && b != [] && Mth(h, a) == Mth(h, b)
    ensures a == b || Confusable(h, a, b)
    decreases |a|
  {
    if |a| > 1 && |b| > 1 {
      var a0, a1, b0, b1 := LeftHalf(a), RightHalf(a), LeftHalf(b), RightHalf(b);
      if Mth(h, a0) == Mth(h, b0) { RootsBind(h, a0, b0); }
      if Mth(h, a1) == Mth(h, b1) { RootsBind(h, a1, b1); }
      RootsBindStep(h, a, b, a0, a1, b0, b1);
    } else if |a| > 1 {
      TreeHalves(h, a);
    } else if |b| > 1 {
      TreeHalves(h, b);
    }
  }

  // ---- what the check does not bind ------------------------------------

  /** When `verify_inclusion` accepts. */
  predicate Accepts(hs: Hashing, leaf: Digest, leafIndex: int, proof: seq<ProofItem>, treeSize: int, root: Digest) {
    if treeSize == 0 then root == hs.empty else 0 <= leafIndex < treeSize && Leads(hs, leaf, proof, root)
  }

  /** The index is only range-checked: the proof of leaf `m` is accepted at exactly the indices of the tree. */
  lemma AcceptedAtEveryIndex(hs: Hashing, leaves: seq<Digest>, m: nat, j: int)
    requires Produces(hs) && m < |leaves| && forall x | x in leaves :: IsDigest(hs, x)
    ensures Accepts(hs, leaves[m], j, Path(hs.node, m, leaves), |leaves|, RootOf(hs.node, hs.empty, leaves)) <==> 0 <= j < |leaves|
  {
    HonestProofLeads(hs, leaves, m);
  }
}
