/**
 The auditor's Merkle tree: built layer by layer with odd-node promotion, and
 equal to the recursive tree of section 2.1 of RFC 6962 over the leaf hashes.
 The node hash is a parameter about which nothing is assumed.
 */
module MerkleTree {

  /** A hash in hexadecimal. */
  type Digest = string
  type NodeHash = (Digest, Digest) -> Digest

  /** The `side` of a proof item; `Other` is any text but the two the auditor writes. */
  datatype Side = Left | Right | Other(text: string)

  datatype ProofItem = ProofItem(side: Side, hash: Digest)

  // ---- the recursive definitions of RFC 6962 ---------------------------

  predicate IsPowerOfTwo(n: nat) {
    n == 1 || (n > 1 && n % 2 == 0 && IsPowerOfTwo(n / 2))
  }

  /** The largest power of two below `n`. */
  function Split(n: nat): (k: nat)
    requires n >= 2
    ensures IsPowerOfTwo(k) && 1 <= k < n <= 2 * k
  {
    if n == 2 then 1 else 2 * Split((n + 1) / 2)
  }

  /** MTH of section 2.1. */
  function Mth(h: NodeHash, d: seq<Digest>): Digest
    requires d != []
    decreases |d|
  {
    if |d| == 1 then d[0]
    else var k := Split(|d|); h(Mth(h, d[..k]), Mth(h, d[k..]))
  }

  /** PATH of section 2.1.1, each hash with the side it stands on. */
  function Path(h: NodeHash, m: nat, d: seq<Digest>): seq<ProofItem>
    requires m < |d|
    decreases |d|
  {
    if |d| == 1 then []
    else
      var k := Split(|d|);
      if m < k then Path(h, m, d[..k]) + [ProofItem(Right, Mth(h, d[k..]))]
      else Path(h, m - k, d[k..]) + [ProofItem(Left, Mth(h, d[..k]))]
  }

  /** The root of any log; the empty log has a fixed one. */
  function RootOf(h: NodeHash, empty: Digest, leaves: seq<Digest>): Digest {
    if leaves == [] then empty else Mth(h, leaves)
  }

  /** Least `e` with `n <= 2^e`. */
  function CeilLog2(n: nat): (e: nat) {
    if n <= 1 then 0 else 1 + CeilLog2((n + 1) / 2)
  }

  function Pow2(e: nat): nat {
    if e == 0 then 1 else 2 * Pow2(e - 1)
  }

  lemma {:induction false} CeilLog2IsLeast(n: nat)
    requires n >= 1
    ensures n <= Pow2(CeilLog2(n))
    ensures forall e: nat | n <= Pow2(e) :: CeilLog2(n) <= e
  {
    if n > 1 {
      CeilLog2IsLeast((n + 1) / 2);
      forall e: nat | n <= Pow2(e) ensures CeilLog2(n) <= e {
        assert e > 0 && (n + 1) / 2 <= Pow2(e - 1);
      }
    }
  }

  /** The split point is the only power of two it can be. */
  lemma {:induction false} SplitUnique(n: nat, j: nat)
    requires n >= 2 && IsPowerOfTwo(j) && j < n <= 2 * j
    ensures j == Split(n)
  {
    if n > 2 { SplitUnique((n + 1) / 2, j / 2); }
  }

  // ---- the layers of the source ----------------------------------------

  /** One layer up: pairs are hashed, a last odd one is promoted. */
  function NextLayer(h: NodeHash, cur: seq<Digest>): (nxt: seq<Digest>)
    ensures |nxt| == (|cur| + 1) / 2
  {
    if |cur| <= 1 then cur else [h(cur[0], cur[1])] + NextLayer(h, cur[2..])
  }

  /** The sibling the proof records at one layer: none for a promoted node. */
  function Sibling(cur: seq<Digest>, idx: nat): seq<ProofItem>
    requires idx < |cur|
  {
    if idx % 2 == 1 then [ProofItem(Left, cur[idx - 1])]
    else if idx + 1 < |cur| then [ProofItem(Right, cur[idx + 1])]
    else []
  }

  lemma NextLayerStep(h: NodeHash, cur: seq<Digest>)
    requires |cur| >= 2
    ensures NextLayer(h, cur) == [h(cur[0], cur[1])] + NextLayer(h, cur[2..])
  {
  }

  lemma {:induction false} NextLayerSplits(h: NodeHash, cur: seq<Digest>, k: nat)
    requires k <= |cur| && k % 2 == 0
    ensures NextLayer(h, cur) == NextLayer(h, cur[..k]) + NextLayer(h, cur[k..])
    decreases k
  {
    if k == 0 {
      assert cur[0..] == cur && NextLayer(h, cur[..0]) == [];
    } else {
      var front, rest := cur[..k], cur[2..];
      NextLayerSplits(h, rest, k - 2);
      assert rest[..k - 2] == front[2..] && rest[k - 2..] == cur[k..];
      NextLayerStep(h, cur);
      NextLayerStep(h, front);
    }
  }

  /** Layers are built the same way on both sides of the split point, which halves. */
  lemma LayerAtSplit(h: NodeHash, cur: seq<Digest>)
    requires |cur| > 2
    ensures var k, nxt := Split(|cur|), NextLayer(h, cur);
      && |nxt| >= 2 && k == 2 * Split(|nxt|)
      && nxt[..k / 2] == NextLayer(h, cur[..k]) && nxt[k / 2..] == NextLayer(h, cur[k..])
  {
    NextLayerSplits(h, cur, Split(|cur|));
  }

  /** One step of MTH, with the split point and both halves named. */
  lemma MthStep(h: NodeHash, d: seq<Digest>, k: nat, left: seq<Digest>, right: seq<Digest>)
    requires |d| >= 2 && k == Split(|d|) && left == d[..k] && right == d[k..]
    ensures Mth(h, d) == h(Mth(h, left), Mth(h, right))
  {
  }

  /** A layer and the one above it have the same recursive root. */
  lemma {:induction false} NextLayerKeepsRoot(h: NodeHash, cur: seq<Digest>)
    requires cur != []
    ensures Mth(h, NextLayer(h, cur)) == Mth(h, cur)
    decreases |cur|
  {
    if |cur| > 2 {
      var k := Split(|cur|);
      var left, right := cur[..k], cur[k..];
      LayerAtSplit(h, cur);
      NextLayerKeepsRoot(h, left);
      NextLayerKeepsRoot(h, right);
      MthStep(h, cur, k, left, right);
      MthStep(h, NextLayer(h, cur), k / 2, NextLayer(h, left), NextLayer(h, right));
    } else if |cur| == 2 {
      MthStep(h, cur, 1, [cur[0]], [cur[1]]);
      NextLayerStep(h, cur);
    }
  }

  /** One step of PATH, with the split point and both halves named. */
  lemma PathStep(h: NodeHash, m: nat, d: seq<Digest>, k: nat, left: seq<Digest>, right: seq<Digest>)
    requires m < |d| && |d| >= 2 && k == Split(|d|) && left == d[..k] && right == d[k..]
    ensures Path(h, m, d) == if m < k then Path(h, m, left) + [ProofItem(Right, Mth(h, right))]
                             else Path(h, m - k, right) + [ProofItem(Left, Mth(h, left))]
  {
  }

  /** `PathByLayers` at one tree, stated for the induction. */
  ghost predicate ByLayers(h: NodeHash, m: nat, cur: seq<Digest>)
    requires m < |cur|
  {
    Path(h, m, cur) == Sibling(cur, m) + Path(h, m / 2, NextLayer(h, cur))
  }

  /** One PATH step in a layer and in the layer above, around the induction hypothesis. */
  lemma Reassociate(path: seq<ProofItem>, pathAbove: seq<ProofItem>, sibling: seq<ProofItem>,
                    inner: seq<ProofItem>, above: seq<ProofItem>, last: ProofItem)
    requires path == inner + [last] && pathAbove == above + [last] && inner == sibling + above
    ensures path == sibling + pathAbove
  {
  }

  lemma ExtendPath(path: seq<ProofItem>, done: seq<ProofItem>, sibling: seq<ProofItem>,
                   above: seq<ProofItem>, rest: seq<ProofItem>)
    requires done + rest == path && rest == sibling + above
    ensures done + sibling + above == path
  {
  }

  /** Siblings are found within the half, because the split point is even. */
  lemma SiblingInHalf(m: nat, cur: seq<Digest>, k: nat, left: seq<Digest>, right: seq<Digest>)
    requires m < |cur| && k < |cur| && k % 2 == 0 && left == cur[..k] && right == cur[k..]
    ensures if m < k then Sibling(left, m) == Sibling(cur, m) else Sibling(right, m - k) == Sibling(cur, m)
  {
  }

  /** One step of PATH in the layer above, in terms of the halves below. */
  lemma PathStepAbove(h: NodeHash, m: nat, cur: seq<Digest>, k: nat, left: seq<Digest>, right: seq<Digest>)
    requires m < |cur| && |cur| > 2 && k == Split(|cur|) && left == cur[..k] && right == cur[k..]
    ensures m / 2 < |NextLayer(h, cur)|
    ensures Path(h, m / 2, NextLayer(h, cur)) ==
      if m < k then Path(h, m / 2, NextLayer(h, left)) + [ProofItem(Right, Mth(h, right))]
      else Path(h, (m - k) / 2, NextLayer(h, right)) + [ProofItem(Left, Mth(h, left))]
  {
    LayerAtSplit(h, cur);
    NextLayerKeepsRoot(h, left);
    NextLayerKeepsRoot(h, right);
    assert m >= k ==> m / 2 - k / 2 == (m - k) / 2;
    PathStep(h, m / 2, NextLayer(h, cur), k / 2, NextLayer(h, left), NextLayer(h, right));
  }

  lemma PathInHalf(h: NodeHash, m: nat, cur: seq<Digest>, k: nat, left: seq<Digest>, right: seq<Digest>)
    requires m < |cur| && |cur| > 2 && k == Split(|cur|) && left == cur[..k] && right == cur[k..]
    requires if m < k then ByLayers(h, m, left) else ByLayers(h, m - k, right)
    ensures ByLayers(h, m, cur)
  {
    PathStep(h, m, cur, k, left, right);
    PathStepAbove(h, m, cur, k, left, right);
    SiblingInHalf(m, cur, k, left, right);
    var path, pathAbove, sibling := Path(h, m, cur), Path(h, m / 2, NextLayer(h, cur)), Sibling(cur, m);
    if m < k {
      Reassociate(path, pathAbove, sibling, Path(h, m, left), Path(h, m / 2, NextLayer(h, left)), ProofItem(Right, Mth(h, right)));
    } else {
      Reassociate(path, pathAbove, sibling, Path(h, m - k, right), Path(h, (m - k) / 2, NextLayer(h, right)), ProofItem(Left, Mth(h, left)));
    }
  }

  /** The recursive path is the sibling of this layer followed by the path in the layer above. */
  lemma {:induction false} PathByLayers(h: NodeHash, m: nat, cur: seq<Digest>)
    requires m < |cur|
    ensures ByLayers(h, m, cur)
    decreases |cur|
  {
    if |cur| > 2 {
      var k := Split(|cur|);
      var left, right := cur[..k], cur[k..];
      if m < k { PathByLayers(h, m, left); } else { PathByLayers(h, m - k, right); }
      PathInHalf(h, m, cur, k, left, right);
    } else if |cur| == 2 {
      PathStep(h, m, cur, 1, [cur[0]], [cur[1]]);
    }
  }

  /** A proof has at most ceil(log2 n) items. */
  lemma {:induction false} PathIsShort(h: NodeHash, m: nat, d: seq<Digest>)
    requires m < |d|
    ensures |Path(h, m, d)| <= CeilLog2(|d|)
    decreases |d|
  {
    if |d| > 1 {
      PathByLayers(h, m, d);
      PathIsShort(h, m / 2, NextLayer(h, d));
    }
  }

  // ---- the auditor -----------------------------------------------------

  /** The inner loop both builders run to get from one layer to the next. */
  method PairUp(h: NodeHash, cur: seq<Digest>) returns (nxt: seq<Digest>)
    ensures nxt == NextLayer(h, cur)
  {
    nxt := [];
    var i := 0;
    while i < |cur|
      invariant 0 <= i <= |cur| + 1 && i % 2 == 0
      invariant nxt + (if i < |cur| then NextLayer(h, cur[i..]) else []) == NextLayer(h, cur)
    {
      if i + 1 < |cur| {
        NextLayerStep(h, cur[i..]);
        assert cur[i..][2..] == cur[i + 2..];
        nxt := nxt + [h(cur[i], cur[i + 1])];
      } else {
        nxt := nxt + [cur[i]];
      }
      i := i + 2;
    }
  }

  /** `_tree_layers`: from the leaves up to a single root. */
  method TreeLayers(h: NodeHash, empty: Digest, leaves: seq<Digest>) returns (layers: seq<seq<Digest>>)
    ensures layers != [] && layers[|layers| - 1] == [RootOf(h, empty, leaves)]
    ensures leaves != [] ==> layers[0] == leaves
    ensures forall i | 0 <= i < |layers| - 1 :: |layers[i]| > 1 && layers[i + 1] == NextLayer(h, layers[i])
  {
    if leaves == [] { return [[empty]]; }
    layers := [leaves];
    var cur := leaves;
    while |cur| > 1
      invariant layers != [] && cur == layers[|layers| - 1] != [] && layers[0] == leaves
      invariant Mth(h, cur) == Mth(h, leaves)
      invariant forall i | 0 <= i < |layers| - 1 :: |layers[i]| > 1 && layers[i + 1] == NextLayer(h, layers[i])
      decreases |cur|
    {
      NextLayerKeepsRoot(h, cur);
      var nxt := PairUp(h, cur);
      layers := layers + [nxt];
      cur := nxt;
    }
  }

  /** `_root` is the tree hash of RFC 6962. */
  method Root(h: NodeHash, empty: Digest, leaves: seq<Digest>) returns (root: Digest)
    ensures root == RootOf(h, empty, leaves)
  {
    var layers := TreeLayers(h, empty, leaves);
    root := layers[|layers| - 1][0];
  }

  /** The item one layer contributes, if any. */
  method FindSibling(cur: seq<Digest>, idx: nat) returns (found: seq<ProofItem>)
    requires idx < |cur|
    ensures found == Sibling(cur, idx)
  {
    found := [];
    if idx % 2 == 0 {
      var sib := idx + 1;
      if sib < |cur| { found := [ProofItem(Right, cur[sib])]; }
    } else {
      var sib := idx - 1;
      found := [ProofItem(Left, cur[sib])];
    }
  }

  lemma PathAdvances(h: NodeHash, path: seq<ProofItem>, proof: seq<ProofItem>, cur: seq<Digest>, idx: nat)
    requires idx < |cur| && |cur| > 1 && proof + Path(h, idx, cur) == path
    ensures idx / 2 < |NextLayer(h, cur)| && proof + Sibling(cur, idx) + Path(h, idx / 2, NextLayer(h, cur)) == path
  {
    PathByLayers(h, idx, cur);
    ExtendPath(path, proof, Sibling(cur, idx), Path(h, idx / 2, NextLayer(h, cur)), Path(h, idx, cur));
  }

  /** `_inclusion_proof` is the audit path of RFC 6962; an index outside the list gets the empty proof. */
  method InclusionProof(h: NodeHash, leaves: seq<Digest>, index: int) returns (proof: seq<ProofItem>)
    ensures 0 <= index < |leaves| ==> proof == Path(h, index, leaves) && |proof| <= CeilLog2(|leaves|)
    ensures !(0 <= index < |leaves|) ==> proof == []
  {
    proof := [];
    if index < 0 || index >= |leaves| { return; }
    var idx, cur := index, leaves;
    ghost var path := Path(h, index, leaves);
    while |cur| > 1
      invariant 0 <= idx < |cur|
      invariant proof + Path(h, idx, cur) == path
      decreases |cur|
    {
      PathAdvances(h, path, proof, cur, idx);
      var found := FindSibling(cur, idx);
      proof := proof + found;
      cur := PairUp(h, cur);
      idx := idx / 2;
    }
    PathIsShort(h, index, leaves);
  }
}
