/**
 Key material as free terms. Two keys are equal only when they were derived in
 the same way, which is what ideal HKDF, X25519, AES-GCM and ML-KEM provide.
 */
module Keys {

  /** Text of an X25519 key. A key pair is named by its public half; "" is no key. */
  type Pub = string

  /** The value both holders of a key pair obtain: unordered in the two pairs. */
  datatype Shared = Shared(ends: set<Pub>)

  function Dh(secret: Pub, public: Pub): Shared {
    Shared({secret, public})
  }

  /** What a KEM encapsulation hides, or what decapsulating with another key yields. */
  datatype KemSecret =
    | Encapsulated(alg: string, pk: string, coin: nat)
    | Rejected(sk: string, ct: KemCiphertext)

  datatype KemCiphertext = KemCiphertext(alg: string, pk: string, coin: nat)

  /**
   `_initial_chains` derives InitLeft and InitRight, `_kdf_rk` a new root RkRoot
   and the chain RkChain it opens, `_kdf_ck` the message key CkMsg and the next
   chain key CkNext.
   */
  datatype Key =
    | PqxdhRoot(parts: seq<Shared>, kem: KemSecret)
    | InitLeft(root: Key)
    | InitRight(root: Key)
    | RkRoot(root: Key, dh: Shared)
    | RkChain(root: Key, dh: Shared)
    | CkMsg(ck: Key)
    | CkNext(ck: Key)
    | HeaderLeft(root: Key)
    | HeaderRight(root: Key)
    | HeaderChain(root: Key, ck: Key)

  // ---- shape of a chain key --------------------------------------------

  /** The key a chain was opened with. */
  function Base(chain: Key): Key {
    if chain.CkNext? then Base(chain.ck) else chain
  }

  /** How often a chain has been stepped since. */
  function Steps(chain: Key): nat {
    if chain.CkNext? then 1 + Steps(chain.ck) else 0
  }

  /** Number of root steps behind a root. */
  function Rank(root: Key): nat {
    if root.RkRoot? then 1 + Rank(root.root) else 0
  }

  /** Number of the root step that opened a chain; 0 for the two initial ones. */
  function ChainRank(base: Key): nat {
    if base.RkChain? then 1 + Rank(base.root) else 0
  }

  /** The chain key reached from `base` after `n` steps. */
  function Advance(base: Key, n: nat): Key {
    if n == 0 then base else CkNext(Advance(base, n - 1))
  }

  lemma {:induction false} AdvanceFacts(base: Key, n: nat)
    ensures Base(Advance(base, n)) == Base(base)
    ensures Steps(Advance(base, n)) == Steps(base) + n
  {
    if n > 0 { AdvanceFacts(base, n - 1); }
  }

  /** A chain key is its opening key stepped a number of times, in one way only. */
  lemma {:induction false} ChainShape(chain: Key)
    ensures !Base(chain).CkNext?
    ensures Advance(Base(chain), Steps(chain)) == chain
  {
    if chain.CkNext? { ChainShape(chain.ck); }
  }

  lemma {:induction false} AdvanceAdd(base: Key, m: nat, n: nat)
    ensures Advance(Advance(base, m), n) == Advance(base, m + n)
  {
    if n > 0 { AdvanceAdd(base, m, n - 1); }
  }

  /** Chains from different openings never meet, and one chain never repeats a key. */
  lemma AdvanceInjective(a: Key, m: nat, b: Key, n: nat)
    requires !a.CkNext? && !b.CkNext?
    requires Advance(a, m) == Advance(b, n)
    ensures a == b && m == n
  {
    AdvanceFacts(a, m);
    AdvanceFacts(b, n);
  }
}
