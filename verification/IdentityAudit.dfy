/**
 The identity check a client runs on a fetched key: inclusion proof, checkpoint
 consistency and the pinned checkpoint, against the auditor's HTTP handlers.
 */
module IdentityAudit {
  import opened Wrappers
  import opened MerkleTree
  import opened MerkleProofs
  import opened MerkleSha

  datatype Checkpoint = Checkpoint(treeSize: int, rootHash: Digest, createdAt: string, signature: string)

  datatype Consistency = Consistency(fromSize: int, toSize: int, fromRoot: Digest, toRoot: Digest)

  /** A row of the identity log; its Merkle index is its position. */
  datatype Row = Row(userId: int, version: int, identityKey: string, leafHash: Digest)

  datatype ProofAnswer = ProofAnswer(leaf: Row, leafIndex: int, proof: seq<ProofItem>, checkpoint: Checkpoint)

  /** SHA-256, the auditor's signature check, and equality of identity keys as decoded bytes. */
  datatype Client = Client(sha: Sha, signed: Checkpoint -> bool, sameKey: (string, string) -> bool)

  type Fetch = (int, int) -> Result<Consistency, AuditError>

  // ---- the client ------------------------------------------------------

  /** `verify_checkpoint`. */
  function VerifyCheckpoint(c: Client, cp: Checkpoint): Option<AuditError> {
    if cp.treeSize < 0 || |cp.rootHash| != 64 || |cp.signature| != 128 || cp.createdAt == "" then Some(CheckpointMalformed)
    else if !Texts(c.sha).isHex(cp.rootHash) || !Texts(c.sha).isHex(cp.signature) then Some(CheckpointMalformed)
    else if !c.signed(cp) then Some(CheckpointSignatureInvalid)
    else None
  }

  /** `check_consistency`; `fetch` is what `/consistency` would answer. */
  function CheckConsistency(c: Client, prev: Option<Checkpoint>, cp: Checkpoint, fetch: Fetch): Option<AuditError> {
    var bad := VerifyCheckpoint(c, cp);
    if bad.Some? then bad
    else if prev.None? then None
    else if cp.treeSize < prev.value.treeSize then Some(CheckpointRollback)
    else if cp.treeSize == prev.value.treeSize then
      if prev.value.rootHash != cp.rootHash then Some(CheckpointSplitView) else None
    else
      match fetch(prev.value.treeSize, cp.treeSize)
      case Failure(e) => Some(e)
      case Success(answer) =>
        if answer.fromSize != prev.value.treeSize || answer.toSize != cp.treeSize then Some(ConsistencyProofMalformed)
        else if answer.fromRoot != prev.value.rootHash then Some(ConsistencyPreviousRootMismatch)
        else if answer.toRoot != cp.rootHash then Some(ConsistencyNewRootMismatch)
        else None
  }

  /** One check: whose key at which version, the key served, and what the auditor answers. */
  datatype Check = Check(userId: int, version: int, key: string, answer: Result<ProofAnswer, AuditError>, fetch: Fetch)

  /** The comparisons before the inclusion proof. */
  function IdentityError(c: Client, k: Check, a: ProofAnswer): Option<AuditError> {
    var bad := VerifyCheckpoint(c, a.checkpoint);
    if bad.Some? then bad
    else if a.leaf.userId != k.userId then Some(IdentityUserMismatch)
    else if a.leaf.version != k.version then Some(IdentityVersionMismatch)
    else if !c.sameKey(a.leaf.identityKey, k.key) then Some(IdentityKeyMismatch)
    else None
  }

  /** The checks that stand between an answer and its acceptance, given the pinned checkpoint. */
  predicate IdentityAccepted(c: Client, pinned: Option<Checkpoint>, k: Check) {
    k.answer.Success? &&
    var a := k.answer.value;
    && IdentityError(c, k, a).None?
    && Accepts(Texts(c.sha), a.leaf.leafHash, a.leafIndex, a.proof, a.checkpoint.treeSize, a.checkpoint.rootHash)
    && CheckConsistency(c, pinned, a.checkpoint, k.fetch).None?
  }

  /** `verify_identity_from_auditor`. */
  method VerifyIdentity(c: Client, pinned: Option<Checkpoint>, k: Check) returns (r: Result<Checkpoint, AuditError>)
    ensures r.Success? <==> IdentityAccepted(c, pinned, k)
    ensures r.Success? ==> k.answer.Success? && r.value == k.answer.value.checkpoint && Sound(c, r.value)
    ensures r.Success? ==> var row := k.answer.value.leaf;
      row.userId == k.userId && row.version == k.version && c.sameKey(row.identityKey, k.key)
    ensures r.Success? && pinned.Some? ==> Follows(pinned.value, r.value)
    ensures k.answer.Failure? ==> r == Failure(k.answer.error)
    ensures k.answer.Success? && IdentityError(c, k, k.answer.value).Some? ==>
              r == Failure(IdentityError(c, k, k.answer.value).value)
  {
    if k.answer.Failure? { return Failure(k.answer.error); }
    var a := k.answer.value;
    var bad := IdentityError(c, k, a);
    if bad.Some? { return Failure(bad.value); }
    var v := VerifyInclusion(Texts(c.sha), a.leaf.leafHash, a.leafIndex, a.proof, a.checkpoint.treeSize, a.checkpoint.rootHash);
    if v.Rejected? { return Failure(v.error); }
    bad := CheckConsistency(c, pinned, a.checkpoint, k.fetch);
    if bad.Some? { return Failure(bad.value); }
    r := Success(a.checkpoint);
  }

  /** A checkpoint the auditor signed, in its full form. */
  predicate Sound(c: Client, cp: Checkpoint) {
    && c.signed(cp) && cp.treeSize >= 0 && cp.createdAt != ""
    && |cp.rootHash| == 64 && Texts(c.sha).isHex(cp.rootHash) && |cp.signature| == 128 && Texts(c.sha).isHex(cp.signature)
  }

  /** `b` may follow `a` in a log that only grows. */
  predicate Follows(a: Checkpoint, b: Checkpoint) {
    a.treeSize <= b.treeSize && (a.treeSize == b.treeSize ==> a.rootHash == b.rootHash)
  }

  /** The account-wide pinned checkpoint (`auditor_state`). */
  class AuditorState {
    var pinned: Option<Checkpoint>
    var observations: seq<Checkpoint>

    /** The last fifty observations, in the order of one growing log, the pinned one last. */
    ghost predicate Valid()
      reads this
    {
      && |observations| <= 50
      && (pinned.None? ==> observations == [])
      && (pinned.Some? ==> observations != [] && observations[|observations| - 1] == pinned.value && |pinned.value.rootHash| == 64)
      && (forall i, j | 0 <= i < j < |observations| :: Follows(observations[i], observations[j]))
    }

    constructor ()
      ensures Valid() && pinned == None
    {
      pinned, observations := None, [];
    }

    /** `record_auditor_checkpoint`. */
    method Record(cp: Checkpoint) returns (error: Option<AuditError>)
      requires Valid()
      modifies this
      ensures Valid()
      ensures error.None? <==> cp.treeSize >= 0 && |cp.rootHash| == 64 && (old(pinned).Some? ==> Follows(old(pinned).value, cp))
      ensures pinned == if error.None? then Some(cp) else old(pinned)
      ensures error.Some? ==> observations == old(observations)
      ensures error.None? ==> observations == LastFifty(old(observations) + [cp])
    {
      if cp.treeSize < 0 || |cp.rootHash| != 64 { return Some(CheckpointMalformed); }
      if pinned.Some? {
        if cp.treeSize < pinned.value.treeSize { return Some(CheckpointRollback); }
        if cp.treeSize == pinned.value.treeSize && pinned.value.rootHash != "" && cp.rootHash != pinned.value.rootHash { return Some(CheckpointSplitView); }
      }
      observations := LastFifty(observations + [cp]);
      pinned := Some(cp);
      error := None;
    }

    /** The whole step: check the key against the pinned checkpoint, then pin the new one. */
    method CheckIdentity(c: Client, k: Check) returns (r: Result<Checkpoint, AuditError>)
      requires Valid()
      modifies this
      ensures Valid()
      ensures r.Success? <==> IdentityAccepted(c, old(pinned), k)
      ensures pinned == PinAfter(c, old(pinned), k)
      ensures r.Success? ==> pinned == Some(r.value) && Sound(c, r.value)
      ensures r.Failure? ==> pinned == old(pinned)
      ensures r.Failure? ==> observations == old(observations)
    {
      r := VerifyIdentity(c, pinned, k);
      if r.Failure? { return; }
      var error := Record(r.value);
      assert error.None?;
    }
  }

  function LastFifty(cps: seq<Checkpoint>): seq<Checkpoint> {
    if |cps| <= 50 then cps else cps[|cps| - 50..]
  }

  /** Of any observations the last are kept, fifty at most. */
  lemma LastFiftyIs(cps: seq<Checkpoint>)
    ensures var r := LastFifty(cps); |r| == (if |cps| <= 50 then |cps| else 50) && cps == cps[..|cps| - |r|] + r
  {
  }

  function PinAfter(c: Client, pinned: Option<Checkpoint>, k: Check): Option<Checkpoint> {
    if IdentityAccepted(c, pinned, k) then Some(k.answer.value.checkpoint) else pinned
  }

  // ---- runs of one client ----------------------------------------------

  /** The checkpoints pinned along a run of checks. */
  function Pins(c: Client, pinned: Option<Checkpoint>, ks: seq<Check>): (pins: seq<Option<Checkpoint>>)
    ensures |pins| == |ks|
    decreases |ks|
  {
    if ks == [] then [] else
      var next := PinAfter(c, pinned, ks[0]);
      [next] + Pins(c, next, ks[1..])
  }

  lemma {:induction false} PinsFollow(c: Client, pinned: Option<Checkpoint>, ks: seq<Check>, j: nat)
    requires j < |ks|
    ensures pinned.Some? ==> Pins(c, pinned, ks)[j].Some? && Follows(pinned.value, Pins(c, pinned, ks)[j].value)
    decreases |ks|
  {
    if j > 0 { PinsFollow(c, PinAfter(c, pinned, ks[0]), ks[1..], j - 1); }
  }

  /** Whatever a run of checks has pinned since its start was signed by the auditor. */
  lemma {:induction false} PinsAreSigned(c: Client, pinned: Option<Checkpoint>, ks: seq<Check>, j: nat)
    requires j < |ks|
    ensures var pin := Pins(c, pinned, ks)[j]; pin == pinned || (pin.Some? && Sound(c, pin.value))
    decreases |ks|
  {
    var next := PinAfter(c, pinned, ks[0]);
    if j > 0 { PinsAreSigned(c, next, ks[1..], j - 1); }
  }

  /**
   A check is accepted exactly when the answer is about the key asked for, its checkpoint
   is sound, the proof leads to its root, and it follows the pinned one: with the same
   root at the same size, and with an answer of `/consistency` that names both otherwise.
   */
  lemma AcceptedIff(c: Client, pinned: Option<Checkpoint>, k: Check)
    ensures IdentityAccepted(c, pinned, k) <==>
      k.answer.Success? && var (row, cp) := (k.answer.value.leaf, k.answer.value.checkpoint);
      && row.userId == k.userId && row.version == k.version && c.sameKey(row.identityKey, k.key) && Sound(c, cp)
      && Accepts(Texts(c.sha), row.leafHash, k.answer.value.leafIndex, k.answer.value.proof, cp.treeSize, cp.rootHash)
      && (pinned.Some? ==> var pin := pinned.value;
            && pin.treeSize <= cp.treeSize
            && (pin.treeSize == cp.treeSize ==> pin.rootHash == cp.rootHash)
            && (pin.treeSize < cp.treeSize ==>
                  k.fetch(pin.treeSize, cp.treeSize) == Success(Consistency(pin.treeSize, cp.treeSize, pin.rootHash, cp.rootHash))))
  {
  }

  /** Well formed, whoever signed it. */
  predicate Formed(c: Client, cp: Checkpoint) {
    && cp.treeSize >= 0 && cp.createdAt != "" && |cp.rootHash| == 64 && |cp.signature| == 128
    && Texts(c.sha).isHex(cp.rootHash) && Texts(c.sha).isHex(cp.signature)
  }

  /** Each thing that can be wrong with an answer by itself has its own error, given when all before it is right. */
  lemma ErrorsAre(c: Client, k: Check, a: ProofAnswer)
    ensures var e, row := IdentityError(c, k, a), a.leaf; var user, version := row.userId == k.userId, row.version == k.version;
      && (e == Some(CheckpointMalformed) <==> !Formed(c, a.checkpoint))
      && (e == Some(CheckpointSignatureInvalid) <==> Formed(c, a.checkpoint) && !c.signed(a.checkpoint))
      && (e == Some(IdentityUserMismatch) <==> Sound(c, a.checkpoint) && !user)
      && (e == Some(IdentityVersionMismatch) <==> Sound(c, a.checkpoint) && user && !version)
      && (e == Some(IdentityKeyMismatch) <==> Sound(c, a.checkpoint) && user && version && !c.sameKey(row.identityKey, k.key))
  {
  }

  /** And so has each way a sound checkpoint can fail to follow the pinned one. */
  lemma ConsistencyErrorsAre(c: Client, pin: Checkpoint, cp: Checkpoint, fetch: Fetch)
    requires Sound(c, cp)
    ensures var e, got := CheckConsistency(c, Some(pin), cp, fetch), fetch(pin.treeSize, cp.treeSize);
      && (cp.treeSize < pin.treeSize ==> e == Some(CheckpointRollback))
      && (cp.treeSize == pin.treeSize && cp.rootHash != pin.rootHash ==> e == Some(CheckpointSplitView))
      && (cp.treeSize > pin.treeSize && got.Failure? ==> e == Some(got.error))
      && (cp.treeSize > pin.treeSize && got.Success? ==> var v := got.value;
            && (v.fromSize != pin.treeSize || v.toSize != cp.treeSize ==> e == Some(ConsistencyProofMalformed))
            && (v.fromSize == pin.treeSize && v.toSize == cp.treeSize && v.fromRoot != pin.rootHash ==> e == Some(ConsistencyPreviousRootMismatch))
            && (v.fromSize == pin.treeSize && v.toSize == cp.treeSize && v.fromRoot == pin.rootHash && v.toRoot != cp.rootHash ==>
                  e == Some(ConsistencyNewRootMismatch)))
  {
  }

  /** The pin never moves to a smaller log, nor to another root at the same size. */
  lemma {:induction false} PinNeverMovesBack(c: Client, pinned: Option<Checkpoint>, ks: seq<Check>, i: nat, j: nat)
    requires i < j < |ks|
    ensures var pins := Pins(c, pinned, ks); pins[i].Some? ==> pins[j].Some? && Follows(pins[i].value, pins[j].value)
    decreases |ks|
  {
    var next := PinAfter(c, pinned, ks[0]);
    if i == 0 { PinsFollow(c, next, ks[1..], j - 1); } else { PinNeverMovesBack(c, next, ks[1..], i - 1, j - 1); }
  }

  // ---- the auditor's handlers ------------------------------------------

  /** `/consistency`: both roots over the log as it is now. */
  function ConsistencyHandler(hs: Hashing, leaves: seq<Digest>, from: int, to: int): Result<Consistency, AuditError> {
    if from < 0 || to < from || to > |leaves| then Failure(AuditorHttpError)
    else Success(Consistency(from, to, RootOf(hs.node, hs.empty, leaves[..from]), RootOf(hs.node, hs.empty, leaves[..to])))
  }

  /** `/consistency` is answered from the log `now`. */
  ghost predicate AnswersFrom(hs: Hashing, fetch: Fetch, now: seq<Digest>) {
    forall f, t :: fetch(f, t) == ConsistencyHandler(hs, now, f, t)
  }

  /** A checkpoint over a log. */
  predicate Commits(hs: Hashing, cp: Checkpoint, leaves: seq<Digest>) {
    cp.treeSize == |leaves| && cp.rootHash == RootOf(hs.node, hs.empty, leaves)
  }

  /** The trees over two lists hash two different strings to one value. */
  ghost predicate Collides(sha: Sha, a: seq<Digest>, b: seq<Digest>) {
    Collision(sha, TreeStrings(sha, a), TreeStrings(sha, b))
  }

  /**
   What can be wrong when a check against a pinned log `before` and a new one `after`
   was accepted, `/consistency` being answered from `now`: a collision in two of the trees.
   */
  ghost predicate Broken(sha: Sha, before: seq<Digest>, after: seq<Digest>, now: seq<Digest>) {
    || Collides(sha, before, after)
    || (|before| <= |after| <= |now| && (Collides(sha, before, now[..|before|]) || Collides(sha, after, now[..|after|])))
  }

  /**
   One accepted check: when the pinned and the new checkpoint commit to logs and
   `/consistency` is answered from a third, the pinned log is a prefix of the new
   one, or two of the trees hash different strings to one value.
   */
  lemma AcceptedExtends(c: Client, pinned: Checkpoint, k: Check, before: seq<Digest>, after: seq<Digest>, now: seq<Digest>)
    requires IsSha(c.sha) && IdentityAccepted(c, Some(pinned), k) && AllCanonical(before) && AllCanonical(after) && AllCanonical(now)
    requires Commits(Texts(c.sha), pinned, before) && Commits(Texts(c.sha), k.answer.value.checkpoint, after)
    requires AnswersFrom(Texts(c.sha), k.fetch, now)
    ensures before <= after || Broken(c.sha, before, after, now)
  {
    if |before| == |after| {
      SameSizeTreesBind(c.sha, before, after);
    } else {
      assert k.fetch(|before|, |after|) == ConsistencyHandler(Texts(c.sha), now, |before|, |after|);
      SameSizeTreesBind(c.sha, before, now[..|before|]);
      SameSizeTreesBind(c.sha, after, now[..|after|]);
    }
  }

  /** Check `i` serves a checkpoint over `logs[i]` and a consistency answer from `nows[i]`. */
  ghost predicate Audited(c: Client, ks: seq<Check>, logs: seq<seq<Digest>>, nows: seq<seq<Digest>>) {
    && IsSha(c.sha) && |logs| == |nows| == |ks|
    && forall i | 0 <= i < |ks| ::
         && AllCanonical(logs[i]) && AllCanonical(nows[i])
         && (ks[i].answer.Success? ==> Commits(Texts(c.sha), ks[i].answer.value.checkpoint, logs[i]))
         && AnswersFrom(Texts(c.sha), ks[i].fetch, nows[i])
  }

  /** The pin commits to `log`; before the first accepted check there is no pin and no log. */
  ghost predicate PinCommits(c: Client, pinned: Option<Checkpoint>, log: seq<Digest>) {
    AllCanonical(log) && if pinned.Some? then Commits(Texts(c.sha), pinned.value, log) else log == []
  }

  function LogAfter(c: Client, pinned: Option<Checkpoint>, log: seq<Digest>, k: Check, served: seq<Digest>): seq<Digest> {
    if IdentityAccepted(c, pinned, k) then served else log
  }

  /** The log behind the pin after each check. */
  function PinnedLogs(c: Client, pinned: Option<Checkpoint>, log: seq<Digest>, ks: seq<Check>, logs: seq<seq<Digest>>): (pls: seq<seq<Digest>>)
    requires |logs| == |ks|
    ensures |pls| == |ks|
    decreases |ks|
  {
    if ks == [] then [] else
      var log' := LogAfter(c, pinned, log, ks[0], logs[0]);
      [log'] + PinnedLogs(c, PinAfter(c, pinned, ks[0]), log', ks[1..], logs[1..])
  }

  /** Some check of the run was accepted although two of its three trees collide. */
  ghost predicate BrokenInRun(c: Client, pinned: Option<Checkpoint>, log: seq<Digest>, ks: seq<Check>, logs: seq<seq<Digest>>, nows: seq<seq<Digest>>)
    requires |logs| == |nows| == |ks|
    decreases |ks|
  {
    ks != [] &&
    (|| (pinned.Some? && IdentityAccepted(c, pinned, ks[0]) && Broken(c.sha, log, logs[0], nows[0]))
     || BrokenInRun(c, PinAfter(c, pinned, ks[0]), LogAfter(c, pinned, log, ks[0], logs[0]), ks[1..], logs[1..], nows[1..]))
  }

  lemma PinStepExtends(c: Client, pinned: Option<Checkpoint>, log: seq<Digest>, ks: seq<Check>, logs: seq<seq<Digest>>, nows: seq<seq<Digest>>)
    requires Audited(c, ks, logs, nows) && ks != [] && PinCommits(c, pinned, log)
    ensures PinCommits(c, PinAfter(c, pinned, ks[0]), LogAfter(c, pinned, log, ks[0], logs[0]))
    ensures log <= LogAfter(c, pinned, log, ks[0], logs[0]) || BrokenInRun(c, pinned, log, ks, logs, nows)
    ensures Audited(c, ks[1..], logs[1..], nows[1..])
  {
    if pinned.Some? && IdentityAccepted(c, pinned, ks[0]) {
      AcceptedExtends(c, pinned.value, ks[0], log, logs[0], nows[0]);
    }
  }

  /** The run from its second check on. */
  lemma RestOfRun(c: Client, pinned: Option<Checkpoint>, log: seq<Digest>, ks: seq<Check>, logs: seq<seq<Digest>>, nows: seq<seq<Digest>>, j: nat)
    requires |logs| == |nows| == |ks| && j < |ks|
    ensures var next, log' := PinAfter(c, pinned, ks[0]), LogAfter(c, pinned, log, ks[0], logs[0]);
      && (BrokenInRun(c, next, log', ks[1..], logs[1..], nows[1..]) ==> BrokenInRun(c, pinned, log, ks, logs, nows))
      && PinnedLogs(c, pinned, log, ks, logs)[j] == if j == 0 then log' else PinnedLogs(c, next, log', ks[1..], logs[1..])[j - 1]
  {
  }

  lemma {:induction false} LaterPinsExtend(c: Client, pinned: Option<Checkpoint>, log: seq<Digest>, ks: seq<Check>, logs: seq<seq<Digest>>,
                                           nows: seq<seq<Digest>>, j: nat)
    requires Audited(c, ks, logs, nows) && j < |ks| && PinCommits(c, pinned, log)
    ensures log <= PinnedLogs(c, pinned, log, ks, logs)[j] || BrokenInRun(c, pinned, log, ks, logs, nows)
    decreases |ks|
  {
    PinStepExtends(c, pinned, log, ks, logs, nows);
    RestOfRun(c, pinned, log, ks, logs, nows, j);
    if j > 0 {
      LaterPinsExtend(c, PinAfter(c, pinned, ks[0]), LogAfter(c, pinned, log, ks[0], logs[0]), ks[1..], logs[1..], nows[1..], j - 1);
    }
  }

  /**
   Over a whole run, every pinned log is a prefix of every later pinned one; or some
   check of the run was accepted whose trees hash two different strings to one value.
   */
  lemma {:induction false} PinnedLogsAppendOnly(c: Client, pinned: Option<Checkpoint>, log: seq<Digest>, ks: seq<Check>, logs: seq<seq<Digest>>,
                                                nows: seq<seq<Digest>>, i: nat, j: nat)
    requires Audited(c, ks, logs, nows) && i < j < |ks| && PinCommits(c, pinned, log)
    ensures PinnedLogs(c, pinned, log, ks, logs)[i] <= PinnedLogs(c, pinned, log, ks, logs)[j]
            || BrokenInRun(c, pinned, log, ks, logs, nows)
    decreases |ks|
  {
    PinStepExtends(c, pinned, log, ks, logs, nows);
    var next, log' := PinAfter(c, pinned, ks[0]), LogAfter(c, pinned, log, ks[0], logs[0]);
    RestOfRun(c, pinned, log, ks, logs, nows, i);
    RestOfRun(c, pinned, log, ks, logs, nows, j);
    if i > 0 {
      PinnedLogsAppendOnly(c, next, log', ks[1..], logs[1..], nows[1..], i - 1, j - 1);
    } else {
      LaterPinsExtend(c, next, log', ks[1..], logs[1..], nows[1..], j - 1);
    }
  }

  // ---- an honest auditor is never suspected ----------------------------

  function Leaves(rows: seq<Row>): (ls: seq<Digest>)
    ensures |ls| == |rows| && forall i | 0 <= i < |rows| :: ls[i] == rows[i].leafHash
  {
    seq(|rows|, i requires 0 <= i < |rows| => rows[i].leafHash)
  }

  /** The first row of a user's version, as `next(...)` finds it. */
  function FindRow(rows: seq<Row>, userId: int, version: int): (i: int)
    ensures -1 <= i < |rows|
    ensures i >= 0 ==> rows[i].userId == userId && rows[i].version == version
    ensures forall j | 0 <= j < (if i < 0 then |rows| else i) :: !(rows[j].userId == userId && rows[j].version == version)
  {
    if rows == [] then -1
    else if rows[|rows| - 1].userId == userId && rows[|rows| - 1].version == version then
      var earlier := FindRow(rows[..|rows| - 1], userId, version);
      if earlier >= 0 then earlier else |rows| - 1
    else FindRow(rows[..|rows| - 1], userId, version)
  }

  /** `/identity/<user>/<version>/proof` over the rows, with the checkpoint `stamp` signs. */
  function ProofHandler(hs: Hashing, rows: seq<Row>, userId: int, version: int, stamp: Checkpoint): Result<ProofAnswer, AuditError> {
    var i := FindRow(rows, userId, version);
    if i < 0 then Failure(AuditorHttpError)
    else Success(ProofAnswer(rows[i], i, Path(hs.node, i, Leaves(rows)), stamp))
  }

  /** A check answered honestly from `rows`, with `/consistency` answered a little later from `later`. */
  ghost predicate HonestCheck(c: Client, k: Check, rows: seq<Row>, later: seq<Row>) {
    && rows <= later
    && k.answer.Success? && Commits(Texts(c.sha), k.answer.value.checkpoint, Leaves(rows))
    && k.answer == ProofHandler(Texts(c.sha), rows, k.userId, k.version, k.answer.value.checkpoint)
    && c.sameKey(k.answer.value.leaf.identityKey, k.key)
    && c.signed(k.answer.value.checkpoint) && k.answer.value.checkpoint.createdAt != ""
    && |k.answer.value.checkpoint.signature| == 128 && Texts(c.sha).isHex(k.answer.value.checkpoint.signature)
    && AnswersFrom(Texts(c.sha), k.fetch, Leaves(later))
  }

  ghost predicate DigestRows(hs: Hashing, rows: seq<Row>) {
    forall i | 0 <= i < |rows| :: IsDigest(hs, rows[i].leafHash)
  }

  lemma HonestCheckAccepted(c: Client, pinned: Option<Checkpoint>, k: Check, before: seq<Row>, rows: seq<Row>, later: seq<Row>)
    requires IsSha(c.sha) && DigestRows(Texts(c.sha), rows)
    requires HonestCheck(c, k, rows, later) && before <= rows
    requires pinned.Some? ==> Commits(Texts(c.sha), pinned.value, Leaves(before))
    ensures IdentityAccepted(c, pinned, k)
  {
    var a, leaves := k.answer.value, Leaves(rows);
    var i := FindRow(rows, k.userId, k.version);
    ShaProduces(c.sha);
    assert forall x | x in leaves :: IsDigest(Texts(c.sha), x);
    MthIsDigest(Texts(c.sha), leaves);
    HonestProofLeads(Texts(c.sha), leaves, i);
    if pinned.Some? {
      assert Leaves(later)[..|before|] == Leaves(before) && Leaves(later)[..|rows|] == leaves;
      assert |before| == |rows| ==> before == rows;
      assert k.fetch(|before|, |rows|) == ConsistencyHandler(Texts(c.sha), Leaves(later), |before|, |rows|);
    }
  }

  /** `logs` are the rows behind each check and the rows when it asked for consistency. */
  ghost predicate HonestRun(c: Client, before: seq<Row>, ks: seq<Check>, logs: seq<(seq<Row>, seq<Row>)>)
    decreases |ks|
  {
    |logs| == |ks| &&
    (ks != [] ==>
      && before <= logs[0].0 && DigestRows(Texts(c.sha), logs[0].0)
      && HonestCheck(c, ks[0], logs[0].0, logs[0].1)
      && HonestRun(c, logs[0].1, ks[1..], logs[1..]))
  }

  /** Against an auditor whose log only grows, every check of a run succeeds. */
  lemma {:induction false} HonestRunAccepted(c: Client, pinned: Option<Checkpoint>, pinRows: seq<Row>, before: seq<Row>,
                                             ks: seq<Check>, logs: seq<(seq<Row>, seq<Row>)>, j: nat)
    requires IsSha(c.sha) && HonestRun(c, before, ks, logs) && j < |ks|
    requires pinRows <= before && (pinned.Some? ==> Commits(Texts(c.sha), pinned.value, Leaves(pinRows)))
    ensures ks[j].answer.Success? && Pins(c, pinned, ks)[j] == Some(ks[j].answer.value.checkpoint)
    decreases |ks|
  {
    HonestCheckAccepted(c, pinned, ks[0], pinRows, logs[0].0, logs[0].1);
    if j > 0 {
      HonestRunAccepted(c, PinAfter(c, pinned, ks[0]), logs[0].0, logs[0].1, ks[1..], logs[1..], j - 1);
    }
  }

  // ---- what a check does not bind --------------------------------------

  /**
   The leaf hash is not computed from the leaf: an accepted answer stays accepted with
   another identity key in it, when the same key was fetched from the server.
   */
  lemma KeyIsNotBound(c: Client, pinned: Option<Checkpoint>, k: Check, key: string)
    requires IdentityAccepted(c, pinned, k) && c.sameKey(key, key)
    ensures var a := k.answer.value;
      IdentityAccepted(c, pinned, k.(key := key, answer := Success(a.(leaf := a.leaf.(identityKey := key)))))
  {
  }

  /** An answer to `/consistency` that repeats both checkpoints. */
  function Repeat(pinned: Checkpoint, cp: Checkpoint): Fetch {
    (f: int, t: int) => Success(Consistency(pinned.treeSize, cp.treeSize, pinned.rootHash, cp.rootHash))
  }

  /** Such an answer lets any larger checkpoint pass. */
  lemma RepeatingIsAccepted(c: Client, pinned: Checkpoint, k: Check)
    requires IdentityAccepted(c, None, k) && pinned.treeSize < k.answer.value.checkpoint.treeSize
    ensures IdentityAccepted(c, Some(pinned), k.(fetch := Repeat(pinned, k.answer.value.checkpoint)))
  {
  }

  /** An auditor that replaced its only row before adding another is accepted after all. */
  lemma RewrittenLogIsAccepted(c: Client, pinned: Checkpoint, k: Check, replaced: Row, rows: seq<Row>)
    requires IsSha(c.sha) && DigestRows(Texts(c.sha), rows) && |rows| == 2 && rows[0].leafHash != replaced.leafHash
    requires Commits(Texts(c.sha), pinned, Leaves([replaced])) && HonestCheck(c, k, rows, rows)
    ensures var lie := k.(fetch := Repeat(pinned, k.answer.value.checkpoint));
      && IdentityAccepted(c, Some(pinned), lie) && Commits(Texts(c.sha), lie.answer.value.checkpoint, Leaves(rows))
      && !(Leaves([replaced]) <= Leaves(rows))
  {
    HonestCheckAccepted(c, None, k, [], rows, rows);
    RepeatingIsAccepted(c, pinned, k);
    assert Leaves([replaced])[0] == replaced.leafHash && Leaves(rows)[0] == rows[0].leafHash;
  }

  /**
   Whatever was answered to an accepted check, the new log extends the pinned one exactly
   when `/consistency` said what the handler says over the new log, or the trees collide.
   */
  lemma ExtendsIffAnswered(c: Client, pinned: Checkpoint, k: Check, before: seq<Digest>, after: seq<Digest>)
    requires IsSha(c.sha) && IdentityAccepted(c, Some(pinned), k) && AllCanonical(before) && AllCanonical(after)
    requires Commits(Texts(c.sha), pinned, before) && Commits(Texts(c.sha), k.answer.value.checkpoint, after)
    requires |before| < |after|
    ensures before <= after ==> k.fetch(|before|, |after|) == ConsistencyHandler(Texts(c.sha), after, |before|, |after|)
    ensures k.fetch(|before|, |after|) == ConsistencyHandler(Texts(c.sha), after, |before|, |after|) ==>
      before <= after || Collides(c.sha, before, after[..|before|])
  {
    assert after[..|after|] == after;
    if before <= after {
      assert after[..|before|] == before;
    } else if k.fetch(|before|, |after|) == ConsistencyHandler(Texts(c.sha), after, |before|, |after|) {
      SameSizeTreesBind(c.sha, before, after[..|before|]);
    }
  }
}
