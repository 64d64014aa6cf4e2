# SecChat protocol cores in Dafny

A model of the parts of SecChat that its security and its message history rest on,
with proofs of what they promise.

**Sessions.** `Keys` has key material as free terms: ideal HKDF, X25519 (a shared secret
is an unordered pair of key pairs), AES-GCM (a box opens for one key and one header),
ML-KEM and Ed25519. `Ratchet` is the Double Ratchet as functions on a state and
`RatchetObject` the class that updates its fields; every method is proved equal to its
function, including the half-updated state a raising call leaves. `RatchetOnce` is about
one state and any wires at all, and `Refusals` about what it must not open. `Headers` is
what the headers of sent wires say. `Secrecy` is what a disclosed state gives away: the
least set closed under the derivations, before and after the disclosure. `TwoParty` and `TwoPartyRuns` are about two parties over
a network that reorders, loses, repeats and alters; the invariant is that one root is at
most one step ahead of the other. `LostTail` is a run that loses a wire. `Fifo` is the same pair with one queue per direction.
`Pqxdh` and `PqxdhAgreement` cover prekey bundles, the S3PQI start and the prekey store,
and `PqxdhTrust` whose keys a start accepts.
`SessionMap` is the session layer of one conversation: a map of sessions that shares
objects with the current one, snapshots, roll-back, and the smallest-id rule.
`RepeatedInit` is one S3PQI message received twice. `SimultaneousStart` runs two such
ends that may both start, with their prekey stores. `HistoryCache` is the reading
of S3DR messages through the plaintext cache, and `HistoryReading` what a pass shows.

**Identity log.** `MerkleTree` is the auditor's layered tree against the recursive
definitions of RFC 6962 and `MerkleProofs` the client's verifier, both for any node hash;
`MerkleSha` is the hash in use, SHA-256 over decoded hexadecimal, with soundness;
`IdentityAudit` the composed check with the pinned checkpoint, over whole runs. Nothing is
assumed about SHA-256 but its length: results end in "or two different byte strings that
were hashed have one hash".

**Transcript.** `Transcript` is the hash chain, `History` the check of server history,
`Checkpoints` the signed statements about a view and the class that holds it all.

**Timeline.** `Edits`, `PendingEdits`, `StableSort`, `Timeline` and `ChatPage` are
`load_history`, live messages, edits that come early and system events; `TimelineFacts`
and `TimelineTwice` what a load promises and what a second one changes, `TimelineRecords`
what becomes of each record and event the server sent and each the client had.

**Framing.** `Frames` is the WebSocket codec and the receive loop.

`Text`, `Octets`, `Ascending` and `Wrappers` are shared helpers.

## Findings

- `pn` is carried in every header and never read, so the unread tail of a chain is lost
  when the next chain is entered (`TwoPartyRuns.EnteringLeavesTail`, `UnreadTailIsLost`, `LostTail.SentWireIsLost`).
- The first root is kept until the first root step, so until then a disclosed state gives
  away every message key already used. From that step on none is given away, so the
  promise of forward secrecy starts there (`Secrecy.ForwardSecrecy`, `UnansweredIsOpen`).
- A differing encrypted header copy does not stop `_read_header`; only the authenticated
  data of the body does (`Ratchet.VisibleHeaderWins`, `TwoPartyRuns.AcceptedIsAuthentic`).
- `verify_inclusion` proves membership, not position, and nothing for the empty log
  (`MerkleProofs.AcceptedAtEveryIndex`, `MerkleSha.EmptyLogAcceptsAll`). It proves it for
  hashes of rows only: inner nodes pass for leaves, and so does a leaf text of the wrong
  length, because only the texts of siblings are measured and white space is skipped
  (`MerkleSha.EveryNodeIsAccepted`, `LongLeafIsAccepted`, `AcceptedIsNodeIff`).
- A post-quantum one-time key is used when it is there and checked only when its id is
  positive as well: one with the id that stands for none is encapsulated to unsigned, and
  one with an id but no key lends the signed key its unsigned algorithm
  (`PqxdhTrust.EncapsulatedTo`, `ForeignPqIsUsed`).
- The client never computes the leaf hash from the leaf, so acceptance does not tie the
  identity key to the log (`IdentityAudit.KeyIsNotBound`).
- `/consistency` returns an empty proof: append-only results hold for answers computed by
  the handler, and an answer that repeats both checkpoints hides a rewritten log
  (`IdentityAudit.AcceptedExtends`, `ExtendsIffAnswered`, `RewrittenLogIsAccepted`).
- A text message whose payload is the five letters CLOSE ends the receive loop, and a
  close frame ends it without `on_close` (`Frames.SentIsHandedOn`, `Frames.RecvLoop`).
- An S3PQI message that names no session and took no one-time secret starts a second
  session when it is repeated; any other is taken for known or refused
  (`RepeatedInit.ReceiveTwice`, `UnnamedInitRepeats`).
- Loading a history twice is not always idle: an edit that made a hidden placeholder
  readable unhides it at the second load (`TimelineTwice.EditUnhides`); an edit that had
  waited is undone by it, because it has left the waiting list and the server's text comes
  back (`WaitingEditIsUndone`); an edit of the history without a message waits once more
  after each load (`UnfoundWaitsAgain`).
- Only three history warnings are returned, so changes can push a missing id out; the same
  window reports it the second time (`History.MissingCrowdedOut`, `RepeatReportsSame`).
- The last comparison of a peer checkpoint, at the local last id, never decides anything
  (`Checkpoints.LastComparisonIsIdle`).

## Assumptions

Fresh key pairs are new, not empty and have no colon in their text (X25519 keys are random
and base64 has no colon). Two parties have different non-zero user ids. Session ids of new
sessions are new. Where a hash is used, collisions appear in the conclusion. Rows of the
identity log are hashed as `server/repository/key_repo.c:236-250` does.

## Model

| member | source | states |
|---|---|---|
| RatchetObject.DoubleRatchet.New | client/crypto_engine/secure_protocol.py:395-414 | a new ratchet object has exactly the initial chains, counters and the `needs_send_ratchet` flag of its role |
| RatchetObject.DoubleRatchet.SetContext | client/crypto_engine/secure_protocol.py:416-424 | the ids a state is bound to are set; zero ids and a missing version keep what is there |
| RatchetObject.DoubleRatchet.MaybeSendRatchet | client/crypto_engine/secure_protocol.py:505-521 | only a flagged state with a remote key takes a sending root step, and nothing else of the object changes |
| RatchetObject.DoubleRatchet.Encrypt | client/crypto_engine/secure_protocol.py:523-547 | the object moves as the sending step says; the wire carries its header as authenticated data and the key of its index |
| RatchetObject.DoubleRatchet.SkipUntil | client/crypto_engine/secure_protocol.py:549-564 | one key per missing index is stored, or the object is untouched when 1000 would be passed |
| RatchetObject.DoubleRatchet.DhRatchet | client/crypto_engine/secure_protocol.py:566-586 | both halves of the root step, in order; a key X25519 refuses leaves the counters already reset |
| RatchetObject.DoubleRatchet.RememberSeen | client/crypto_engine/secure_protocol.py:500-503 | above 4096 ids exactly the 2048 largest remain |
| RatchetObject.DoubleRatchet.Decrypt | client/crypto_engine/secure_protocol.py:619-654 | body or error and the complete state left behind, including the damage a raising call does |
| RatchetObject.DoubleRatchet.Copy | client/crypto_engine/session.py:2400-2401 | a snapshot is equal to the state but for `seen`, cut to its 2048 largest ids |
| Ratchet.StoreSkippedFacts | client/crypto_engine/secure_protocol.py:549-564 | the loop stores, for every index it passes, the key of that index and keeps all others |
| Ratchet.VisibleHeaderWins | client/crypto_engine/secure_protocol.py:588-603 | the visible header is used whatever the encrypted copy says; without it only an encrypted copy under the current header key counts |
| Ratchet.DecryptKeepsContext | client/crypto_engine/secure_protocol.py:619-654 | decrypting never changes the ids a state is bound to |
| Keys.AdvanceInjective | client/crypto_engine/secure_protocol.py:343-352 | chains opened with different keys never share a key, and one chain never repeats one |
| RatchetOnce.UsedKeysStayUsed | client/crypto_engine/secure_protocol.py:619-654 | after a message key was used no later event of any run opens a box with it |
| RatchetOnce.AtMostOnce | client/crypto_engine/secure_protocol.py:447-503 | over any run of sends and receives, forged or damaged wires included, with any part of `seen` forgotten, no key opens two boxes |
| RatchetOnce.NewSessionOpensOnce | client/crypto_engine/secure_protocol.py:395-414 | the same from a fresh session: no box is opened twice |
| Refusals.OpenedNamesState | client/crypto_engine/secure_protocol.py:625-654 | what opens names in its authenticated header the session, conversation and recipient of the state, wherever these are set |
| Refusals.ForeignIsRefused | client/crypto_engine/secure_protocol.py:625-637 | a visible header that names another session, conversation or recipient is refused with the error of the first of them, and nothing moves; these errors mean nothing else |
| Refusals.NoKeyResetsCounters | client/crypto_engine/secure_protocol.py:566-577 | a header without a key is refused only after the counters were reset, which the session layer's roll-back undoes |
| Refusals.WhatIsRemembered | client/crypto_engine/secure_protocol.py:500-503 | above 4096 ids the 2048 largest are remembered, and a restored state has at most those |
| Refusals.ReplayIsRefused | client/crypto_engine/secure_protocol.py:638-639 | a wire that was opened is refused as a replay, untouched, by every state of the session that remembers it |
| Refusals.ReplayNeverMoves | client/crypto_engine/secure_protocol.py:638-654 | so it is at every later point of a run that forgets no id, whatever came between |
| Refusals.CurrentChainOpensIff | client/crypto_engine/secure_protocol.py:549-564 | a new index of the current chain opens exactly within the limit of 1000 and with the box of that index under that header; past the limit nothing moves |
| Headers.CopyIsEnough | client/crypto_engine/secure_protocol.py:588-603 | in every reachable pair a wire of the receiver's chain reads, and decrypts, the same without its visible header |
| Headers.WiresAreNumbered | client/crypto_engine/secure_protocol.py:523-547 | of two wires sent one after the other, `n` counts on along a chain, and a new chain starts at 0 with the length of the one before in `pn` |
| Secrecy.DerivableIsLeast | client/crypto_engine/secure_protocol.py:321-351 | what can be derived is the least set that contains the disclosed keys and is closed under the key derivations, a root step needing one private key of its pair |
| Secrecy.ForwardSecrecy | client/crypto_engine/secure_protocol.py:357-366 | after any run, refusals and forged wires included, the keys of a state give away a message key used before if and only if the state still holds the root the session began with; all private keys may be known, as long as the key agreement itself cannot be made again |
| Secrecy.UnansweredIsOpen | client/crypto_engine/secure_protocol.py:395-414 | an initiator that has only sent is in that case: its keys alone give away everything it has sent |
| Secrecy.AgreementStarts | client/crypto_engine/secure_protocol.py:656-796 | both ends of a key agreement begin in the states these results start from, the key of the initial body counted as used |
| Secrecy.AgreementNeeds | client/crypto_engine/secure_protocol.py:676-692 | an agreement can be made again exactly from the hidden secret, the peer's signed key or both of the initiator's, and with a curve one-time key also that one or the initiator's ephemeral |
| Secrecy.RecoveryIff | client/crypto_engine/secure_protocol.py:357-366 | a state disclosed in the middle of a run gives away a message key used later if and only if its chain was open already, or every pair mixed into the root since, up to its own, has a known private key |
| Secrecy.SentIsSecretAgain | client/crypto_engine/secure_protocol.py:333-341 | once an event has mixed a pair with no known private key into the root, nothing it or any later event sends is given away, whatever is received meanwhile |
| Secrecy.OneExchangeHeals | client/crypto_engine/secure_protocol.py:566-586 | of one `_dh_ratchet` on a disclosed state, the receiving chain is given away exactly when the old private key or the peer's is known, root and sending chain when moreover the new one or the peer's is |
| TwoParty.StartIsInv | client/crypto_engine/secure_protocol.py:321-331 | after the start both parties have equal roots and mirrored initial chains |
| TwoParty.StepKeepsInv | client/crypto_engine/secure_protocol.py:505-586 | every send, delivery, replay, alteration and rolled back refusal keeps root lockstep, matching chains and the account of indices |
| TwoParty.NextChain | client/crypto_engine/secure_protocol.py:566-586 | an unread newest chain begins exactly where the receiver's next root step leads, and no other chain does |
| TwoParty.FirstSendKeeps | client/crypto_engine/secure_protocol.py:505-521 | the only sending root step is the responder's first wire; it puts the responder ahead |
| TwoParty.GenuineWire | client/crypto_engine/secure_protocol.py:619-654 | a wire of the peer opens if and only if its key is stored or its chain is current or next and the skip limit fits; it gives its own body |
| TwoPartyRuns.OutOfOrderIsExact | client/crypto_engine/secure_protocol.py:549-654 | in every reachable pair of states, under reordering, loss, duplication and alteration, that equivalence holds, and what opens was never accepted before |
| TwoPartyRuns.AcceptedIsAuthentic | client/crypto_engine/secure_protocol.py:588-654 | an accepted wire carries a box the peer sealed under exactly the header that was used |
| TwoPartyRuns.EveryIndexAccounted | client/crypto_engine/secure_protocol.py:549-564 | every index below `n_recv` of the current chain is either accepted or stored, not both; at most 1000 keys are stored, each the right one |
| TwoPartyRuns.RootsInLockstep | client/crypto_engine/secure_protocol.py:333-341 | the two roots are equal or one step apart over the shared secret of the current ratchet keys |
| TwoPartyRuns.RightChainUnused | client/crypto_engine/secure_protocol.py:321-331 | no wire is ever sealed under a key of the initial right chain |
| TwoPartyRuns.EnteringLeavesTail | client/crypto_engine/secure_protocol.py:566-586 | entering the next chain leaves behind exactly the indices of the old one that are neither accepted nor stored |
| TwoPartyRuns.UnreadTailIsLost | client/crypto_engine/secure_protocol.py:566-586 | an index left behind opens at no point of any continuation, since `pn` is not used |
| LostTail.SentWireIsLost | client/crypto_engine/secure_protocol.py:566-586 | for any keys there is a run in which a wire that was sent is left behind and opens never |
| Fifo.DoKeepsOrder | client/crypto_engine/secure_protocol.py:505-654 | with one queue per direction each hearing yields exactly the next text said |
| Fifo.FifoAgreement | client/crypto_engine/secure_protocol.py:505-654 | in every interleaving what a party heard is a prefix of what the other said, and the next wire in its queue opens to the next text |
| Pqxdh.GenerateLocalBundle | client/crypto_engine/secure_protocol.py:227-291 | every uploaded one-time key is signed and has its secret in the store under its id; ids are consecutive |
| Pqxdh.LocalStore.Respond | client/crypto_engine/secure_protocol.py:734-796 | the answer as a function of the store before, and the named one-time keys gone once the early checks passed, even when opening fails |
| Pqxdh.FingerprintSymmetric | client/crypto_engine/secure_protocol.py:799-806 | both sides compute one safety number |
| PqxdhTrust.FingerprintNames | client/crypto_engine/secure_protocol.py:799-806 | two safety numbers are equal exactly when they are between the same two identities |
| PqxdhTrust.StartsIff | client/crypto_engine/secure_protocol.py:293-319 | when whatever a bundle has of an identity's signatures was made for one upload, a session starts exactly from its signed keys and, where usable, its one-time keys |
| PqxdhTrust.StartsIffIssued | client/crypto_engine/secure_protocol.py:293-319 | with one-time keys that are whole or absent, exactly from the bundles issued for it |
| PqxdhTrust.EncapsulatedTo | client/crypto_engine/secure_protocol.py:671-674 | what is encapsulated to was uploaded whenever the post-quantum one-time key has a positive id exactly when it is there; and what it is otherwise |
| PqxdhTrust.ForeignPqIsUsed | client/crypto_engine/secure_protocol.py:671-674 | for every key text there is a bundle that was not issued, starts a session and has that key encapsulated to unsigned |
| PqxdhTrust.AnsweredIff | client/crypto_engine/secure_protocol.py:734-796 | a start is answered exactly when it is for this user, the sender's curve key is signed by the identity named, and its box was made under the agreed root for just this payload; the state is bound to the sender named |
| PqxdhTrust.InitialNames | client/crypto_engine/secure_protocol.py:693-731 | the payload names both ends and the keys used under the sender's signature, and the state is bound to the same |
| PqxdhAgreement.RootsAgreeIff | client/crypto_engine/secure_protocol.py:656-796 | initiator and responder derive one root exactly when the store still yields the keys the bundle named |
| PqxdhAgreement.RespondsIff | client/crypto_engine/secure_protocol.py:734-796 | the initial message is answered with its own body exactly in that case |
| PqxdhAgreement.StatesMirror | client/crypto_engine/secure_protocol.py:656-796 | the two states after the start are the mirrored ones every run begins with, from the initiator's root |
| PqxdhAgreement.IssuedCanBeAnswered | client/crypto_engine/secure_protocol.py:227-319 | every bundle issued from a generated store, with neither, one or both one-time keys, verifies and can be answered |
| PqxdhAgreement.ServedKeysLeave | client/crypto_engine/session.py:1525-1539 | over any run of messages exactly the one-time keys named by answered ones have left the store |
| PqxdhAgreement.OneTimeSecretsServeOnce | client/crypto_engine/session.py:1525-1539 | no one-time secret goes into two answers |
| PqxdhAgreement.RepeatOpensIff | client/crypto_engine/secure_protocol.py:734-796 | a second answer to one message succeeds exactly when the first took no one-time secret |
| PqxdhAgreement.PrekeySession.RespondWithCurrentPrekey | client/crypto_engine/session.py:1525-1539 | the session's store changes only on success, and then loses exactly the named keys |
| SessionMap.DmSessions.LoadSessions | client/crypto_engine/session.py:1768-1799 | the map is brought in step with the current object and no known session changes |
| SessionMap.DmSessions.Save | client/crypto_engine/session.py:1801-1825 | saving resynchronises the map too, without changing any known session |
| SessionMap.DmSessions.StateForWire | client/crypto_engine/session.py:1859-1879 | the named session if it is known, else the current one |
| SessionMap.DmSessions.SelectCanonical | client/crypto_engine/session.py:1836-1857 | the smallest known id becomes current; no session is lost |
| SessionMap.DmSessions.TryDecrypt | client/crypto_engine/session.py:2400-2417 | a refused wire leaves the observable session as it was up to the cut of `seen`, although the map may still hold the damaged object; other sessions are untouched |
| SessionMap.DmSessions.DecryptLive | client/crypto_engine/session.py:2393-2417 | the same for a whole call: over the states of all known sessions it is one read, in the session the wire is routed to |
| SessionMap.NamedSessionOnly | client/crypto_engine/session.py:1859-1879 | a wire whose visible header names a known session touches no other, whatever else it says |
| SessionMap.UnnamedReadsSmallest | client/crypto_engine/session.py:1859-1879 | one that names no known session touches none but the one with the smallest id |
| SessionMap.DmSessions.ReceiveInit | client/crypto_engine/session.py:2332-2383 | a session is added exactly for a new id that can be answered, and no other state moves; prekeys leave the store on success only; every other outcome is exact |
| SessionMap.DmSessions.Initiate | client/crypto_engine/session.py:2197-2217 | a start happens only without a session and makes the new one current |
| SessionMap.DmSessions.EncryptForConv | client/crypto_engine/session.py:2269-2286 | over the states of all known sessions it is one send by the one with the smallest id |
| RepeatedInit.ReceiveTwice | client/crypto_engine/session.py:2332-2383 | of two calls with one message the second adds a session if and only if the message names none and the first took no one-time secret |
| RepeatedInit.UnnamedInitRepeats | client/crypto_engine/session.py:2341-2353 | such a message exists for every store |
| SimultaneousStart.ActKeepsSound | client/crypto_engine/session.py:2197-2217 | starts, answers, sends and reads of both ends keep every session in order and every start answerable |
| SimultaneousStart.NothingSaidIsLost | client/crypto_engine/session.py:1836-1879 | with starts in any order and one queue per direction, what was shown followed by what is queued is what was said, initial texts included; each wire opens under the session it names, current or not |
| SimultaneousStart.BothSettleOnSmallest | client/crypto_engine/session.py:1836-1857 | ends whose queues hold no start know the same sessions and have the same current one, the smallest |
| SimultaneousStart.SpeakIsSend | client/crypto_engine/session.py:2269-2286 | a send of that system is `AfterSend`, which `EncryptForConv` ensures |
| SimultaneousStart.TakeIsRead | client/crypto_engine/session.py:2393-2417 | a read is `AfterRead`, which `DecryptLive` ensures |
| SimultaneousStart.BeginIsInitiate | client/crypto_engine/session.py:2197-2217 | a start leaves exactly the state `pqxdh_initiate` makes |
| SimultaneousStart.TakeIsAnswer | client/crypto_engine/session.py:2341-2357 | a start that is read is answered: the state `pqxdh_respond` makes is added and the named one-time keys leave the store |
| MerkleTree.PairUp | auditor_service.py:71-79 | one layer up, the last odd node promoted |
| MerkleTree.TreeLayers | auditor_service.py:64-79 | the layers end in the tree hash of RFC 6962 and each is built from the one below |
| MerkleTree.Root | auditor_service.py:82-84 | the layered root is MTH of section 2.1 of RFC 6962, or the fixed root of the empty log |
| MerkleTree.InclusionProof | auditor_service.py:87-114 | the proof is PATH of section 2.1.1 with at most ceil(log2 n) items; empty for an index outside |
| MerkleTree.NextLayerKeepsRoot | auditor_service.py:64-79 | promotion of odd nodes and the recursive split give the same root |
| MerkleTree.PathByLayers | auditor_service.py:87-114 | the recursive path is this layer's sibling followed by the path one layer up |
| MerkleTree.PathIsShort | auditor_service.py:87-114 | a path has at most ceil(log2 n) items |
| MerkleTree.SplitUnique | auditor_service.py:64-79 | the split point is the only power of two it can be |
| MerkleProofs.VerifyInclusion | client/crypto_engine/audit.py:211-251 | the verdict for every input, with the error of the first bad item; sides are not compared with the index |
| MerkleProofs.AcceptsIff | client/crypto_engine/audit.py:211-251 | accepted exactly for the fixed root of the empty log, or an index in range and a proof whose items are whole and lead to the root |
| MerkleProofs.ProveAndVerify | client/crypto_engine/audit.py:211-251 | the auditor's own proof of any leaf is accepted |
| MerkleProofs.HonestProofLeads | auditor_service.py:87-114 | every generated proof leads from its leaf to the root |
| MerkleSha.ShaProduces | client/crypto_engine/audit.py:168-177 | SHA-256 over decoded texts gives digests, so those results hold of the hash in use |
| MerkleSha.HashedStringsAre | client/crypto_engine/audit.py:168-177 | a node is the hash of the octet 1 and the left and right bytes; the other tags spell the texts of the source |
| Octets.HexReadsBack | client/crypto_engine/audit.py:168-172 | `fromhex` reads back what `hex` wrote, with white space behind it |
| Octets.CaseMakesNoDifference | client/crypto_engine/audit.py:168-172 | capital digits read as small ones do |
| MerkleSha.AcceptedIsNodeIff | client/crypto_engine/audit.py:211-251 | an accepted leaf text names a node of the tree if and only if it decodes to 32 bytes, or two different hashed strings collide |
| MerkleSha.AcceptedIsMember | client/crypto_engine/audit.py:211-251 | when the accepted leaf text is the hash of a row, the row is in the log, or two different hashed strings collide; no claim on the position |
| MerkleSha.LongLeafIsAccepted | client/crypto_engine/audit.py:234-251 | a leaf text of 40 bytes with a sibling of 24 is accepted for every log of two rows, with no collision |
| MerkleSha.EveryNodeIsAccepted | client/crypto_engine/audit.py:211-251 | inner nodes pass for leaves: every node of the tree is accepted at every index |
| MerkleSha.EmptyLogAcceptsAll | client/crypto_engine/audit.py:216-223 | in the empty log anything is accepted |
| MerkleSha.KindsDiffer | server/repository/key_repo.c:236-250 | the strings hashed for rows, nodes and the empty tree never meet |
| MerkleProofs.AcceptedAtEveryIndex | client/crypto_engine/audit.py:216-246 | the index is only range-checked |
| MerkleProofs.SameSizeRootsBind | auditor_service.py:82-84 | equal roots of lists of one length mean equal lists or a collision at hand |
| MerkleProofs.RootsBind | auditor_service.py:82-84 | the same for any two non-empty lists, or a leaf of one is a node hash of the other |
| MerkleSha.SameSizeTreesBind | auditor_service.py:59-84 | for the hash in use, equal roots of lists of one length mean equal lists or two different byte strings with one hash |
| MerkleSha.RootNamesLog | auditor_service.py:59-84 | a root names one log of rows, whatever its length, the empty one included, or two different hashed strings collide |
| IdentityAudit.VerifyIdentity | client/crypto_engine/audit.py:303-349 | what is accepted was signed by the auditor, is in full form and follows the pinned checkpoint; its leaf has the user and version asked for and the same key; errors come in the order of the source |
| IdentityAudit.AcceptedIff | client/crypto_engine/audit.py:254-349 | accepted exactly when the answer is about the key asked for, its checkpoint is sound, the proof leads to its root, and it has the pinned root at the same size or a consistency answer naming both at a larger one |
| IdentityAudit.ErrorsAre | client/crypto_engine/audit.py:180-208 | each thing wrong with an answer has its own error, given when all before it is right |
| IdentityAudit.PinsAreSigned | client/app.py:2429-2445 | every checkpoint pinned in a run of checks was signed by the auditor |
| IdentityAudit.AuditorState.Record | client/crypto_engine/session.py:2838-2887 | a checkpoint is pinned exactly when it is well formed and does not go back or split; 50 observations are kept |
| IdentityAudit.AuditorState.CheckIdentity | client/app.py:2429-2445 | the composed step: verify against the pin, then pin what was signed; after the checks recording cannot fail, and a failed check moves nothing |
| IdentityAudit.PinNeverMovesBack | client/crypto_engine/session.py:2838-2887 | over any run of checks sizes never fall and equal sizes have equal roots |
| IdentityAudit.AcceptedExtends | client/crypto_engine/audit.py:254-300 | an accepted checkpoint whose consistency answer was computed from a log extends the pinned log, or two of the three trees hash different strings to one value |
| IdentityAudit.ExtendsIffAnswered | client/crypto_engine/audit.py:270-300 | whatever was answered to an accepted check over a longer log, that log extends the pinned one exactly when the answer was what the handler computes from it, or the two trees hash different strings to one value |
| IdentityAudit.PinnedLogsAppendOnly | auditor_service.py:242-258 | over whole runs each pinned log is a prefix of every later one, or some check of the run was accepted although its trees collide |
| IdentityAudit.HonestCheckAccepted | auditor_service.py:225-258 | a check against the handlers' own answers over a growing log is accepted |
| IdentityAudit.HonestRunAccepted | auditor_service.py:225-258 | and so is every check of a run, each pinning its checkpoint |
| IdentityAudit.RewrittenLogIsAccepted | client/crypto_engine/audit.py:270-300 | a consistency answer that repeats both checkpoints lets a log pass whose first row was replaced |
| IdentityAudit.KeyIsNotBound | client/crypto_engine/audit.py:318-342 | an accepted answer stays accepted with another identity key in answer and request |
| Transcript.RecomputeChain | client/crypto_engine/session.py:1112-1153 | head, bounds, count and every head by id are those of the valid entries in id order, whatever order the dictionary has |
| Transcript.SameEntries | client/crypto_engine/session.py:1112-1131 | the chain depends on the id-to-digest map only |
| Transcript.EntriesAre | client/crypto_engine/session.py:1112-1131 | the entries are the stored non-empty digests under positive ids, and no others |
| Transcript.VisibleIff | client/crypto_engine/session.py:1066-1078 | no user's text is the empty one, a marker, or anything that begins like one of the three placeholders |
| Transcript.HeadBinds | client/crypto_engine/session.py:1128-1148 | with one conversation and one baseline, equal heads mean equal entries, or two different blocks that were hashed collide |
| Transcript.HeadsTellConversations | client/crypto_engine/session.py:1128-1148 | two conversations never have one head unless their last blocks collide |
| History.CheckHistory | client/crypto_engine/session.py:1175-1225 | the first three of exactly the justified warnings, in order, and the known digests updated |
| History.NoWarningIff | client/crypto_engine/session.py:1186-1214 | for a window with a visible message, silence means ordered ids, no spanned known id absent and no known digest different, and conversely |
| History.OthersMakeNoDifference | client/crypto_engine/session.py:1183-1191 | a message without an id or a user's text makes no difference to a check, wherever it stands |
| History.LastMessageCounts | client/crypto_engine/session.py:1193-1216 | after a check the digest of an id is that of the last message in the window with it |
| History.RepeatReportsSame | client/crypto_engine/session.py:1186-1225 | of two calls over one window the second reports no change and everything the first reported that is none; it reports nothing else if and only if no change among the first three had pushed something out; the digests stay |
| History.MissingCrowdedOut | client/crypto_engine/session.py:1202-1225 | such a window exists: three changes hide a missing id, which the second call reports |
| History.OneLogNeverWarns | client/crypto_engine/session.py:1175-1225 | any run of windows cut from one log, in any order, is never warned about |
| History.OmissionIsReported | client/crypto_engine/session.py:1202-1225 | a message shown once and absent from any later window around it is among the three warnings returned if and only if three others do not come before it; some warning comes in any case |
| Checkpoints.TranscriptLog.RecordMessage | client/crypto_engine/session.py:1155-1173 | a visible message with an id is recorded, and the chain stays that of the messages |
| Checkpoints.TranscriptLog.VerifyHistory | client/crypto_engine/session.py:1175-1225 | the check of the stored transcript, chain included |
| Checkpoints.TranscriptLog.CreateCheckpoint | client/crypto_engine/session.py:1227-1272 | the statement over the current chain, linked to the last own one |
| Checkpoints.StatementStates | client/crypto_engine/session.py:1236-1257 | a statement is made exactly for a non-empty view and states all of it, with its maker, the last own statement and the time |
| Checkpoints.TranscriptLog.RecordCheckpoint | client/crypto_engine/session.py:1274-1362 | the first five of the warnings due, and the peer's checkpoint stored in any case |
| Checkpoints.FieldProblemsAreReported | client/crypto_engine/session.py:1279-1301 | a bad signature, another conversation, a wrong event and missing fields are each among the warnings returned exactly when they are so |
| Checkpoints.ComparisonsAreReported | client/crypto_engine/session.py:1309-1362 | of a checkpoint that is well formed and signed, going back, a changed view, a broken chain and another order are each returned exactly when they are so |
| Checkpoints.PeerKeysTell | client/crypto_engine/session.py:1303-1308 | checkpoints are of one peer exactly when they name one identity, or none and one user |
| Checkpoints.MismatchIff | client/crypto_engine/session.py:1323-1336 | the order warning comes exactly for one baseline, a shared last id and another local head there |
| Checkpoints.LastComparisonIsIdle | client/crypto_engine/session.py:1331-1336 | the second comparison, at the last local id, never decides |
| Checkpoints.PrefixNeverMismatches | client/crypto_engine/session.py:1323-1336 | a peer whose view is a prefix of the local one, or extends it, is never reported |
| Checkpoints.SilenceBinds | client/crypto_engine/session.py:1323-1336 | no report at a shared last id means equal views up to it, or a collision |
| Checkpoints.EqualHeadsEqualMessages | client/crypto_engine/session.py:1112-1153 | two clients with equal heads at an id both have hold identical messages up to it, or a collision |
| Checkpoints.GrowingPeerIsClean | client/crypto_engine/session.py:1309-1320 | a peer that only appends draws none of the three warnings about itself |
| Checkpoints.ShrinkingPeerIsReported | client/crypto_engine/session.py:1309-1320 | one that goes back or changes its view at one last id is reported, or shows a collision |
| Checkpoints.HonestCheckpointIsClean | client/crypto_engine/session.py:1274-1362 | a signed checkpoint of a peer that has seen a prefix of the local view, or more, and has only added to its own since its last statement, draws no warning at all |
| Frames.ParseEncoded | client/network.py:171-203 | any frame, masked or not, of every length class reads back as what its opcode means, whatever follows |
| Frames.FrameExists | client/network.py:206-218 | every payload shorter than 2^64 can be framed, and no other |
| Frames.FrameIs | client/network.py:206-218 | a frame the client writes is final, text and masked, in the shortest length form, with its key and every octet combined with octet i modulo 4 of it |
| Frames.XorIsBitwise | client/network.py:206-218 | the combination is exclusive or, bit by bit |
| Frames.FirstCountsMost | client/network.py:171-203 | lengths are read with the first octet counting most |
| Frames.ParseFrame | client/network.py:171-218 | `_parse(_frame(p) + rest)` is `(p, rest)` for every mask |
| Frames.OpcodeDecides | client/network.py:171-203 | opcode 8 reads as CLOSE, 9 as nothing, and any other as the data |
| Frames.ParseStable | client/network.py:171-203 | a completed parse is unchanged by later bytes |
| Frames.ParseShortens | client/network.py:171-203 | each parsed frame shortens the buffer |
| Frames.DrainBuffer | client/network.py:146-160 | the inner loop hands on every whole frame up to a close and ends |
| Frames.DrainSplits | client/network.py:137-160 | draining early and going on with the rest is draining once |
| Frames.RecvLoop | client/network.py:137-168 | payloads emitted and whether the end is reported, for any pieces |
| Frames.ChunkingDoesNotMatter | client/network.py:137-168 | both depend on the bytes that arrive before the end, not on the pieces |
| Frames.SentIsHandedOn | client/network.py:137-218 | however a stream of framed payloads is cut, the loop hands them on in order without the empty ones, up to the first that reads CLOSE, and reports the end if there is none |
| ChatPageObject.ChatPage.UpdateMessage | client/pages/chat_page.py:3023-3036 | exactly the first entry with the id takes the body and flags; the result says whether there is one |
| ChatPageObject.ChatPage.ApplyEditEvent | client/pages/chat_page.py:3038-3053 | an edit is made, or waits when its message is absent |
| ChatPageObject.ChatPage.ApplyPending | client/pages/chat_page.py:3055-3072 | all waiting edits are tried in order; those without a message remain |
| ChatPageObject.ChatPage.AddMsg | client/pages/chat_page.py:2451-2469 | the message is appended and its waiting edits made |
| ChatPageObject.ChatPage.AddSystemEvent | client/pages/chat_page.py:2511-2562 | an event with a key seen before is dropped; else it is appended with its anchor and its keys are remembered |
| ChatPageObject.VisibleMax | client/pages/chat_page.py:2863-2870 | the anchor of an event that comes live is the largest id of a message neither deleted nor hidden, 0 without one |
| ChatPageObject.ChatPage.LoadHistory | client/pages/chat_page.py:2671-2850 | the whole page after a load as a function of the page before |
| PendingEdits.InterleavingDoesNotMatter | client/pages/chat_page.py:2451-3072 | any interleaving of arrivals and edits ends as if all messages had come first |
| PendingEdits.LastEditWins | client/pages/chat_page.py:3038-3072 | a message ends with the body of its last edit, early or late, and none of its edits waits |
| StableSort.SortIs | client/pages/chat_page.py:2828-2839 | the stable sort is determined by the items of each key |
| TimelineFacts.EachMessageOnce | client/pages/chat_page.py:2767-2775 | each message id of the merge comes exactly once, ids increasing |
| TimelineFacts.MessageStaysIff | client/pages/chat_page.py:2767-2775 | a message known or received is on the page if and only if its entry is no protocol marker or a deleted one |
| TimelineFacts.NoMessageIsLost | client/pages/chat_page.py:2712-2775 | nothing that is no protocol marker is missing, nor a deleted one the server sends no copy of |
| TimelineFacts.BubblesStayLast | client/pages/chat_page.py:2686-2711 | failed and pending bubbles stay, in order, at the end |
| TimelineFacts.LocalEventsStay | client/pages/chat_page.py:2818-2826 | a local event stays with its anchor unless the server has one with a key of it |
| TimelineFacts.EventStays | client/pages/chat_page.py:2777-2826 | every event of the merge is on the page |
| TimelineFacts.ReadableStaysReadable | client/pages/chat_page.py:2758-2765 | a readable text is never replaced by a placeholder |
| TimelineFacts.EventsStandAtAnchors | client/pages/chat_page.py:2828-2839 | an event stands behind the messages up to its anchor and before the later ones |
| TimelineRecords.ServerEventIsShown | client/pages/chat_page.py:2771-2847 | a server event with a text that is not the same as one taken before is on the page with its own text, time and keys, behind exactly the messages with ids up to its `after` |
| TimelineRecords.EventOnPageIs | client/pages/chat_page.py:2771-2832 | every event on the page is one the server sent, or one of the client's own that the server has no key of |
| TimelineRecords.StoredOnce | client/pages/chat_page.py:2771-2823 | each server event is taken over once |
| TimelineRecords.EventsStandInOrder | client/pages/chat_page.py:2834-2847 | events of one anchor stand in the order of their ids, those without one behind |
| TimelineRecords.OwnEventIsShown | client/pages/chat_page.py:2686-2711 | an event of the page stays with its text, behind the messages up to its anchor or the last one before it, unless the server sent the same |
| TimelineRecords.LiveEventIsShown | client/pages/chat_page.py:2511-2562 | an event that came live is shown by the next load at the anchor it came with, unless the server sent the same |
| TimelineRecords.MessageIsShown | client/pages/chat_page.py:2712-2769 | a message the server sent is on the page with everything its last copy says and the text of its last edit, or of the last that waited; a text known before is not given up for a placeholder |
| TimelineRecords.KnownIsShown | client/pages/chat_page.py:2686-2775 | one the server sent no copy of stays as it was but for its edits |
| TimelineRecords.BubblesKeepOrder | client/pages/chat_page.py:2709-2710 | bubbles keep their order |
| TimelineTwice.SecondLoadIsIdle | client/pages/chat_page.py:2671-2850 | loading the same history again changes nothing if and only if every edit of the history finds its message, none has made a hidden, unreadable message readable, and no edit that had waited differs from what the history makes of its message |
| TimelineTwice.EditUnhides | client/pages/chat_page.py:2758-2765 | the second case occurs: a history whose second load shows what the first hid |
| TimelineTwice.WaitingEditIsUndone | client/pages/chat_page.py:3055-3072 | the third case occurs: an edit that waited finds its message in the first load and is undone by the second, with nothing unhidden |
| TimelineTwice.UnfoundWaitsAgain | client/pages/chat_page.py:3038-3053 | an edit of the history without a message is added to the waiting ones by every load, so no second load is idle |
| HistoryCache.HistoryReader.DecryptHistory | client/crypto_engine/session.py:2525-2563 | texts shown and the state left by one pass over the S3DR messages |
| HistoryReading.PeerIsShownIff | client/crypto_engine/session.py:2535-2563 | a message of somebody else that is not cached is shown, unpacked, exactly when the session it is routed to opens it |
| HistoryReading.OwnIsShownIff | client/crypto_engine/session.py:2525-2537 | one's own is shown exactly when it is cached, by id or by wire, and moves no session |
| HistoryReading.CachedIsShownAs | client/crypto_engine/session.py:2525-2534 | a cached message is shown as a line of it says, and a deleted one as deleted |
| HistoryReading.HistoryShowsWhatWasSaid | client/crypto_engine/session.py:2525-2563 | after any talk over queues in order, a history of the wires on their way, not cached, shows exactly what the peer said |
| HistoryCache.PassCaches | client/crypto_engine/session.py:329-360 | a text read in a pass is what the cache gives for its id afterwards |
| HistoryCache.PassKeepsCached | client/crypto_engine/session.py:387-435 | no later pass changes it |
| HistoryCache.ReadAgainIsSame | client/crypto_engine/session.py:2525-2563 | a message read once has the same text in every later pass, and reading it again moves no session |
| HistoryCache.ReplayIsFree | client/crypto_engine/session.py:2525-2563 | a history read completely can be read again with the same texts and no session moved |
| HistoryCache.TrimmedMatches | client/crypto_engine/session.py:2400-2417 | the trimming used there is the one the ratchet object makes |
## Left out

- Real cryptography, encodings and padding: keys are terms, JSON and base64 are injective and appear only as the values they carry.
- Malformed JSON or base64, and a wire with neither `h` nor `eh` whose fields stand in the outer object (`client/crypto_engine/secure_protocol.py:606-617`).
- X25519 refusing low-order keys: the only key text that is refused is the empty one.
- Disk: a saved state is read back as it was but for the cut of `seen`; failed writes, the legacy paths and loading a session map from disk are not modelled. The transcript and the cache are the stored files, whose writes succeed.
- MLS groups, group control messages and the Rust bridge.
- Timestamps, cache lifetime and eviction, log messages, threads, generations of a connection (`_gen`) and all Qt code.
- Other branches of `decrypt_history_messages`: S3PQI messages in a history take the path of `SessionMap.DmSessions.ReceiveInit`, MLS messages are left out.
- The `App` controller but for the composed audit check.
- The prefix `__SYSTEM__:`, which marks events in the text of an entry; here an entry is an event or is not.
- Pins, reactions, forwards and replies of a timeline entry, which are one opaque field.
- MerkleSha.AcceptedIsMember: membership only, because the verifier does not compare the index with the sides of a proof.
- IdentityAudit.AcceptedExtends: assumes the consistency answer was computed by the handler, because its proof is always empty.
- Secrecy.ForwardSecrecy: is about the keys of one end; the state of its peer, which may lag one root step behind, is not disclosed with it. What a run leaves in memory or on disk beyond the fields of the state is not part of this model.
- SimultaneousStart.ActKeepsSound: the bundle of a start is made of keys the other store has, and no other conversation takes them before the start is read; the key an answer draws is named at the start.
- SimultaneousStart.TakeIsRead: is about states as values; that the map and the current session share objects is in `SessionMap`.
- RatchetObject.DoubleRatchet.DhRatchet: refuses the empty key only, not the low-order keys X25519 refuses.
- RatchetObject.DoubleRatchet.Decrypt: takes decoded wires, without the header fields a raw object may carry itself.
- SessionMap.DmSessions.LoadSessions: does not read the map from disk.
- SessionMap.DmSessions.Save: does not model a failed write, which leaves the map as it was.
- Frames.RecvLoop: does not model a socket error or a connection that was replaced.
- HistoryCache.HistoryReader.DecryptHistory: covers the S3DR branch of the loop.
- HistoryReading.HistoryShowsWhatWasSaid: is about one session whose wires come in order; with several, what is shown of each message is in `HistoryReading.PeerIsShownIff`.
- PqxdhTrust.StartsIff: a bundle whose signatures of an identity were made for two uploads, an older and a newer one, may mix their keys.
- TimelineTwice.SecondLoadIsIdle: for events with positive ids, entries and edits that are no protocol marker, and waiting edits that have a positive target and can be read; that these conditions are necessary is not shown.
- HistoryCache.ReadAgainIsSame: assumes that unpacking leaves the text shown unchanged, which holds for texts that are not themselves packed, and that ids within the first pass are distinct.
- History.CheckHistory: message digests are a function of the canonical fields; equal digests of different messages appear as such in `Checkpoints.EqualHeadsEqualMessages`.
