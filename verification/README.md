# Verification of the Signatory remote signer

A Dafny model of the parts of Signatory where a mistake costs most: the watermark that
guards against double signing and its four backends, AES key wrapping, the lockstep RPC
client of the Confidential Space vault with its key handles, the Ledger wire formats, and
policy preparation. Everything is proved for all inputs and, for protocols, over all runs.

`dafny verify dfyconfig.toml` checks the whole project.

## What is modelled

**Watermarks** (`Request`, `MemoryStore`, `Signing`, `FileStore`, `Migration`, `ConditionalPut`,
`TableRuns`, `CasLoop`). A consensus message carries chain, kind, level and round; everything else about it
is its body. The digest is any function that tells the messages of a run apart. Levels and
rounds are Go `int32` values, and the comparison in `Validate` subtracts them with wrap-around.

- The in-memory store is a class whose chain, delegate and kind maps are separate heap objects
  updated through references; it is proved to act as one flat map.
- `Signing` is the machine of `Signatory.Sign` on that store: checks are atomic, vault calls come
  any time later, and the log of signatures is what the safety theorem is about.
- `FileStore` adds one file per chain, replaced by rename, and lets writes fail before or after
  the rename and the process crash and restart at any point.
- `TableRuns` is any number of signers on one DynamoDB table. A put may lose its reply, arrive after its
  caller was told that it failed, and arrive again.
- `CasLoop` is the Firestore loop run by any number of calls. Each action is one RPC as server and
  caller see it; replies may be lost, the SDK may silently repeat a write that took effect, and a write
  may take effect after its caller has given up. Its history is compared with the atomic conditional put
  of the DynamoDB backend.

**Key wrapping** (`Kwp`, `KwpLoops`). AES is any permutation of 16-byte blocks. W is written as the
shift register of section 6.1 of NIST SP 800-38F; the byte-array loops of the code are proved to
compute it and its inverse, and KWP of section 6.3 (sections 3, 4.1 and 4.2 of RFC 5649) on top.

**Confidential Space** (`RpcClient`, `KeyHandles`). A connection is the queue of replies still to
come, each tagged with the request it answers; the client cannot see the tags. A frame cut short in
either direction tears the connection: nothing read from it later answers any request. The signer is a
table of handles that a restart empties, and may take a key under a handle the vault never hears of.

**Ledger** (`Hid`, `LedgerSign`, `Bip32`). Packets, APDU commands and chunks are taken to the far side
and put together again; paths and key ids have their byte and text forms.

**Policy** (`Policy`). Preparation of one key's policy and the request filter.

## Where the code does less than one might expect

Each of these has a lemma with a concrete input and a lemma that says exactly when the code does
meet the property.

- `Validate` is the lexicographic order only while the deciding difference fits an `int32`. The guard
  is safe on a window of levels and rounds if and only if neither side is wider than 2^31
  (`Signing.SafeIffNarrow`); the protocol's non-negative values are.
- The comment on the RPC client says a cancellation discards the connection. The second attempt at
  client.go:155 does not. A client is out of step after a call if and only if that second attempt is
  cancelled between the first byte of its request and the last byte of its reply
  (`RpcClient.EndangersIff`, `RpcClient.InterruptedRetryMisdelivers`).
- Re-importing a key does not compare the public key it gets back. Over a whole run every key signs only as
  itself if and only if the signer never gives out a handle that a key of another public key still holds,
  be it in an answer that never reaches the vault, and every blob is its key's own
  (`KeyHandles.SafeIffClean`, `KeyHandles.ReusedHandleSignsAsAnother`, `KeyHandles.UnseenImportSignsAsAnother`).
- An error from the remote stores does not mean that the watermark stays where it was
  (`CasLoop.LateWriteMoves`, `TableRuns.LatePutMoves`). A Firestore call that returned without effect stays so
  if and only if it left no write behind whose precondition still holds (`CasLoop.ErrorIsFinalIff`). A DynamoDB
  put that has not succeeded never will if and only if the table is already at or above it
  (`TableRuns.RefusalIsFinalIff`).
- `Unwrap` accepts wrappings of 9 to 15 byte keys, which `Wrap` never makes (`Kwp.RewrapIff`,
  `Kwp.ShortKeysUnwrap`).
- The configuration printed by the deprecation warning can allow generic requests that were refused
  before (`Policy.RewritePreservesIff`, `Policy.RewriteAdds`, `Policy.RewriteCanWiden`).
- Migrated version 1 watermarks protect live requests if and only if they are block watermarks, and migrated
  version 0 watermarks if and only if their kind has not been renamed (`Migration.V1ProtectsIff`,
  `Migration.V0ProtectsIff`).
- `ParseBIP32` panics on an empty component after well-formed ones, and with it the parsing of a configured
  key id (`Bip32.PanicsIff`, `Bip32.KeyPanicsIff`, `Bip32.TextRoundTripIff`); the length fields of HID commands, APDU commands and
  binary paths are exact only up to 65535 bytes, 255 bytes and 255 components.

## Model

| member | source | states |
|---|---|---|
| Request.ValidateIsLexicographicIff | pkg/signatory/request/request.go:31-42 | the wrapped comparison is the lexicographic order on (level, round) if and only if the deciding difference fits an int32 |
| Request.ValidateIsSoundIff | pkg/signatory/request/request.go:35-41 | nothing that is not above is accepted if and only if the difference is at least -2^31 |
| Request.ValidateNonNegative | pkg/signatory/request/request.go:31-42 | for non-negative values: accepted exactly on equal digests or strictly above |
| MemoryStore.CheckChangesOwnEntry | pkg/signatory/watermark/mem.go:51-58 | a request changes at most its own entry, a refused one nothing |
| MemoryStore.DecidedByLast | pkg/signatory/watermark/mem.go:28-58 | on the messages themselves: accepted without a watermark; right after an accepted one of its key, chain and kind, exactly if it has the same digest or a higher (level, round); unguarded ones always |
| MemoryStore.UnrelatedDoNotMatter | pkg/signatory/watermark/mem.go:35-51 | a request of another key, chain or kind does not change a decision |
| MemoryStore.InMemory.ChainEntry | pkg/signatory/watermark/mem.go:35-43 | creating a chain's map changes nothing that is stored and shares no map |
| MemoryStore.InMemory.DelegateEntry | pkg/signatory/watermark/mem.go:45-49 | creating a delegate's map changes nothing that is stored and shares no map |
| MemoryStore.InMemory.Record | pkg/signatory/watermark/mem.go:57-57 | a write through the shared reference changes the flat map under one key alone |
| MemoryStore.InMemory.IsSafeToSign | pkg/signatory/watermark/mem.go:28-59 | the nested maps before and after stand for flat maps related by the check, with its answer |
| MemoryStore.Load | pkg/signatory/watermark/file.go:49-76 | the maps loaded from the files hold exactly what the files hold |
| Signing.AcceptedRepeatsOrAdvances | pkg/signatory/watermark/mem.go:51-57 | in a reachable state, what is accepted is the stored message itself or strictly past it |
| Signing.RunKeepsInv | pkg/signatory/signatory.go:396-418 | every run keeps: approved messages are covered by the store, the store was approved, no two approved share a place |
| Signing.RunsNeverDoubleSign | pkg/signatory/signatory.go:396-418 | over every run, two signatures of a key at one chain, kind, level and round are of the same message |
| Signing.WatermarksNeverDecrease | pkg/signatory/watermark/mem.go:28-59 | along every run a stored watermark stays or moves strictly up |
| Signing.SafeIffNarrow | pkg/signatory/request/request.go:35-41 | all runs over a window of levels and rounds are safe if and only if neither side exceeds 2^31; non-negative values are |
| Signing.ScriptSigns | pkg/signatory/signatory.go:396-418 | messages that validate one after the other are all signed |
| Signing.CycleDoubleSigns | pkg/signatory/request/request.go:35-41 | five messages that validate in a circle make the guard sign one place twice |
| FileStore.CrashSafety | pkg/signatory/watermark/file.go:177-191 | over every run with failed writes, crashes and restarts: no double signing, signed at or below disk, memory never behind disk, nothing at or below an initial watermark |
| FileStore.HandleKeepsInv | pkg/signatory/watermark/file.go:186-190 | one accepted request keeps all of that, wherever its write stops |
| FileStore.PublishCovers | pkg/signatory/watermark/file.go:139-152 | replacing a chain's file moves no watermark down on disk and leaves memory at or above disk |
| FileStore.AdvancingRequestIsApproved | pkg/signatory/watermark/file.go:177-191 | a request past memory, once written, is approved and on disk; other chains' files and other entries stay |
| FileStore.ApprovedIff | pkg/signatory/watermark/file.go:183-190 | a request is approved if and only if it needs no watermark, or passes the check and its write succeeds |
| FileStore.FailedWriteIsRemembered | pkg/signatory/watermark/file.go:186-190 | after a failed write the same message can be tried again and no other one at its place gets through |
| FileStore.CrashLeavesDisk | pkg/signatory/watermark/file.go:139-152 | after a crash the files alone decide; they hold the new watermark if and only if the rename took effect |
| FileStore.FaultlessIsMemory | pkg/signatory/watermark/file.go:183-190 | while no write fails the file store runs as the in-memory one and the files hold what memory holds |
| FileStore.File.IsSafeToSign | pkg/signatory/watermark/file.go:177-191 | object, memory maps and files change as one step of the machine; nil if and only if unguarded, or accepted and written; no answer if and only if the process died writing |
| FileStore.RepresentsPublish | pkg/signatory/watermark/file.go:145-151 | writing the chain's snapshot is the publish step on the flat map |
| FileStore.Open | pkg/signatory/watermark/file.go:79-97 | a restarted store is in the machine's start state for what the files hold |
| Migration.Transpose | pkg/signatory/watermark/migration.go:66-77 | the loops exchange kind and delegate: no entry lost, added or changed, no empty row |
| Migration.TransposedIsUnique | pkg/signatory/watermark/migration.go:66-77 | that result is the only such map |
| Migration.TransposedTwice | pkg/signatory/watermark/migration.go:66-77 | transposing again gives back every entry |
| Migration.TryV0 | pkg/signatory/watermark/migration.go:44-81 | every chain's file is transposed |
| Migration.UpgradeFile | pkg/signatory/watermark/migration.go:139-165 | each delegate keeps its one watermark under the name of its order, round 0 when missing |
| Migration.TryV1 | pkg/signatory/watermark/migration.go:117-169 | every chain's file is upgraded |
| Migration.V1EntriesKept | pkg/signatory/watermark/migration.go:139-165 | every entry keeps its level, its round (0 when missing) and its digest, under the name of its order |
| Migration.WriteAll | pkg/signatory/watermark/file.go:154-161 | run to completion, every chain's file holds its maps and no other file changes |
| Migration.NewFileWatermark | pkg/signatory/watermark/file.go:79-137 | current files win, else version 1, else version 0 is migrated; memory and disk then agree |
| Migration.V0MigrationProtects | pkg/signatory/watermark/file.go:125-131 | every signature of every later run is at a higher (level, round) than the version 0 watermark of its key, or is the very message of it |
| Migration.V1MigrationProtectsBlocks | pkg/signatory/watermark/file.go:116-122 | the same for version 1 block watermarks, on the fields of the old file |
| Migration.V1ProtectsIff | pkg/signatory/watermark/migration.go:141-149 | a live request not past the level and round of a version 1 watermark of its order is refused if and only if the order is block |
| Migration.V0ProtectsIff | pkg/signatory/watermark/migration.go:66-77 | a live request at or below a migrated version 0 watermark, with no entry under the name used today, is refused if and only if the kind is neither endorsement nor preendorsement |
| ConditionalPut.Table.PutItem | pkg/signatory/watermark/aws.go:150-168 | success only for a put that took effect under its condition; every other outcome reads as a refusal |
| ConditionalPut.Table.IsSafeToSign | pkg/signatory/watermark/aws.go:170-208 | a delivered put is answered nil if and only if nothing or something strictly lower is stored, and is then stored; a lost one is an error, and an error leaves the table or lost the reply |
| ConditionalPut.ExtendHistory | pkg/signatory/watermark/aws.go:190-198 | appending a put that answers by its condition keeps a history legal |
| ConditionalPut.TableIsHighest | pkg/signatory/watermark/aws.go:193-193 | the table is at or above every successful put of a legal history |
| ConditionalPut.SuccessesIncrease | pkg/signatory/watermark/aws.go:193-193 | successful puts under one key strictly increase |
| ConditionalPut.StepsAgree | pkg/signatory/watermark/aws.go:193-193 | memory and conditional put store the same; memory accepts what the put accepts and exact repeats |
| ConditionalPut.BackendsAgree | pkg/signatory/watermark/mem.go:51-57 | the same over every request sequence from the empty state |
| TableRuns.TableRunsSafe | pkg/signatory/watermark/aws.go:150-208 | over every run with lost, late and repeated puts, and for every digest: approvals under one key strictly increase, so no place is approved twice |
| TableRuns.TableCoversApprovals | pkg/signatory/watermark/aws.go:193-193 | over every such run the table is at or above every approval |
| TableRuns.StepKeepsInv | pkg/signatory/watermark/aws.go:150-168 | every put that reaches the table keeps its history legal, and every approval is a successful put of it, in order |
| TableRuns.LatePutMoves | pkg/signatory/watermark/aws.go:160-165 | a put whose caller was told no moves the watermark later, and the same request is then refused |
| TableRuns.RefusalIsFinalIff | pkg/signatory/watermark/aws.go:150-168 | a put that has not succeeded never will, whatever happens later, if and only if the table is already at or above it |
| CasLoop.StepKeepsInv | pkg/signatory/watermark/gcp.go:138-189 | every RPC of every call keeps documents, calls and history in order |
| CasLoop.MayCommit | pkg/signatory/watermark/gcp.go:167-176 | a write whose precondition holds meets the condition of the atomic put, and is the call's first |
| CasLoop.Linearizable | pkg/signatory/watermark/gcp.go:138-189 | in every reachable state the history is legal and leaves the documents; each returned call answers as its put, which lies within the call, or after its end only when the call gave up on it with an error; a call takes effect at most once |
| CasLoop.LateWriteMoves | pkg/signatory/watermark/gcp.go:171-185 | a run in which a call has returned an error and its write takes effect after that |
| CasLoop.ErrorIsFinalIff | pkg/signatory/watermark/gcp.go:138-189 | a returned call without effect stays without effect, whatever happens later, if and only if it left no write behind whose precondition still holds |
| CasLoop.OtherAnswersAreFinal | pkg/signatory/watermark/gcp.go:147-188 | success, refusal and exhaustion leave no such write behind |
| CasLoop.SuccessesDiffer | pkg/signatory/watermark/gcp.go:92-94 | two calls that succeed on a document differ in (level, round) |
| CasLoop.ExhaustedMeansProgress | pkg/signatory/watermark/gcp.go:140-188 | a call that gives up met a committed write to its document in each of its four disjoint read-to-write windows, by others unless the SDK resent |
| CasLoop.AloneIsConditionalPut | pkg/signatory/watermark/gcp.go:127-130 | without interference a call is the atomic conditional put |
| CasLoop.TryOnce | pkg/signatory/watermark/gcp.go:141-185 | one round of the loop: exactly the read and the write of its attempt, with what others do before each, and the answer or next attempt these come to |
| CasLoop.CheckAndSet | pkg/signatory/watermark/gcp.go:138-189 | under any interference the loop is exactly the run of the machine made of its start and the attempts it makes, and the answer is the one its call returned there |
| CasLoop.UndisturbedIsConditionalPut | pkg/signatory/watermark/gcp.go:127-189 | undisturbed, the loop answers nil exactly if the condition of the put holds, and leaves what the put leaves |
| CasLoop.IOErrorNeedsFault | pkg/signatory/watermark/gcp.go:141-185 | from any reachable state, under any interference, the loop answers with an I/O error only if one of its RPCs failed |
| CasLoop.FailedWriteEffect | pkg/signatory/watermark/gcp.go:171-185 | a write answered with an error has taken effect if and only if it arrived and met its precondition |
| ByteStrings.Xor8Bit | pkg/crypto/kwp/kwp.go:131-131 | bit by bit, the exclusive or of two bytes is set where exactly one of them is |
| ByteStrings.BigEndianAt | pkg/crypto/kwp/kwp.go:127-133 | byte i of a big-endian number is its digit of 256^(n - 1 - i) |
| Kwp.WrappingSizeIff | pkg/crypto/kwp/kwp.go:99-102 | the size test is the bound 8(n-1) < m <= 8n of section 3 of RFC 5649 |
| Kwp.RotateStep | pkg/crypto/kwp/kwp.go:124-135 | one in-place step is one shift step up to rotation |
| Kwp.ShiftIsRotatedIndex | pkg/crypto/kwp/kwp.go:121-137 | after k steps the shift register is the in-place data rotated by k places |
| Kwp.IndexedIsW | pkg/crypto/kwp/kwp.go:121-137 | the 6n in-place steps compute W of section 6.1 of NIST SP 800-38F |
| Kwp.WIsStandard | pkg/crypto/kwp/kwp.go:121-137 | W is 6n steps; step t encrypts the register with semiblock (t - 1) mod n, adds the 64-bit t to the left half and puts the right half back |
| Kwp.PlainLayout | pkg/crypto/kwp/kwp.go:189-191 | the input of W: A65959A6, the length in four bytes, the key, zeros up to a multiple of eight |
| Kwp.JoinLayout | pkg/crypto/kwp/kwp.go:113-116 | register and data are the consecutive eight-byte pieces |
| Kwp.WrapIff | pkg/crypto/kwp/kwp.go:181-194 | exactly keys of 16 to 8192 bytes are wrapped, as W of that input |
| Kwp.UnmixUndoesMix | pkg/crypto/kwp/kwp.go:161-172 | one step of the inverse undoes one step |
| Kwp.InverseOfW | pkg/crypto/kwp/kwp.go:142-178 | W is a bijection and the reverse loop is its inverse on both sides |
| Kwp.UnwrapExact | pkg/crypto/kwp/kwp.go:199-237 | unwrapping yields x if and only if the input is the wrapping of x and x has 9 to 8192 bytes |
| Kwp.RoundTrip | pkg/crypto/kwp/kwp.go:181-237 | unwrapping undoes wrapping for every key of 16 to 8192 bytes |
| Kwp.RewrapIff | pkg/crypto/kwp/kwp.go:181-187 | wrapping an unwrapped key gives the input back if and only if the key has at least 16 bytes |
| Kwp.ShortKeysUnwrap | pkg/crypto/kwp/kwp.go:199-208 | 9 to 15 byte keys unwrap although they are never wrapped |
| KwpLoops.XorRoundConst | pkg/crypto/kwp/kwp.go:127-133 | the four-byte xor is the xor with the counter modulo 2^32, hence below 2^32 with the whole 64-bit counter |
| KwpLoops.ComputeW | pkg/crypto/kwp/kwp.go:106-140 | the byte-array loops return W of IV and padded key; errors exactly on the stated sizes |
| KwpLoops.InvertW | pkg/crypto/kwp/kwp.go:144-178 | the byte-array loops return the steps of the inverse with a counter cut to four bytes, which is the inverse of W while the counter fits; errors exactly on the stated sizes |
| KwpLoops.LowCounterSuffices | pkg/crypto/kwp/kwp.go:163-169 | below 2^32 steps the cut counter makes no difference |
| KwpLoops.Wrap | pkg/crypto/kwp/kwp.go:181-194 | the wrapping of the standard, or an error outside 16 to 8192 bytes |
| KwpLoops.Unwrap | pkg/crypto/kwp/kwp.go:199-237 | the key if IV, length and padding check out, else an error |
| RpcClient.CallInStep | pkg/vault/confidentialspace/rpc/client.go:115-156 | from a client in step a call returns its own reply, and leaves it in step if and only if its retry was not cancelled on the way, be it while writing, waiting or reading |
| RpcClient.RunsAnswerTheirCallers | pkg/vault/confidentialspace/rpc/client.go:115-156 | over every run without such a cancelled retry every reply answers its caller's request |
| RpcClient.SafeIffInStep | pkg/vault/confidentialspace/rpc/client.go:22-29 | all later calls are safe if and only if no stale reply is outstanding and no frame was cut short |
| RpcClient.EndangersIff | pkg/vault/confidentialspace/rpc/client.go:134-155 | a call endangers its successors if and only if its retry is interrupted |
| RpcClient.InterruptedRetryMisdelivers | pkg/vault/confidentialspace/rpc/client.go:155-155 | for each way to interrupt the retry, a two-call run in which the second caller gets the first one's reply or one that answers no request |
| RpcClient.ConnectIff | pkg/vault/confidentialspace/rpc/client.go:95-110 | a connection is kept if and only if the dial is made and Initialize is served; a refused one is closed |
| RpcClient.DialFails | pkg/vault/confidentialspace/rpc/client.go:123-128 | without a connection, any other dial ends the call with no connection |
| RpcClient.DialSucceeds | pkg/vault/confidentialspace/rpc/client.go:123-130 | a good dial goes on as on a fresh connection |
| RpcClient.RetriesIff | pkg/vault/confidentialspace/rpc/client.go:134-155 | a call is retried if and only if its connection is lost or its reply ends too soon, its context has not ended, and the redial is made and served |
| RpcClient.RedialFails | pkg/vault/confidentialspace/rpc/client.go:151-154 | after a broken first attempt any other redial ends the call with no connection |
| RpcClient.RetryOutcome | pkg/vault/confidentialspace/rpc/client.go:155-155 | the second attempt returns its own result, error or failure and keeps the new connection |
| RpcClient.RetryDelivers | pkg/vault/confidentialspace/rpc/client.go:151-155 | after a lost connection a good redial and retry deliver the reply |
| RpcClient.FirstAttempt | pkg/vault/confidentialspace/rpc/client.go:130-146 | a result keeps the connection, and so do an RPC error and an undecodable reply unless the context has ended, none of them repeated; cancellation gives it up |
| RpcClient.Client.ConnectLocked | pkg/vault/confidentialspace/rpc/client.go:95-110 | a fresh initialized connection or none |
| RpcClient.Client.Close | pkg/vault/confidentialspace/rpc/client.go:54-63 | whatever was outstanding or torn, every later call gets its own reply |
| RpcClient.Client.Do | pkg/vault/confidentialspace/rpc/client.go:115-156 | connection and result are those of the specification; in step, the reply is the caller's |
| KeyHandles.IsStaleHandleError | pkg/vault/confidentialspace/confidentialspace.go:260-271 | true exactly if some message of the chain says invalid handle, up to case and surrounding space |
| KeyHandles.SaysInvalidHandleIff | pkg/vault/confidentialspace/confidentialspace.go:266-266 | a message counts if and only if it consists of the words invalid handle, in any case and with any white space around |
| KeyHandles.EqualFoldIff | pkg/vault/confidentialspace/confidentialspace.go:266-266 | strings are alike if and only if they differ at most in the case of letters |
| KeyHandles.SpaceIff | pkg/vault/confidentialspace/confidentialspace.go:266-266 | white space is that of Unicode, by code points |
| KeyHandles.OtherErrorsEnd | pkg/vault/confidentialspace/confidentialspace.go:307-314 | any other error ends the call: no import, no second attempt, nothing changed |
| KeyHandles.SignatureIff | pkg/vault/confidentialspace/confidentialspace.go:303-323 | exactly when a signature is returned |
| KeyHandles.SignsOnlyAsItselfIff | pkg/vault/confidentialspace/confidentialspace.go:281-292 | whatever happens around a call, a key signs only as itself and only the message given, if and only if its table entry and its blob, if any, are its own |
| KeyHandles.StepSoundIff | pkg/vault/confidentialspace/confidentialspace.go:148-293 | one step keeps that for all keys if and only if it gives out no handle, seen by the vault or not, that a key of another public key still holds, and brings no foreign blob |
| KeyHandles.SafeIffClean | pkg/vault/confidentialspace/confidentialspace.go:148-345 | over every interleaving of imports, seen or unseen, signings and restarts: all keys sign only as themselves all along if and only if every step is such |
| KeyHandles.HonestIsClean | pkg/vault/confidentialspace/confidentialspace.go:148-345 | a signer that never reuses a handle for another key makes every run such, and each key's handle was issued for it |
| KeyHandles.SignsWithOwnKey | pkg/vault/confidentialspace/confidentialspace.go:303-323 | after such a run a successful Sign is of the message and by the reference's key, with at most two sign calls and one import |
| KeyHandles.NeverReusedSignsWithOwnKey | pkg/vault/confidentialspace/confidentialspace.go:303-323 | under a signer that never reuses a handle every successful Sign of every run is of the message and by the reference's key |
| KeyHandles.RecoversAfterRestart | pkg/vault/confidentialspace/confidentialspace.go:273-293 | a lost handle is repaired and the signature is by the right key |
| KeyHandles.LiveHandleSigns | pkg/vault/confidentialspace/confidentialspace.go:307-308 | a live handle is used once, with nothing imported or changed |
| KeyHandles.ReuseSetup | pkg/vault/confidentialspace/confidentialspace.go:165-170 | the run that leads to the state of the next row |
| KeyHandles.ReusedHandleSignsAsAnother | pkg/vault/confidentialspace/confidentialspace.go:287-291 | with a handle given out anew after a restart, key A signs as key B |
| KeyHandles.UnseenImportSignsAsAnother | pkg/vault/confidentialspace/confidentialspace.go:287-290 | the same with the answer to the re-import lost |
| KeyHandles.ReimportSignsAsAnother | pkg/vault/confidentialspace/confidentialspace.go:281-293 | in any state, a key whose handle a re-import gives to another, seen or unseen, signs as that key |
| KeyHandles.ReissueSignsAsAnother | pkg/vault/confidentialspace/confidentialspace.go:165-170 | the same for imports of new keys |
| KeyHandles.Vault.Import | pkg/vault/confidentialspace/confidentialspace.go:148-183 | once the vault has the key it can sign at once, even when storing its blob fails; all keys go on signing as themselves if and only if no handle given out, seen or unseen and also by a failed call, is held by a key of another public key, and the blob is its own |
| KeyHandles.Vault.Reimport | pkg/vault/confidentialspace/confidentialspace.go:281-293 | only the handle of that key changes, and only on success; the signer may have taken the key under unseen handles either way |
| KeyHandles.Vault.Sign | pkg/vault/confidentialspace/confidentialspace.go:303-345 | keys, signer and answer are those of the specification |
| Hid.DecodeEncode | pkg/vault/ledger/ledger/usbhid.go:72-109 | reading a written packet gives it back |
| Hid.DecodeLayout | pkg/vault/ledger/ledger/usbhid.go:90-109 | a read of 5 to 64 bytes is a packet with its header fields, what was read, and zeros; a shorter one is an error |
| Hid.FrameLength | pkg/vault/ledger/ledger/usbhid.go:125-139 | a buffer of n bytes takes ceil(n / 59) packets |
| Hid.WirePacket | pkg/vault/ledger/ledger/usbhid.go:72-139 | the wire byte by byte: header, packet number, and bytes 59k to 59k + 58 of length and data, then zeros |
| Hid.ReadsWhatWasWritten | pkg/vault/ledger/ledger/usbhid.go:111-192 | same channel and command, the data cut to its length modulo 2^16 |
| Hid.RoundTripIff | pkg/vault/ledger/ledger/usbhid.go:111-192 | the data comes back and exactly its packets are consumed if and only if it has at most 65535 bytes |
| Hid.OtherCommandRoundTrip | pkg/vault/ledger/ledger/usbhid.go:116-118 | other commands are one packet without data |
| Hid.ReadIsSound | pkg/vault/ledger/ledger/usbhid.go:143-192 | on every stream: what is read comes from packets of one channel and command numbered from 0, has the length its first bytes say, is their payloads in order, and takes no more packets than needed |
| Hid.Accept | pkg/vault/ledger/ledger/usbhid.go:155-186 | an unfinished command has taken 57 bytes or more per packet, so the packet number never wraps |
| Hid.WritePacket | pkg/vault/ledger/ledger/usbhid.go:72-88 | the 64 bytes of the packet, zero padded, data beyond 59 bytes cut off |
| Hid.WriteCommand | pkg/vault/ledger/ledger/usbhid.go:111-141 | the loop writes the specified packets, or exactly those before the first that the device fails on |
| Hid.ReadCommand | pkg/vault/ledger/ledger/usbhid.go:143-192 | the loop returns what the specification collects |
| LedgerSign.Pack | pkg/vault/ledger/ledger/apdu.go:24-38 | header, length byte when due, data |
| LedgerSign.PackedLayout | pkg/vault/ledger/ledger/apdu.go:24-38 | the bytes of a command |
| LedgerSign.UnpackedPackedIff | pkg/vault/ledger/ledger/apdu.go:28-37 | a command without raw bytes is understood, as itself, if and only if its data fits the length byte |
| LedgerSign.ParseResponseExact | pkg/vault/ledger/ledger/apdu.go:46-54 | parsing is the inverse of appending the status word |
| LedgerSign.ChunksExact | pkg/vault/ledger/tezosapp/tezosapp.go:256-275 | the chunks make up the message, 230 bytes each but the last, addressed 0x80 4 with the derivation type, p1 0x81 on exactly the last and 0x01 before |
| LedgerSign.Sign | pkg/vault/ledger/tezosapp/tezosapp.go:239-313 | the commands sent are the specified ones in order, up to and including the first refused one; a signature if and only if all were accepted and the last answer decodes to one |
| LedgerSign.AcceptedIff | pkg/vault/ledger/tezosapp/tezosapp.go:252-254 | an exchange goes on exactly on status 0x9000 |
| LedgerSign.SignatureOf | pkg/vault/ledger/tezosapp/tezosapp.go:277-312 | ed25519 types give back exactly 64 bytes, the ECDSA types the curve of their own, all others nothing |
| LedgerSign.ParityIgnored | pkg/vault/ledger/tezosapp/tezosapp.go:292-296 | an ECDSA answer decodes alike with and without the parity flag in its first byte |
| LedgerSign.CommandsArrive | pkg/vault/ledger/ledger/usbhid.go:194-203 | every command sequence arrives as sent through both layers |
| LedgerSign.MessageArrives | pkg/vault/ledger/tezosapp/tezosapp.go:239-275 | on the wire, path and message arrive whole for every message, every derivation type and every path of at most 63 components, all commands addressed to Sign with that type, the first p1 0 and the last 0x81 |
| LedgerSign.PathArrivesIff | pkg/vault/ledger/tezosapp/tezosapp.go:242-248 | on the wire a path arrives if and only if it has at most 63 components |
| LedgerSign.LongPathIsRefused | pkg/vault/ledger/tezosapp/tezosapp.go:242-248 | after a longer path the device can make no sense of the commands |
| LedgerSign.OversizedIsRefused | pkg/vault/ledger/ledger/apdu.go:34-36 | nor after any command whose data does not fit the length byte, also when the HID length wraps |
| LedgerSign.Exchange | pkg/vault/ledger/ledger/usbhid.go:194-217 | the packets written, and the result on the packets that wait; an error when the device fails |
| LedgerSign.ResponseReturnsIff | pkg/vault/ledger/ledger/usbhid.go:200-216 | a response comes back as itself if and only if it was sent on the client's channel as an APDU with at most 65533 bytes of data; another channel or command is an error |
| LedgerSign.ExchangeRoundTrip | pkg/vault/ledger/ledger/usbhid.go:194-217 | the device reads the command as sent and the client the device's response |
| Bip32.ToBytes | pkg/vault/ledger/tezosapp/bip32.go:15-27 | count byte and big-endian components |
| Bip32.FromBytes | pkg/vault/ledger/tezosapp/bip32.go:30-45 | the components, nil on empty or short input |
| Bip32.BytesRoundTripIff | pkg/vault/ledger/tezosapp/bip32.go:15-45 | the path comes back if and only if it has at most 255 components |
| Bip32.ToString | pkg/vault/ledger/tezosapp/bip32.go:48-65 | components in decimal, apostrophe when hardened, separated by slashes |
| Bip32.ParseBip32 | pkg/vault/ledger/tezosapp/bip32.go:68-90 | path, nil or panic as the first failing component decides |
| Bip32.PanicsIff | pkg/vault/ledger/tezosapp/bip32.go:77-86 | a text is a path if and only if all its components are numbers below 2^32 with an optional mark, and panics if and only if the first that is not is empty |
| Bip32.ComponentValue | pkg/vault/ledger/tezosapp/bip32.go:77-86 | a number stands for itself, a mark sets its highest bit |
| Bip32.OtherSpellings | pkg/vault/ledger/tezosapp/bip32.go:73-82 | h means an apostrophe, a leading m is dropped once |
| Bip32.TextRoundTripIff | pkg/vault/ledger/tezosapp/bip32.go:48-90 | the text of a path parses to it if and only if the path is not empty |
| Bip32.DerivationRoundTrip | pkg/vault/ledger/tezosapp/tezosapp.go:100-129 | every derivation type's name is read back as it |
| Bip32.DerivationSpellings | pkg/vault/ledger/tezosapp/tezosapp.go:115-129 | the six names, in any mixture of cases, and no others |
| Bip32.ParseKeyId | pkg/vault/ledger/vault.go:270-301 | key id, error or panic as specified |
| Bip32.KeyIdIsBelowRoot | pkg/vault/ledger/vault.go:285-295 | an accepted key id is hardened throughout and strictly below 44'/1729' |
| Bip32.KeyPanicsIff | pkg/vault/ledger/vault.go:270-284 | a key id panics if and only if a known derivation type is followed by a path with such an empty component |
| Bip32.BareKeyPanics | pkg/vault/ledger/vault.go:270-284 | every derivation type followed by a slash alone panics |
| Bip32.KeyIdIsCanonical | pkg/vault/ledger/vault.go:270-305 | the printed form of an accepted key id is accepted as the same key id |
| Bip32.KeyOfText | pkg/vault/ledger/vault.go:270-301 | a derivation type and the text of a path: refused if not hardened throughout or 44'/1729' itself, else the path, below 44'/1729' if it is not there already |
| Policy.SortedAscending | pkg/signatory/signatory.go:693-693 | sorted lists are in order (and permutations of what was listed) |
| Policy.LessEqIff | pkg/signatory/signatory.go:693-693 | the order is the lexicographic one |
| Policy.FixupInPlace | pkg/signatory/signatory.go:680-716 | in place, every name is renamed and the list sorted |
| Policy.RequestAllowedIff | pkg/signatory/signatory.go:680-694 | a request kind is allowed exactly if listed under its present or its deprecated name |
| Policy.OperationAllowedIff | pkg/signatory/signatory.go:696-716 | an operation kind is allowed exactly if listed under its present or its deprecated name |
| Policy.BallotAllowedIff | pkg/signatory/signatory.go:202-206 | a vote is allowed exactly if ballots, or ballots with that vote, are listed |
| Policy.KnownOperationIff | pkg/signatory/signatory.go:730-766 | sub-kinds are known exactly for ballots, with yay, nay or pass |
| Policy.PreparesIff | pkg/signatory/signatory.go:718-766 | a configuration is refused exactly if it lists a kind that is not known under its present name |
| Policy.ConsensusAcceptedIff | pkg/signatory/signatory.go:162-193 | in terms of the configuration: a consensus request is accepted exactly if its kind is listed, its chain is configured or none is, and its client is authorized or none need be |
| Policy.GenericAcceptedIff | pkg/signatory/signatory.go:169-218 | a group of operations exactly if generic is listed, the client is authorized or none need be, and every operation is listed |
| Policy.RenameOperationKeepsSubKind | pkg/signatory/signatory.go:696-714 | renaming touches the part before the colon only |
| Policy.MatchFilter | pkg/signatory/signatory.go:162-218 | accepts exactly if chain, client, kind and every operation are allowed |
| Policy.MatchesBySets | pkg/signatory/signatory.go:153-218 | order and repetition in the lists do not matter |
| Policy.SuggestedRequests | pkg/signatory/signatory.go:813-824 | the suggestion allows the same requests, and generic ones as soon as kinds are listed |
| Policy.SuggestedOperations | pkg/signatory/signatory.go:807-838 | and the same operations |
| Policy.RewriteStillPrepares | pkg/signatory/signatory.go:783-838 | following the advice prepares without error |
| Policy.RewritePreservesIff | pkg/signatory/signatory.go:798-838 | it preserves which requests are accepted if and only if no kinds are listed, generic was allowed, or no client is authorized |
| Policy.RewriteAdds | pkg/signatory/signatory.go:798-838 | exactly which requests are newly accepted: generic ones otherwise allowed, when kinds are listed and generic was not; none is lost; with an empty list of kinds only the empty group is added |
| Policy.RewriteCanWiden | pkg/signatory/signatory.go:822-824 | a configuration on which a transfer is refused before and accepted after |

## Left out

- AES, BLAKE2b, signatures, base58 and the Tezos binary codec: any block permutation, any collision-free digest, and messages given decoded.
- JSON, YAML and CBOR: files and frames are given decoded; a file that cannot be decoded, and the length prefix of RPC frames, are not modelled.
- Loss of file contents on power failure: the code does not flush to disk before the rename, and a crash here is one of the process.
- A crash in the middle of migration: the files are written chain by chain, so the migration lemmas are about one that ran to completion.
- The policy, JWT and hook checks before the watermark in `Sign`: they only remove requests.
- Deletion of Firestore documents: the model never deletes, as the code never does.
- The bytes of RPC frames: once a frame has been cut short, what the server makes of the pieces is not modelled, and a connection is not taken to fall back into step by chance.
- ASN.1 and the screen dialogue of the device: decoding is any function of the bytes.
- KeyHandles.Vault.Sign: key references are positions in the vault's list, so two references to one key share its handle by index, not by pointer.
- CasLoop.CheckAndSet: the shared documents are passed in and out as a value together with what other calls do in between.
- Policy.FixupInPlace: the library sort is an insertion sort on values that is copied back.
- The Nitro RPC client and vault, the Ledger worker goroutine, the cloud and HSM vaults, the HTTP server, metrics and command line.
