# A verified model of the Olm and Megolm library

This Dafny project models the protocol and byte-level core of the library: the
Olm double ratchet and its session start, the Megolm group ratchet and its
sessions, the bitsliced AES with its key schedule and CBC mode, base64, the
message format, account keys, pickles and dehydrated devices.
`dafny verify dfyconfig.toml` checks all of it.

## How the model is built

Each file of the library that changes state is a module with the same shape: a
C structure is a class with its fields, a buffer is an array, a cursor is an
index, a loop is a loop. Every such method is proved equal to a pure function
of the old state, and the theorems are lemmas about those functions.

* `Megolm`, `GroupSession`: the hash ratchet with its one-step and jump forms,
  and both ends of a group session. The keyed hash is a parameter about which
  nothing is assumed.
* `Symbols`, `List`, `Ratchet`: symbolic keys, the bounded list, and one side of
  the double ratchet. Derived keys are free terms, Diffie-Hellman is an
  unordered pair, a tag verifies only for its key and its content.
* `Books`, `Protocol`, `Runs`, `Delivery`: two ratchets and a network that
  loses, repeats, reorders and forges. `Books` tracks only indices; `Protocol`
  shows that a real ratchet is determined by such a book and the history of what
  was agreed, generated and sent; `Runs` proves the safety of all runs and
  `Delivery` says exactly which messages get through.
* `Session`, `Account`: triple Diffie-Hellman, pre-key messages, one-time and
  fallback keys.
* `Sbox`, `Aes`, `Bitslice`, `Field`, `Blocks`, `KeySchedule`, `Cbc`, `Crypto`:
  the gate circuit on eight 64-bit words, FIPS 197 on bytes, the proof that one
  is the other on each of four lanes, the S-box as an inverse in GF(2^8), the
  transposition, the key schedule, CBC in place (SP 800-38A section 6.2) and
  padding (RFC 5652 section 6.3).
* `Base64`, `Message`, `Pickle`, `PickleEncoding`, `Dehydrated`: encoders and
  decoders over shared or overlapping buffers, against specifications on
  sequences of bytes. `Pickled` puts record, cipher and encoding together in
  one buffer.
* `Common`, `Bytes`, `Octets`: error codes, 32-bit words and their big-endian
  form, bytes as numbers and as bit vectors.

## Where code and documentation differ

`docs/megolm.md:79` promises at most 1020 hash computations for one jump. The
code can need up to 1026 part rehashes and the jump from 0 to 2^32 - 1 does
(`Megolm.JumpCost`, `Megolm.JumpCostReached`). `Megolm.DocumentedCostIff` says
from the two counters exactly which jumps keep the documented bound.

The cached group ratchets do not answer every request as the first known ratchet
would. `GroupSession.AnswerAfterRun` says for every run what is answered, from
the indices looked up before; a request is refused exactly when it lies 2^31 or
more past both ratchets. An answer is right if it comes from the first ratchet,
or from a latest one that has not gone once around, and for a hash under which
R(0) does not repeat only then (`GroupSession.PlainIff`). Runs within 2^31 of
the first known index stay on the right side (`GroupSession.RunKeepsCache`);
`GroupSession.WindowNeeded` is a run that does not.

Three round trips hold only in part, and the exact condition is proved for each.
A session pickle cut short is refused unless the cut falls between two skipped
keys (`Pickle.CutSession`). Encoding a decoded base64 text again gives the same
text exactly when its unused bits are zero (`Base64.EncodeDecode`). Pickling a
restored dehydrated device again gives the same bytes exactly when its fallback
flag is 0 or 1 (`Dehydrated.RepicklesAccepted`).

## Model

| member | source | states |
|---|---|---|
| `Megolm.Megolm.Advance` | src/megolm.c:70-89 | one step: the parts from the lowest one that the new counter calls for down to R(3) become hashes of the old part at that level, computed in place from the last part up |
| `Megolm.Megolm.AdvanceTo` | src/megolm.c:91-139 | the in-place jump leaves exactly the four parts and the counter that (target - counter) mod 2^32 single steps leave, wraparound included, and its count of part rehashes is the analysed cost |
| `Megolm.Megolm.AdvanceDigit` | src/megolm.c:95-138 | one iteration of the outer loop, including the test for a wrapped top digit and the masked counter |
| `Megolm.Megolm.HashLevel` | src/megolm.c:116-137 | the inner loop: all but the last rehash touch R(j) alone, the last one rekeys R(j) to R(3) from it |
| `Megolm.Megolm.RehashPart` | src/megolm.c:24-34 | one part is replaced by the keyed hash of another, the other three stay |
| `Megolm.Megolm.Init` | src/megolm.c:38-41 | the four parts and the counter are those given |
| `Megolm.JumpIsSteps` | src/megolm.c:91-139 | for every ratchet, every target and every aligned starting digit the rounds of the jump equal plain stepping, with nothing assumed about the hash |
| `Megolm.StepsAcrossBlocks` | src/megolm.c:97-133 | stepping across s boundaries of digit j is s-1 rehashes of R(j) followed by one rekeying from R(j) |
| `Megolm.StepsInsideBlock` | src/megolm.c:70-89 | between two boundaries of digit j no step touches R(0) to R(j) |
| `Megolm.StepsAdd` | src/megolm.c:91-139 | stepping m times and then n times is stepping m + n times, so two forward jumps equal one |
| `Megolm.LevelIsLeast` | src/megolm.c:71-83 | the level of a step is the first part whose digit boundary the new counter meets, 0 when it wraps to 0 |
| `Megolm.WrapOnlyAtTop` | src/megolm.c:103-111 | a digit is hashed 256 times only if it is the top one |
| `Megolm.JumpCost` | src/megolm.c:95-138 | no jump needs more than 1026 part rehashes, for any pair of counters |
| `Megolm.JumpCostReached` | src/megolm.c:95-138 | the jump from 0 to 2^32 - 1 needs exactly 1026 |
| `Megolm.DocumentedCostIff` | docs/megolm.md:77-80 | the documented bound of 1020 is kept exactly by the jumps whose steps of R(0) and three lower target digits sum to at most 1014 |
| `Megolm.CostOfDigits` | src/megolm.c:95-138 | the exact number of rehashes of a jump that moves R(0), from its steps and the digits of the target |
| `Megolm.TopHashes` | src/megolm.c:70-89 | stepping hashes R(0) once for every multiple of 2^24 that the counter meets, and at no other step |
| `GroupSession.AnswerIsPlain` | src/inbound_group_session.c:318-338 | within 2^31 of the first known index the cached lookup never refuses and gives the first known ratchet stepped to the index, and keeps the cache sound |
| `GroupSession.RunKeepsCache` | src/inbound_group_session.c:318-423 | every run of decrypts and exports in that window keeps this, also through messages that fail their MAC after the latest ratchet moved |
| `GroupSession.RunTravels` | src/inbound_group_session.c:318-423 | after any run from a new session the latest ratchet is the first known one stepped as far as the looked-up indices say: each one less than 2^31 ahead moves it there, any other leaves it |
| `GroupSession.AnswerByTravel` | src/inbound_group_session.c:318-338 | what one lookup answers and leaves, from that distance alone, also when the latest ratchet went past the end of the counter |
| `GroupSession.PlainIff` | src/inbound_group_session.c:318-338 | exactly when a lookup is refused, and exactly when its answer is the first known ratchet stepped to the index: it comes from the first ratchet, or from a latest one not yet once around; the converse for every hash under which R(0) does not repeat within the steps taken |
| `GroupSession.AnswerAfterRun` | src/inbound_group_session.c:318-423 | the same for every hash, every run and every index, with no window assumed: the answer is decided by the indices looked up before |
| `GroupSession.WindowNeeded` | src/inbound_group_session.c:318-338 | one such run, for every hash: after two exports almost 2^31 apart index 0 is answered by the ratchet stepped 2^32 times, with R(0) hashed 256 times |
| `GroupSession.GroupEndToEnd` | src/outbound_group_session.c:200-250 | after the session key is shared, the message sent k < 2^31 steps later decrypts to its plaintext after any run of other requests in the window |
| `GroupSession.SharedKeyRestoresRatchet` | src/inbound_group_session.c:82-123 | reading a shared or exported key gives both cached ratchets the sender's parts and counter |
| `GroupSession.ImportAgrees` | src/inbound_group_session.c:484-523 | an importer of an export made at index i answers every later index in the window as the exporter does |
| `GroupSession.ExportIsPlain` | src/inbound_group_session.c:484-523 | an export in the window carries the first known ratchet stepped to its index |
| `GroupSession.LengthIsExact` | src/outbound_group_session.c:174-198 | the predicted text length is that of the bytes which the encoder writes for the message that is then made: where its header ends, the MAC and the signature |
| `GroupSession.EncodeCounter` | src/outbound_group_session.c:339-343 | the shifting loop writes the counter most significant byte first |
| `GroupSession.DecodeCounter` | src/inbound_group_session.c:98-102 | the shifting loop reads it back |
| `GroupSession.OutboundGroupSession.Init` | src/outbound_group_session.c:152-172 | a fresh ratchet at index 0, or a refusal for too few random bytes that changes nothing |
| `GroupSession.OutboundGroupSession.GroupEncrypt` | src/outbound_group_session.c:252-283 | the message is sealed under the ratchet before it steps once, or the session is unchanged when the buffer is too small |
| `GroupSession.OutboundGroupSession.GetSessionKey` | src/outbound_group_session.c:322-361 | the signed key carries the current counter and ratchet |
| `GroupSession.InboundGroupSession.InitGroupSessionKeys` | src/inbound_group_session.c:82-123 | accepted exactly for the right version and, for the shared form, a valid signature; what a failing call leaves behind is stated too |
| `GroupSession.InboundGroupSession.InitFromText` | src/inbound_group_session.c:125-171 | only a text of exactly one raw key is read; for every text the error code and every field it leaves |
| `GroupSession.InboundGroupSession.RatchetAt` | src/inbound_group_session.c:318-338 | the two-cache lookup on real ratchet objects, copies in their own storage |
| `GroupSession.InboundGroupSession.DecryptMessage` | src/inbound_group_session.c:343-423 | checks in the order of the code, each with its error, and the moved cache as new state |
| `GroupSession.InboundGroupSession.GroupDecrypt` | src/inbound_group_session.c:425-444 | a text of impossible length is refused before anything else happens; the message index is reported as soon as version and fields pass, whatever the later checks say |
| `GroupSession.InboundGroupSession.ExportSession` | src/inbound_group_session.c:484-523 | the key at the index, or an error, and the moved cache |
| `Ratchet.DeriveChain` | src/ratchet.c:25-52 | both outputs written into the caller's storage, from the root key as it was before, also when the new root key goes over the old one |
| `Ratchet.OlmRatchet.InitialiseAsAlice` | src/ratchet.c:202-226 | root key and first sender chain from the agreed secret, in front of whatever the object holds |
| `Ratchet.OlmRatchet.InitialiseAsBob` | src/ratchet.c:176-200 | root key and first receiver chain from the agreed secret, in front of whatever the object holds |
| `Ratchet.OlmRatchet.OpenSenderChain` | src/ratchet.c:606-620 | a slot taken, a fresh key stored in it, then the chain derived into the slot with the root key as input and output |
| `Ratchet.OlmRatchet.EncryptMessage` | src/ratchet.c:580-656 | opens a sender chain when there is none, seals under the current chain key and advances it; refused for a buffer shorter than the message format needs; on error nothing changes |
| `Ratchet.OlmRatchet.VerifyForExistingChain` | src/ratchet.c:93-122 | the trial on a copy of a chain advanced to the counter, refused behind the chain or more than 2000 ahead |
| `Ratchet.OlmRatchet.VerifyForNewChain` | src/ratchet.c:124-161 | the trial on a chain derived into storage of its own, only with a sender chain and a counter of at most 2000; the ratchet is not touched |
| `Ratchet.OlmRatchet.SearchSkipped` | src/ratchet.c:737-757 | the first skipped key of this chain and index that verifies |
| `Ratchet.OlmRatchet.CommitNewChain` | src/ratchet.c:782-802 | the slot is taken while it still holds another chain, gets the peer's key, then the chain derived from the root key that the derivation overwrites, and the sender chain goes: in place this is the pure adoption of the chain |
| `Ratchet.OlmRatchet.StoreKey` | src/ratchet.c:805-807 | the message key and the ratchet key of the chain, filled into a slot in front of the skipped keys |
| `Ratchet.OlmRatchet.AdvancePast` | src/ratchet.c:804-811 | every key up to the counter goes in front of the skipped list while the chain advances past it in place |
| `Ratchet.OlmRatchet.DecryptKnown` | src/ratchet.c:720-813 | the search, the trials, the erased stored key and the commit on the list objects, in the order of the code |
| `Ratchet.OlmRatchet.DecryptMessage` | src/ratchet.c:679-813 | all branches and error codes; on an unknown ratchet key the chain left in front is the one whose trial opened the message, moved past it |
| `Ratchet.FailureChangesNothing` | src/ratchet.c:679-813 | a failing decrypt leaves root key, chains and skipped keys as they were |
| `Ratchet.CommitsVerifiedChain` | src/ratchet.c:124-161 | whenever a message on an unknown ratchet key is accepted, the chain that the first derivation tried and the chain that the second one committed are the same, and the root key is the one derived beside it |
| `List.List.InsertSlot` | include/libce/list.h:44-74 | the slot to fill and where every other element went, for a list with room and for a full one |
| `List.List.InsertFrontSlot` | include/libce/list.h:44-74 | the slot in front and the elements behind it |
| `List.List.Put` | src/ratchet.c:786-799 | storing through a pointer into the list changes that element only |
| `List.List.Insert` | include/libce/list.h:44-74 | insertion into a counted list; a full list drops its last element |
| `List.List.InsertFront` | include/libce/list.h:44-74 | in front; a full list drops its last element |
| `List.List.Erase` | include/libce/list.h:76-99 | removal closes the gap; an index outside changes nothing |
| `Protocol.DecryptFollowsBook` | src/ratchet.c:679-813 | decrypting any message that was really sent does exactly what a key-free book of indices says: which are accepted, what the new state is, which plaintext comes out |
| `Protocol.DecryptForeignEpoch` | src/ratchet.c:124-161 | messages of evicted chains and a party's own messages fall to the new-chain trial and fail there |
| `Books.TakeKeeps` | src/ratchet.c:777-812 | accepting a message keeps live chains complete up to five, stored indices unique, read and below the index of their chain |
| `Books.OpenKeeps` | src/ratchet.c:606-627 | opening a sender chain keeps the order and uniqueness of live chains and stored indices |
| `Runs.StepKeeps` | src/ratchet.c:580-813 | every send, delivery and forged delivery keeps the invariant that both ratchets are determined by what was agreed, generated and sent |
| `Runs.RunKeeps` | src/ratchet.c:580-813 | so does every run with loss, repetition, reordering and forgery |
| `Runs.RootKeysAgree` | src/ratchet.c:25-52 | in every reachable world the root keys are equal, or exactly one party is one derivation ahead, with a sender chain the other has not seen |
| `Runs.ReceiverFollowsSender` | src/ratchet.c:54-64 | every receiver chain for the peer's sender chain, advanced to the peer's index, is the peer's chain key |
| `Runs.ReceiverChainsInHistory` | src/ratchet.c:54-64 | every live receiver chain, also one the peer has stopped sending on, holds the first key of one epoch of the peer advanced as often as its index says, and no further than the peer sent |
| `Runs.DeliveredAsSent` | src/ratchet.c:679-813 | an honest message is refused without any change, or gives the plaintext that was sent and was not accepted before |
| `Runs.AtMostOnce` | src/ratchet.c:720-813 | a message once accepted is refused ever after, however the run goes on |
| `Runs.ForgedIsRefused` | src/ratchet.c:78-91 | whatever its header claims, a message not made with the agreed secret is refused and changes nothing |
| `Delivery.OutOfOrder` | src/ratchet.c:720-813 | a passed-over message still opens while fewer than 40 keys are stored in front of its key and fewer than 5 receiver chains stand in front of its chain |
| `Delivery.AcceptingStores` | src/ratchet.c:804-811 | accepting a message stores the key of each passed-over one, equal to the message key of its chain at its index |
| `Delivery.AcceptedIff` | src/ratchet.c:679-813 | exactly which messages of a reachable world are accepted, stated without any cryptography |
| `Delivery.GapBound` | src/ratchet.c:93-161 | no accepted message makes a ratchet store more than 2000 keys |
| `Delivery.PassedAreStored` | src/ratchet.c:804-811 | the stored keys by position, latest in front |
| `Session.InboundFromAnyMessage` | src/session.c:69-186 | as long as the outbound session has accepted nothing, every message it sends, after any use of it, lets the account create the same counterpart: same secret, identifier, root key and first chain; and the counterpart matches that message |
| `Session.FirstContact` | src/session.c:69-396 | the created session then reads that very message exactly when at most 2000 messages went before and the buffer has room |
| `Session.SecretsAgree` | src/session.c:96-106 | both sides compute the same three shared secrets in the same order |
| `Session.SessionsStartRuns` | src/ratchet.c:176-226 | the ratchets of the two sessions are the two sides with which every run of the ratchet model starts |
| `Session.UnansweredRun` | src/session.c:278-396 | until a message is accepted, uses of a session only move its first chain on |
| `Session.MatchesSameId` | src/session.c:192-240 | a session matches a pre-key message exactly when a session made from that message has the same identifier |
| `Session.RemovedKeyStartsNothing` | src/account.c:513-542 | after its one-time key is removed a pre-key message starts no second session, exactly unless it names a fallback key |
| `Session.LengthIsExact` | src/session.c:252-270 | the predicted length is that of the bytes which the encoders write for the envelope that is then made, also when its chain is opened only afterwards |
| `Session.BlankIsNew` | src/session.c:69-186 | on an initialised object both operations give the session that depends on the keys and the message alone |
| `Session.OlmSession.NewOutboundSession` | src/session.c:69-113 | the new state of any object, also a used one, or a refusal for too few random bytes |
| `Session.OlmSession.StartRatchet` | src/session.c:143-185 | from the loaded keys on: the ratchet key of the inner message, the one-time key in a real account object, the secret |
| `Session.OlmSession.NewInboundSession` | src/session.c:115-186 | each refusal with its code and what it leaves behind, or the new state, on any object |
| `Session.OlmSession.MatchesInboundSession` | src/session.c:209-240 | the comparison of the three keys, absent identity keys allowed as the code does |
| `Session.OlmSession.EncryptMessage` | src/session.c:278-326 | pre-key or plain message, buffer check before the random check, the ratchet's error handed on and cleared |
| `Session.OlmSession.DecryptMessage` | src/session.c:360-396 | the ratchet's answer, and the received flag set by the first success |
| `Sbox.SubstituteIsLocal` | lib/aes-ct64/aes_ct64.c:27-202 | in the word circuit each of the 64 bytes depends on its own byte only |
| `Sbox.SubstituteUndone` | lib/aes-ct64/aes_ct64_dec.c:27-72 | the two circuits undo each other on every byte |
| `Field.SubByteIsAffineInverse` | lib/aes-ct64/aes_ct64.c:27-202 | the circuit computes the S-box of FIPS 197 section 5.1.1 for all 256 bytes: the affine image of the one inverse in GF(2^8), or of 0 |
| `Field.InverseIsInverse` | lib/aes-ct64/aes_ct64.c:27-202 | what is under the affine step, multiplied by the byte in GF(2^8), is 1 for every nonzero byte |
| `Field.InverseIsUnique` | lib/aes-ct64/aes_ct64.c:27-202 | no other byte multiplied by it gives 1 |
| `Aes.SubstituteAt` | lib/aes-ct64/aes_ct64.c:27-202 | the word circuit is the byte S-box at each position |
| `Aes.CipherUndone` | lib/aes-ct64/aes_ct64_dec.c:142-159 | for any number of rounds and any round keys the inverse cipher of FIPS 197 section 5.3 undoes the cipher of section 5.1 |
| `Aes.UnroundsFollow` | lib/aes-ct64/aes_ct64_dec.c:148-156 | the inverse cipher passes through the states of the cipher in reverse |
| `Aes.InverseRow` | lib/aes-ct64/aes_ct64_dec.c:109-140 | the inverse column step is the column step three times |
| `Bitslice.LaneEncrypt` | lib/aes-ct64/aes_ct64_enc.c:98-115 | bitsliced encryption is the FIPS 197 cipher on each of the four lanes |
| `Bitslice.LaneDecrypt` | lib/aes-ct64/aes_ct64_dec.c:142-159 | bitsliced decryption is the FIPS 197 inverse cipher on each of the four lanes |
| `Bitslice.LanesAreIndependent` | lib/aes-ct64/aes_ct64_enc.c:98-115 | a block comes out as its own input says, whatever the other three lanes hold |
| `Bitslice.EncryptUndone` | lib/aes-ct64/aes_ct64_dec.c:142-159 | for any rounds, any expanded key and any eight words, decrypting undoes encrypting |
| `Bitslice.BitsliceEncrypt` | lib/aes-ct64/aes_ct64_enc.c:98-115 | the loop over q in place |
| `Bitslice.BitsliceDecrypt` | lib/aes-ct64/aes_ct64_dec.c:142-159 | the loop over q in place, rounds downwards |
| `Bitslice.BitsliceSbox` | lib/aes-ct64/aes_ct64.c:27-202 | q is substituted in place |
| `Bitslice.BitsliceInvSbox` | lib/aes-ct64/aes_ct64_dec.c:27-72 | affine step, circuit, affine step, in place |
| `Bitslice.ShiftRowsInPlace` | lib/aes-ct64/aes_ct64_enc.c:40-57 | masks and shifts applied to the eight words |
| `Bitslice.InvShiftRowsInPlace` | lib/aes-ct64/aes_ct64_dec.c:84-101 | masks and shifts applied to the eight words |
| `Bitslice.MixColumnsInPlace` | lib/aes-ct64/aes_ct64_enc.c:65-96 | the column step on the eight words |
| `Bitslice.InvMixColumnsInPlace` | lib/aes-ct64/aes_ct64_dec.c:109-140 | the inverse column step on the eight words |
| `Bitslice.AddRoundKeyInPlace` | lib/aes-ct64/aes_ct64_enc.c:27-38 | the round key added to the eight words |
| `Blocks.OrthoTwice` | lib/aes-ct64/aes_ct64.c:204-234 | the transposition undoes itself |
| `Blocks.PickOrtho` | lib/aes-ct64/aes_ct64.c:204-234 | bit for bit it exchanges word number and position inside the byte |
| `Blocks.LoadedLanes` | lib/aes-ct64/aes_ct64.c:236-264 | four interleaved and transposed blocks are the four lanes |
| `Blocks.UnloadedLane` | lib/aes-ct64/aes_ct64.c:266-288 | a lane is read back as its block |
| `KeySchedule.SubThrough` | lib/aes-ct64/aes_ct64.c:294-305 | a word alone in q, transposed, substituted and transposed back, has its four bytes substituted |
| `KeySchedule.ExpandedRoundKey` | lib/aes-ct64/aes_ct64.c:374-398 | expanding a compressed round key gives back all eight words |
| `KeySchedule.Keysched` | lib/aes-ct64/aes_ct64.c:307-372 | for 16, 24 and 32 byte keys the compressed schedule holds the key expansion of FIPS 197 section 5.2; other lengths are refused |
| `KeySchedule.SkeyExpand` | lib/aes-ct64/aes_ct64.c:374-398 | every compressed round key is expanded to its eight words |
| `KeySchedule.ScheduleIsCipherKeys` | lib/aes-ct64/aes_ct64.c:307-398 | after both, every lane uses the FIPS 197 round keys |
| `Cbc.CbcUndone` | lib/aes-ct64/aes_ct64_cbcdec.c:35-92 | serial decryption in chaining mode (SP 800-38A section 6.2) undoes encryption, for any number of blocks |
| `Cbc.CbcKeys.EncryptRun` | lib/aes-ct64/aes_ct64_cbcenc.c:35-69 | the buffer is encrypted in place as serial chaining says, the other lanes holding anything, and the initialisation vector moves on |
| `Cbc.CbcKeys.EncryptLoop` | lib/aes-ct64/aes_ct64_cbcenc.c:46-67 | the loop with the carried ciphertext block |
| `Cbc.CbcKeys.DecryptRun` | lib/aes-ct64/aes_ct64_cbcdec.c:35-92 | four blocks at a time with a short tail, in place, equals serial decryption |
| `Cbc.CbcKeys.DecryptLoop` | lib/aes-ct64/aes_ct64_cbcdec.c:47-91 | the loop with the carried last ciphertext block |
| `Cbc.CbcKeys.DecryptBatch` | lib/aes-ct64/aes_ct64_cbcdec.c:48-90 | one pass: full batch or tail, reading all ciphertext before overwriting it |
| `Cbc.CbcKeys.DecryptWords` | lib/aes-ct64/aes_ct64_cbcdec.c:57-83 | four inverse ciphers at once, each added to the ciphertext block before its own |
| `Cbc.EncryptQuad` | lib/aes-ct64/aes_ct64_cbcenc.c:52-66 | one block in lane 0 with arbitrary other lanes is the FIPS 197 cipher |
| `Cbc.DecryptQuads` | lib/aes-ct64/aes_ct64_cbcdec.c:60-73 | four blocks at once are four FIPS 197 inverse ciphers |
| `Crypto.DecryptedEncrypted` | src/crypto.c:156-199 | decrypting restores every plaintext and its length, for every key and vector |
| `Crypto.AesEncryptCbc` | src/crypto.c:156-176 | padded (RFC 5652 section 6.3) and encrypted at the output, which may overlap the input |
| `Crypto.AesDecryptCbc` | src/crypto.c:179-199 | plaintext and length, or a refusal for no or broken blocks and for more padding than text |
| `Base64.DecodeEncode` | src/base64.c:89-140 | decoding undoes encoding for every byte string |
| `Base64.EncodeDecode` | src/base64.c:37-77 | a text over the alphabet is the encoding of what it decodes to exactly when the unused bits of its last group are zero |
| `Base64.LengthsAgree` | src/base64.c:31-87 | the length functions are inverse on encoded lengths |
| `Base64.EncodeBase64` | src/base64.c:37-77 | encoding with the data at the tail of the output region, nothing else touched |
| `Base64.DecodeBase64` | src/base64.c:89-140 | decoding onto the input region, or a refusal that changes nothing |
| `Message.SlicesInside` | src/message.c:133-187 | on every byte string the decoder ends and every slice lies inside the input before its trailer |
| `Message.LoopFolds` | src/message.c:221-263 | the decoding loop, one attempt at each field per pass, reads well-formed items one by one |
| `Message.DecodesItems` | src/message.c:221-423 | each known field gets the content of its last occurrence, whatever the order and whatever well-formed unknown fields stand in between |
| `Message.OrderDoesNotMatter` | src/message.c:221-423 | with each known field once, the result is the same for every order of the fields and any unknown fields between them |
| `Message.DecodesEncoded` | src/message.c:205-263 | decoding undoes encoding: version, numbers and slices exactly where the encoder put them, for any contents and trailer |
| `Message.FormatsAreGood` | src/message.c:189-383 | the three message formats have distinct one-byte tags of a fitting wire type |
| `Message.VarintUndone` | src/message.c:29-82 | decoding a varint undoes encoding it for every value that fits |
| `Message.VarintMoved` | src/message.c:54-82 | a varint reads the same wherever it stands |
| `Message.EncodeMessage` | src/message.c:205-218 | tags, lengths and counter written at their places, the two pointers handed out, nothing else touched |
| `Message.EncodeOneTimeKeyMessage` | src/message.c:287-302 | tags and lengths of the four fields of a pre-key message at their places, the four pointers, nothing else touched |
| `Message.EncodeGroupMessage` | src/message.c:370-383 | tags, index and length of a group message at their places, the pointer and the length, nothing else touched |
| `Message.LengthsAreEnds` | src/message.c:190-367 | each predicted length is where the header ends that the encoder writes, for every length, plus the MAC and the signature |
| `Message.NestedDecodes` | src/session.c:278-326 | decoding a pre-key message and then the message inside gives back what both encoders wrote, once keys, ciphertext and MAC have been filled in |
| `Message.EncodeNested` | src/session.c:278-326 | both headers written in one buffer, the inner one where the outer body goes; decoding outer and inner then gives all seven fields |
| `Message.VarintLength` | src/message.c:6-26 | the number of bytes that encoding then takes |
| `Message.VarintEncode` | src/message.c:29-51 | the bytes of a varint, low groups first |
| `Message.VarintDecode` | src/message.c:54-82 | read back from the last byte, in an integer of limited width |
| `Message.VarintSkip` | src/message.c:85-96 | past the first byte below 128, or to the end |
| `Message.ReadBytes` | src/message.c:133-149 | a byte field, set only when its length fits in what is left |
| `Message.ReadUint32` | src/message.c:151-164 | a numeric field |
| `Message.SkipField` | src/message.c:167-187 | an unknown field of wire type 0 or 2, or else the rest |
| `Message.MessageReader.DecodeMessage` | src/message.c:221-263 | the fields of the reader after the cursor loop |
| `Message.PreKeyMessageReader.DecodeOneTimeKeyMessage` | src/message.c:305-348 | the fields of the reader after the cursor loop |
| `Message.GroupMessageResults.DecodeGroupMessage` | src/message.c:385-423 | the fields of the results after the cursor loop |
| `Pickle.ReadsSession` | src/session.c:486-527 | reading a written session restores every field and stops at its end, whatever follows |
| `Pickle.ReadsAccount` | src/account.c:580-638 | reading a written account restores every field and stops at its end, whatever follows |
| `Pickle.SessionBytesLength` | src/session.c:460-484 | a session pickle has exactly the predicted length |
| `Pickle.AccountBytesLength` | src/account.c:544-578 | an account pickle has exactly the predicted length |
| `Pickle.CutSession` | src/ratchet.c:480-499 | a session pickle cut short anywhere is refused exactly unless the cut falls between two skipped keys; then it reads as the session without the keys behind the cut |
| `Pickle.CutAccount` | src/account.c:580-638 | an account pickle cut short anywhere is refused |
| `Pickle.CutList` | src/ratchet.c:492-498 | a list whose bytes end early reads as a shorter list between elements and is refused inside one |
| `Pickle.ReadsList` | src/ratchet.c:310-329 | a list that fits comes back whole |
| `Pickle.PickleList` | src/account.c:100-111 | size and elements written at the cursor, nothing else |
| `Pickle.PickleRatchet` | src/ratchet.c:512-521 | written at the cursor, nothing else |
| `Pickle.PickleSession` | src/session.c:473-484 | written at the cursor, nothing else |
| `Pickle.PickleAccount` | src/account.c:562-578 | written at the cursor, nothing else |
| `Pickle.PickleUint32` | src/pickle.c:30-39 | four bytes, most significant first |
| `Pickle.UnpickleList` | src/account.c:113-131 | ends on any bytes whatever the size field says, and never exceeds the capacity |
| `Pickle.UnpickleRatchet` | src/ratchet.c:523-548 | on any bytes, with the extra index of the logging version |
| `Pickle.UnpickleSession` | src/session.c:486-527 | on any bytes, both versions, with the error codes |
| `Pickle.UnpickleFallback` | src/account.c:602-632 | the fallback keys as versions 2, 3 and 4 stored them |
| `Pickle.UnpickleAccount` | src/account.c:580-638 | on any bytes, all versions, with the error codes |
| `PickleEncoding.ReadEncoded` | src/pickle_encoding.c:30-78 | the reader undoes the writer for every key and every raw pickle |
| `PickleEncoding.EncOutput` | src/pickle_encoding.c:30-50 | raw pickle at its place in the buffer, afterwards the text from the front, in one buffer |
| `PickleEncoding.EncInput` | src/pickle_encoding.c:53-78 | the text decoded and decrypted onto the front of the same buffer, or an error code |
| `PickleEncoding.CipherEncrypt` | src/cipher.c:52-84 | ciphertext over the plaintext and the shortened MAC behind it |
| `PickleEncoding.CipherDecrypt` | src/cipher.c:94-130 | MAC compared before anything is decrypted |
| `Octets.SameByte` | src/olm.c:176-273 | a byte as a number and as a bit vector is the same byte |
| `Pickled.WireUndone` | src/olm.c:176-273 | turning a record's bytes into bit vectors and back changes nothing |
| `Pickled.SessionRestored` | src/olm.c:191-273 | a session pickled under any key is the session that unpickling gives |
| `Pickled.AccountRestored` | src/olm.c:176-238 | an account pickled under any key is the account that unpickling gives |
| `Pickled.StorePickle` | src/olm.c:176-204 | the raw record written where the encoder expects it and encoded over itself; too short a buffer is refused untouched, and nothing behind the text is touched |
| `Pickled.PickleSession` | src/olm.c:191-204 | the text of the session in one buffer, or a refusal |
| `Pickled.UnpickleSession` | src/olm.c:241-273 | decoded, decrypted and read in one buffer; extra bytes behind the record are refused |
| `Pickled.PickleAccount` | src/olm.c:176-189 | the text of the account in one buffer, or a refusal |
| `Pickled.UnpickleAccount` | src/olm.c:206-238 | decoded, decrypted and read in one buffer; extra bytes behind the record are refused |
| `Account.RunNumbered` | src/account.c:314-542 | every run of account operations that uses fewer than 2^32 ids keeps at most 100 one-time keys in strictly falling id order, with fallback ids distinct from all of them |
| `Account.FreshRuns` | src/account.c:133-143 | in particular from a new account |
| `Account.Lookup` | src/account.c:482-511 | a key with this public half is found if there is one among one-time keys and the fallback keys in use, and only then |
| `Account.OlmAccount.GenerateOneTimeKeys` | src/account.c:340-357 | each key gets the next id, which wraps at 2^32, and goes in front; a full list drops its oldest |
| `Account.OlmAccount.GenerateFallbackKey` | src/account.c:363-379 | the current fallback key becomes the previous one and the new one gets the next id, which wraps at 2^32 |
| `Account.OlmAccount.ForgetOldFallbackKey` | src/account.c:473-480 | only the current fallback key stays |
| `Account.OlmAccount.MarkKeysAsPublished` | src/account.c:314-328 | all one-time keys and the current fallback key are marked; the count is of one-time keys that were not |
| `Account.OlmAccount.LookupKey` | src/account.c:482-511 | one-time keys first, then the fallback slots in use |
| `Account.OlmAccount.RemoveKey` | src/account.c:513-542 | a one-time key is removed and reported; a fallback key is reported and stays |
| `Dehydrated.UnpicklesPickled` | src/dehydrated_device.c:38-119 | restoring a dehydrated account keeps all current private keys in order, under ids 1 to n |
| `Dehydrated.RestoredNumbered` | src/dehydrated_device.c:95-112 | the restored ids satisfy the invariant of account runs |
| `Dehydrated.RepicklesAccepted` | src/dehydrated_device.c:38-119 | pickling an accepted plaintext again reproduces it byte for byte exactly when its fallback flag is 0 or 1 |
| `Dehydrated.DeviceBytesLength` | src/dehydrated_device.c:11-22 | the pickle has exactly the predicted length |
| `Dehydrated.DeviceAccount.Pickle` | src/dehydrated_device.c:38-56 | written at the cursor, one-time keys from the end of the list, nothing else touched |
| `Dehydrated.DeviceAccount.UnpickleDevice` | src/dehydrated_device.c:58-119 | on any bytes, with the error codes, the key list rebuilt in place |

## Left out

- Runs.RunKeeps: assumes what the protocol itself needs, namely that random ratchet keys are never repeated and that no chain index reaches 2^32 - 1, where the increment wraps (`src/ratchet.c:63`).
- Session.OlmSession.NewInboundSession: requires the identity key in the message when the caller supplies one, because the code loads it from the message in any case (`src/session.c:139`).
- Session.InboundFromAnyMessage: pre-key messages are decoded fields here; that decoding gives back what the encoders wrote, the nested message included, is `Message.NestedDecodes`.
- GroupSession.InboundGroupSession.GroupDecrypt: the text is represented by its length and its decoded fields; the byte forms are in `Base64` and `Message`.
- Message.EncodeMessage: lengths are below 2^64; a sum of lengths that overflows `size_t` is not modelled.
- Pickle.ReadsSession: the pickled record holds key bytes, the session of `Session` symbolic keys; the two are not tied together.
- Pickled.UnpickleSession: the error is the result; a used object that already holds an error keeps the older code when the record is corrupted (`src/olm.c:262-264`).
- Account.RunNumbered: distinct ids are promised only below 2^32 of them, as the counter wraps; the methods themselves are specified with the wrap.
- The lists of `OlmAccount` are sequences; those of `OlmRatchet` are the array lists of `List`.
- Libsodium: HMAC-SHA-256, HKDF, SHA-256, Curve25519, Ed25519 and ChaCha20-Poly1305 are parameters or free terms, so nothing is said about their strength or their own code.
- Olm and Megolm decryption is symbolic: what AES-CBC yields under a key that fails the MAC never appears, as the code compares the MAC first.
- Pickles of Megolm ratchets and of group sessions: fixed-width records like those of `Pickle`.
- The sealed envelope around a dehydrated device and its key and nonce length checks (`src/dehydrated_device.c:121-219`): straight-line calls into libsodium.
- JSON output of identity, one-time and fallback keys, signing, and account creation (`src/account.c:145-312`, `src/account.c:381-471`).
- Maximum plaintext length queries, which repeat the first checks of the decrypt functions.
- `src/pk.c`, `src/sas.c`, `src/utility.c`, the wrappers in `src/olm.c` other than those that pickle, everything under `android/`, and `_olm_session_describe`.
- Clearing of secrets and constant-time comparison: no functional meaning beyond assignment and equality.
