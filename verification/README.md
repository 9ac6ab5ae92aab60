# RGB++ lock: a verified model of the spend validator

The RGB++ lock guards a CKB cell with a Bitcoin UTXO. A cell under this lock
may only be spent by a CKB transaction whose unlock witness carries a Bitcoin
transaction that

- spends the out-point `(btc_txid, out_index)` recorded in the lock's arguments
  (the *seal*);
- is attested by the Bitcoin light client;
- commits, through a double SHA-256 digest, to a declared prefix of the CKB
  transaction's inputs and outputs.

In addition, every typed output of the CKB transaction must stay in custody:
either re-sealed under the RGB++ lock, or placed behind a valid BTC time-lock.

This project models that decision procedure in Dafny as pure functions over
immutable data:

- `base.dfy` (module `Base`): result and option wrappers, the fixed-width
  integer types, byte strings, little-endian encoding and decoding, and
  `take`/`skip`/`zip`.
- `types.dfy` (module `Types`): the error kinds and the CKB transaction as the
  host shows it. It also holds the lock, time-lock and unlock structures, the
  parsed Bitcoin transaction, and `Host`, a record of uninterpreted functions
  for every collaborator whose code is not part of this model.
- `canon.dfy` (module `Canon`): script code identity, and the normalisation
  that zeroes `btc_txid` in RGB++ and time-lock arguments before hashing.
- `seal.dfy` (module `Seal`): the seal match.
- `commitment.dfy` (module `Commitment`): the header guards, the
  exclusivity of the committed prefix, the preimage byte stream, and the
  digest comparison.
- `unlock.dfy` (module `Unlock`): locating the unlock witness, including the
  4-byte redirect.
- `outputs.dfy` (module `Outputs`): the closed-world output check, both as a
  recursive definition and as the loop the source runs.
- `entry.dfy` (module `Entry`): `verify_unlock`, the order of the steps in
  `main`, and the exit status.

Hashes, molecule serialisation, the Bitcoin parser, the light client and the
rgbpp_core predicates are fields of `Host`. Every property is therefore stated
about preimage bytes and about which error is returned, never about real hash
values.

Four behaviours of the code that are easy to misread:

- A redirected witness that has no lock field gives `ItemMissing`
  (main.rs:120), not an unlock-parse error.
- In `verify_outputs`, lock arguments that do not decode give `BadRGBPPLock` or
  `BadBTCTimeLock` (main.rs:91, 101). They do not give
  `OutputCellWithUnknownLock`.
- The time-lock branch of `verify_outputs` is exactly
  `check_btc_time_lock(args, btc_tx, MIN_BTC_TIME_LOCK_AFTER)`. What that
  check examines is left to the collaborator.
- In the commitment, a lock is tested as a BTC time-lock before it is tested
  for the RGB++ code (main.rs:225, 234). In `verify_outputs` the order is
  reversed (main.rs:88, 98).

## Model

| member | source | states |
|---|---|---|
| `Base.U32FromLe` | contracts/rgbpp-lock/src/main.rs:136-140 | the `u32` read from a 4-byte field is the one whose little-endian encoding is that field |
| `Base.FromLeOfLe` | contracts/rgbpp-lock/src/main.rs:213 | a value that fits in `k` bytes decodes back from its `k` little-endian bytes |
| `Base.LeOfFromLe` | contracts/rgbpp-lock/src/main.rs:136-140 | re-encoding the value of any byte string in as many bytes gives the string back |
| `Base.FromLeBound` | contracts/rgbpp-lock/src/main.rs:136-140 | `k` bytes decode to a value below 256^k, so four bytes always give a valid `u32` |
| `Base.Le16RoundTrip` | contracts/rgbpp-lock/src/main.rs:213 | the two version bytes in the preimage decode back to the version |
| `Base.Le32RoundTrip` | contracts/rgbpp-lock/src/main.rs:247-248 | the four data-length bytes in the preimage decode back to the truncated length |
| `Base.TruncU32` | contracts/rgbpp-lock/src/main.rs:247 | `data.len() as u32` differs from the length by a multiple of 2^32, so it keeps the low 32 bits, and is the identity on lengths below 2^32 |
| `Canon.NormaliseLock` | contracts/rgbpp-lock/src/main.rs:224-245 | code identity is kept. A lock that is neither a time-lock nor RGB++ is unchanged. It fails exactly when the arguments of the applicable structure (time-lock first) do not decode, with `BadBTCTimeLock` or `BadRGBPPLock` accordingly |
| `Canon.NormaliseOutput` | contracts/rgbpp-lock/src/main.rs:231-232 | the rebuilt output keeps capacity and type script and carries the normalised lock |
| `Canon.NormaliseIgnoresTxid` | contracts/rgbpp-lock/src/main.rs:224-245 | two locks that differ only in the embedded `btc_txid` normalise to the same lock |
| `Canon.NormaliseOutputIgnoresTxid` | contracts/rgbpp-lock/src/main.rs:224-245 | two outputs that differ only in the lock's `btc_txid` normalise to the same output |
| `Canon.RewrittenTxidIsEquivalent` | contracts/rgbpp-lock/src/main.rs:226-240 | setting any txid in a lock's decoded arguments and re-encoding gives a lock equal to the original up to txid |
| `Canon.NormalisedTxidIsZero` | contracts/rgbpp-lock/src/main.rs:226-239 | the normalised lock's arguments decode with a zero `btc_txid` |
| `Canon.NormaliseKeepsOtherFields` | contracts/rgbpp-lock/src/main.rs:226-240 | normalisation replaces only `btc_txid`: the normalised lock is equal to the original up to txid, keeps `out_index` of an RGB++ lock, and keeps `lock_script` and `after` of a time-lock |
| `Canon.NormaliseOutputKeepsOtherFields` | contracts/rgbpp-lock/src/main.rs:224-242 | the normalised output is equal to the original up to its lock's txid |
| `Canon.SameNormalFormIsEqualUpToTxid` | contracts/rgbpp-lock/src/main.rs:224-245 | two locks have the same normal form iff they are equal up to txid, so the normal form loses nothing but the txid |
| `Canon.SameNormalOutputIsEqualUpToTxid` | contracts/rgbpp-lock/src/main.rs:224-245 | two outputs have the same normal form iff they are equal up to their locks' txid |
| `Canon.NormaliseIdempotent` | contracts/rgbpp-lock/src/main.rs:224-245 | normalising a normalised lock changes nothing |
| `Seal.AnySpends` | contracts/rgbpp-lock/src/main.rs:165-168 | the scan is true iff some input's `previous_output` equals the out-point |
| `Seal.IsSealed` | contracts/rgbpp-lock/src/main.rs:164-169 | the seal holds iff `(btc_txid, out_index)` is among the Bitcoin inputs' previous outputs |
| `Seal.SealIgnoresOrder` | contracts/rgbpp-lock/src/main.rs:164-169 | input lists with the same elements, in any order and with any repetition, give the same seal outcome |
| `Seal.SealIgnoresUnrelatedInput` | contracts/rgbpp-lock/src/main.rs:164-169 | inserting an input that spends another out-point, anywhere, does not change the outcome |
| `Commitment.OutputEntry` | contracts/rgbpp-lock/src/main.rs:224-249 | an output's entry fails exactly when its lock does not normalise, with that error; otherwise it is the serialised normalised output, then the data length truncated to `u32` in four little-endian bytes, then the data itself |
| `Commitment.OutputsBytes` | contracts/rgbpp-lock/src/main.rs:218-250 | the output part succeeds iff every committed lock normalises; otherwise it fails with the error of the first one that does not. Its bytes are fixed by `OutputsBytesAppend` and `OutputsBytesSingle` |
| `Commitment.OutputsBytesAppend` | contracts/rgbpp-lock/src/main.rs:218-250 | the output part of a concatenation of pairs is the concatenation of their output parts, and the first failure wins |
| `Commitment.OutputsBytesSingle` | contracts/rgbpp-lock/src/main.rs:224-249 | the output part of one pair is that pair's entry |
| `Commitment.CommittedPairs` | contracts/rgbpp-lock/src/main.rs:218-222 | the committed pairs are the first `output_len` outputs, each with its data, cut short at the end of the shorter of the outputs and the outputs data: the i-th pair is the i-th output with the i-th data |
| `Commitment.Preimage` | contracts/rgbpp-lock/src/main.rs:211-250 | the preimage fails exactly when a committed output's lock fails to normalise, with the error of the first such lock. It starts with `RGB++`, then two bytes decoding to the version, then `input_len` and `output_len` |
| `Commitment.PreimageLayout` | contracts/rgbpp-lock/src/main.rs:211-250 | after the 9-byte header, the k-th committed out-point occupies bytes 9+36k to 9+36(k+1), and everything after the committed out-points is the output part |
| `Commitment.SamePreimageSameOutPoints` | contracts/rgbpp-lock/src/main.rs:215-217 | two transactions with the same number of committed inputs and the same preimage commit to the same out-points |
| `Commitment.SameEntrySameCell` | contracts/rgbpp-lock/src/main.rs:224-249 | equal entries for data of equal length come from equal data and outputs equal up to txid, given an injective serialiser |
| `Commitment.Digest` | contracts/rgbpp-lock/src/main.rs:253 | the digest compared with the commitment is `sha2` of the SHA-256 of the preimage |
| `Commitment.NoTypedInput` | contracts/rgbpp-lock/src/main.rs:198-200 | true iff no input cell in the sequence has a type hash |
| `Commitment.NoTypedOutput` | contracts/rgbpp-lock/src/main.rs:203-207 | true iff no output in the sequence has a type script |
| `Commitment.CheckBtcTxCommitment` | contracts/rgbpp-lock/src/main.rs:180-256 | checks in order: missing commitment gives `BadBtcCommitment`, nonzero version gives `UnknownCommitmentVersion`, a zero length gives `BadBtcCommitment`, a typed cell beyond the prefix gives `CommitmentMismatch`. Past the guards, a preimage failure is the result, and a digest that differs from the commitment gives `CommitmentMismatch`. Success iff all guards pass, the preimage builds and its double hash equals the extracted commitment. Only five error kinds are possible |
| `Commitment.InputsBytesOnlyOutPoints` | contracts/rgbpp-lock/src/main.rs:215-217 | the input part depends on the inputs' `previous_output` bytes and nothing else |
| `Commitment.InputsBytesLength` | contracts/rgbpp-lock/src/main.rs:215-217 | the input part is 36 bytes per committed input, out-points being 36 bytes long |
| `Commitment.InputsBytesLayout` | contracts/rgbpp-lock/src/main.rs:215-217 | the i-th 36-byte block of the input part is the i-th committed out-point, so every committed out-point byte reaches the hash |
| `Commitment.OutputsBytesIgnoresTxid` | contracts/rgbpp-lock/src/main.rs:218-250 | pairs that agree up to their locks' `btc_txid` and have equal data give the same output part |
| `Commitment.PreimageDependsOnlyOnCommittedPrefix` | contracts/rgbpp-lock/src/main.rs:211-250 | transactions with the same committed out-points and the same committed (output, data) pairs, up to `btc_txid`, have the same preimage. Cells beyond the declared lengths do not matter, and `take`/`zip` truncate to the shorter list |
| `Commitment.PreimageIgnoresAppendedCells` | contracts/rgbpp-lock/src/main.rs:215-222 | appending inputs, outputs or data after a fully present prefix leaves the preimage unchanged |
| `Commitment.CheckDependsOnGuardsAndPreimage` | contracts/rgbpp-lock/src/main.rs:180-257 | the commitment verdict depends on the CKB transaction only through its inputs, whether any output past the committed prefix is typed, and the preimage |
| `Commitment.CommitmentIgnoresSealTxid` | contracts/rgbpp-lock/src/main.rs:180-257 | two CKB transactions that differ only in the `btc_txid` of their RGB++ and time-lock outputs get the same commitment verdict, so an output may name the Bitcoin transaction that commits to it |
| `Unlock.LoadWitnessArgs` | contracts/rgbpp-lock/src/main.rs:113 | witness loading succeeds iff the source index designates a witness slot whose bytes decode as `WitnessArgs`, and then returns that witness. An index with no witness gives `IndexOutOfBound`; bytes that do not decode give `Encoding` |
| `Unlock.WitnessIndex` | contracts/rgbpp-lock/src/main.rs:112-133 | an input index designates the witness at that index; a group index designates the witness of the group's input at that index; either only when the witness exists |
| `Unlock.LoadUnlock` | contracts/rgbpp-lock/src/main.rs:112-122 | success iff the witness loads, has a lock field and that field decodes. A witness-load error is passed on; an absent field gives `ItemMissing`, a field that does not decode gives `BadRGBPPUnlock`. There is no further redirect |
| `Unlock.FetchUnlock` | contracts/rgbpp-lock/src/main.rs:131-152 | a witness-load failure propagates and an absent lock field gives `ItemMissing`. A 4-byte field is the LE `u32` index passed to `load_unlock`. Any other length is decoded in place |
| `Unlock.RedirectReadsEncodedIndex` | contracts/rgbpp-lock/src/main.rs:134-142 | a group lock field holding the little-endian bytes of `i` loads the unlock of input `i` |
| `Unlock.RedirectIsOneHop` | contracts/rgbpp-lock/src/main.rs:112-122 | the redirect target's lock field is decoded whatever its length, four bytes included, and never followed |
| `Unlock.DirectUnlockReadsNoOtherWitness` | contracts/rgbpp-lock/src/main.rs:144-148 | a field of any length but four gives a result that depends on no other witness |
| `Outputs.RgbppResealed` | contracts/rgbpp-lock/src/main.rs:88-95 | RGB++ code with undecodable arguments gives `BadRGBPPLock`. The result is true iff the code matches, the arguments decode and `check_utxo_seal` holds |
| `Outputs.TimeLocked` | contracts/rgbpp-lock/src/main.rs:98-105 | a time-lock with undecodable arguments gives `BadBTCTimeLock`. The result is true iff it is a time-lock, the arguments decode and `check_btc_time_lock(.., MIN_BTC_TIME_LOCK_AFTER)` holds |
| `Outputs.OutputVerdict` | contracts/rgbpp-lock/src/main.rs:80-108 | an output is accepted iff it is in custody. Exact conditions are given for `BadRGBPPLock` and `BadBTCTimeLock`, and no other error than those and `OutputCellWithUnknownLock` is possible |
| `Outputs.FailedSealFallsThrough` | contracts/rgbpp-lock/src/main.rs:88-105 | an RGB++ output whose seal fails is judged by the time-lock test |
| `Outputs.OutputsCheck` | contracts/rgbpp-lock/src/main.rs:78-110 | success iff every output's verdict is success; otherwise the result is the verdict of the first failing output |
| `Outputs.OutputsCheckIsCustody` | contracts/rgbpp-lock/src/main.rs:78-110 | the outputs pass iff every output is untyped, re-sealed or validly time-locked |
| `Outputs.FirstUnknownLockIsReported` | contracts/rgbpp-lock/src/main.rs:107 | the first typed output out of custody whose arguments decode yields `OutputCellWithUnknownLock` |
| `Outputs.VerifyOutputs` | contracts/rgbpp-lock/src/main.rs:78-110 | the loop with early returns computes the same result as the recursive definition |
| `Entry.VerifyUnlock` | contracts/rgbpp-lock/src/main.rs:155-178 | a missing seal gives `UtxoSealMismatch` whatever else holds, and a light-client error comes next. With both passed, the result is the commitment check's. Success iff sealed, the light client accepts and the commitment check passes |
| `Entry.SealMismatchIffNotSealed` | contracts/rgbpp-lock/src/main.rs:164-176 | `UtxoSealMismatch` is returned iff no Bitcoin input spends the sealed out-point |
| `Entry.Load` | contracts/rgbpp-lock/src/main.rs:51-64 | the loading steps run in order: own arguments (`BadRGBPPLock`), config, unlock, Bitcoin parse. The first failure is the result |
| `Entry.Main` | contracts/rgbpp-lock/src/main.rs:51-75 | a loading failure is the result; then `verify_unlock`'s failure; otherwise the outputs check decides |
| `Entry.ProgramEntry` | contracts/rgbpp-lock/src/main.rs:40-49 | success exits 0 and an error exits with its `i8` discriminant |
| `Entry.MainAcceptsExactlyAuthorised` | contracts/rgbpp-lock/src/main.rs:51-75 | `main` succeeds iff loading succeeds and all custody conditions hold, listed without their order: seal, light client, version 0, nonzero lengths, exclusivity, digest equality, and every output in custody |
| `Entry.SealCheckedFirst` | contracts/rgbpp-lock/src/main.rs:164-176 | a missing seal ends `main` with `UtxoSealMismatch` before the light client, commitment and outputs are consulted |
| `Entry.UnknownVersionRejected` | contracts/rgbpp-lock/src/main.rs:188-195 | with the seal and the light client satisfied and a commitment present, a nonzero version ends `main` with `UnknownCommitmentVersion` |
| `Entry.UnknownOutputLockRejected` | contracts/rgbpp-lock/src/main.rs:73 | after a verified unlock, the first typed output out of custody with decodable arguments ends `main` with `OutputCellWithUnknownLock` |
| `Entry.ExitStatusZeroIffAccepted` | contracts/rgbpp-lock/src/main.rs:40-49 | the exit status is 0 iff `main` succeeds |

## Left out

- Host syscalls are not modelled as operations. These are `load_script`,
  `load_transaction`, `load_cell_lock`, `load_cell_type_hash` and `QueryIter`.
  The running script, its group and the transaction are an immutable
  `Context` value. Failures of `load_script` (main.rs:54, 79, 186) and
  `load_transaction` (main.rs:57) do not occur in the model. The panic
  `QueryIter` raises on unexpected syscall errors is not modelled either.
- Witness loading (`load_witness_args`) is modelled only through its outcomes:
  an out-of-range index gives `IndexOutOfBound`, and bytes that do not decode
  as `WitnessArgs` give `Encoding`.
- The following are uninterpreted functions in `Host`; their code is not
  part of this model:
  - SHA-256 and `bitcoin::sha2`;
  - molecule serialisation and decoding;
  - `parse_btc_tx`, `extract_commitment`, `check_btc_tx_exists`;
  - `check_utxo_seal`, `check_btc_time_lock`, `is_btc_time_lock`;
  - `load_config` and the value of `MIN_BTC_TIME_LOCK_AFTER`.
- `is_btc_time_lock` receives only the lock's code hash and hash type,
  so it is assumed to ignore the lock's arguments. `is_script_code_equal`
  is modelled as equality of code hash and hash type.
- Collaborators whose code is not part of this model return
  `Result<_, Error>` and may return any error variant. Examples are the
  Bitcoin parser, the light client and the configuration loader. `External`
  stands for the variants of the error enumeration that this model does not
  name.
- The numeric discriminants of the error enumeration are defined outside this
  model and are the uninterpreted `Host.errorCode`.
- Allocator setup, the `entry!` macro and `debug!` logging are runtime
  plumbing.
- Serialised CKB out-points are the fixed 36-byte molecule struct
  (`OutPointBytes`); the out-point serialiser is not part of this model.
- `CodecsRoundTrip` says that decoding an encoded RGB++ lock or BTC
  time-lock argument structure gives it back. Molecule codecs have this
  property, but their code is not part of this model, so every lemma that
  needs it takes it as a requires. Those lemmas are listed one per line
  below.
- Canon.NormaliseKeepsOtherFields: holds only under `CodecsRoundTrip`.
- Canon.NormaliseOutputKeepsOtherFields: holds only under `CodecsRoundTrip`.
- Canon.SameNormalFormIsEqualUpToTxid: holds only under `CodecsRoundTrip`.
- Canon.SameNormalOutputIsEqualUpToTxid: holds only under `CodecsRoundTrip`.
- Canon.NormaliseIdempotent: holds only under `CodecsRoundTrip`.
- Canon.NormalisedTxidIsZero: holds only under `CodecsRoundTrip`.
- Canon.RewrittenTxidIsEquivalent: holds only under `CodecsRoundTrip`.
- Commitment.SameEntrySameCell: assumes an injective output serialiser, data
  of equal length and `CodecsRoundTrip`. Molecule serialisation is not part
  of this model, and without the length condition the split between output
  bytes and data is not determined.
- Commitment.SamePreimageSameOutPoints: stated for transactions with the same
  number of committed inputs; otherwise the header's `input_len` alone does
  not fix where the output part begins.
- Entry.SealMismatchIffNotSealed: the "only if" direction (from
  `UtxoSealMismatch` to a missing seal) assumes that the light client does
  not itself return `UtxoSealMismatch`, because its code is not part of this
  model. The "if" direction needs no assumption and is an ensures of
  `Entry.VerifyUnlock`.
- Entry.ExitStatusZeroIffAccepted: assumes that every error discriminant is
  nonzero, because the discriminants are defined outside this model.
