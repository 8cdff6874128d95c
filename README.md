# Sector numbering and replica-update handlers, in Dafny

This project models two small pieces of a Lotus storage miner's sector bookkeeping and proves
properties about them.

1. **The stored counter** (`extern/go-storedcounter`). It hands out sector numbers. It keeps one
   `uint64` in a key-value datastore under a fixed key, encoded with Go's `encoding/binary`
   uvarint format.
   - `Next` reads the stored value and adds one, or starts at 0 when nothing is stored. It then
     writes the new value back and returns it.
   - `Get` reads the stored value.
   - `Set` fast-forwards the value and refuses to lower it.

   The datastore is a class holding a map from key to bytes. Its `Has`, `Get` and `Put` each
   fail or succeed according to a fault value the caller supplies. The counter is a class whose
   methods perform the source's read-modify-write steps in order. Their postconditions relate the
   new map to the old one through the pure functions `Current` and `Successor`. The uvarint
   encoding is modelled concretely:
   - `Encode` is the byte sequence, and `PutUvarint` is the loop that writes it into the 10-byte
     buffer.
   - `Uvarint` is the decoder, including Go's error returns.
   - Lemmas prove the round trip and the 10-byte bound.

2. **The replica-update stage handlers** (`extern/storage-sealing/states_replica_update.go`).
   Each handler is a pure function from the sealing receiver (miner address and sealer), the
   sector record and, for stage 1, the verdict of `checkPieces` to a `Step`. A `Step` holds the
   sealer call the handler made, if any, and an `Outcome`. The outcome is one of:
   - `Send(event)`: one event is sent.
   - `Err(reason)`: an error is returned.
   - `NoTransition`: nil is returned and no event is sent.
   - `Abort`: the source's `panic`.

   The sealer is a datatype of three total functions from a call's arguments to its result.

Module layout: `primitives.dfy` holds Go's byte, uint64 and nil. `binary.dfy` is the uvarint
encoding. `storedcounter.dfy` is the counter. `replica_update.dfy` has the handlers.

The source has compile faults, and the model follows what the authors evidently meant:
- `Get` and `Set` use a `ctx` they never declare (storedcounter.go:56, 64, 77, 83). The model
  leaves out contexts altogether.
- `Set` returns an `error` but writes `return 0, err` (storedcounter.go:79, 85). The model
  returns the store error.

A sector-number counter must not hand out the same number twice. The code adds one in
unchecked `uint64` arithmetic, so after 2^64 - 1 the next value is 0. The model follows the code.
`NextValuesConsecutive` states the run of values with that wrap-around.

## Model

| member | source | states |
|---|---|---|
| `Binary.PutUvarint` | extern/go-storedcounter/storedcounter.go:45-46 | writing a `uint64` into a buffer long enough for it leaves exactly its encoding at the front of the buffer, leaves the rest of the buffer as it was, and returns that encoding's length |
| `Binary.EncodeContinuation` | extern/go-storedcounter/storedcounter.go:46 | in the encoding, every byte but the last has the continuation bit set and the last byte does not |
| `Binary.EncodeLength` | extern/go-storedcounter/storedcounter.go:45-46 | every `uint64` encodes in at most `MaxVarintLen64` (10) bytes, so the 10-byte buffer is always large enough |
| `Binary.Uvarint` | extern/go-storedcounter/storedcounter.go:42 | a decode that fails gives value 0; a successful decode reads at most 10 bytes and no more than the buffer holds; every decoded value fits in a `uint64` |
| `Binary.UvarintFromBounds` | extern/go-storedcounter/storedcounter.go:42 | a decode that starts at byte i yields a value below 2^(64-7i) and ends within 10 bytes and within the buffer; a failed decode yields 0 |
| `Binary.UvarintEncode` | extern/go-storedcounter/storedcounter.go:42-48 | round trip: decoding the bytes written for any `uint64` gives it back and consumes exactly those bytes, whatever follows them |
| `Storedcounter.Datastore.Has` | extern/go-storedcounter/storedcounter.go:31-34 | reports whether the key is present, or reports the injected failure and says the key is absent |
| `Storedcounter.Datastore.Get` | extern/go-storedcounter/storedcounter.go:38-41 | returns the stored bytes, or not-found for a missing key, or the injected failure |
| `Storedcounter.Datastore.Put` | extern/go-storedcounter/storedcounter.go:48 | on success, sets the one key to the given bytes and leaves every other key alone; on failure, changes nothing |
| `Storedcounter.StoredCounter.New` | extern/go-storedcounter/storedcounter.go:19-22 | the counter is bound to the given datastore and key |
| `Storedcounter.StoredCounter.Next` | extern/go-storedcounter/storedcounter.go:24-49 | a failed `Has`, or a failed `Get` on a present key, returns 0 and that error and writes nothing. Otherwise it returns 0 for an absent key or the stored value plus one (mod 2^64), and writes that value's encoding under the key and nowhere else. The error of that write is returned beside the value. After a successful call the counter holds the returned value, and a well-formed entry stays well-formed |
| `Storedcounter.StoredCounter.Get` | extern/go-storedcounter/storedcounter.go:51-70 | returns 0 for an absent key, the decoded stored value otherwise, or 0 and the error of a failed read; it writes nothing (no `modifies`) |
| `Storedcounter.StoredCounter.Set` | extern/go-storedcounter/storedcounter.go:72-96 | a stored value greater than the target is refused with `InvalidDecrease` and the store is unchanged. Otherwise, including equality and an absent key, the target is written. A failed read writes nothing. The counter's value never decreases |
| `Storedcounter.CurrentAfterWrite` | extern/go-storedcounter/storedcounter.go:42-48 | after the counter writes `v`, reading it gives `v`, and the entry is well-formed |
| `Storedcounter.NextAfterNext` | extern/go-storedcounter/storedcounter.go:36-48 | once `Next` has stored the value it returned, the following `Next` returns that value plus one (mod 2^64) |
| `Storedcounter.NextValuesConsecutive` | extern/go-storedcounter/storedcounter.go:24-49 | the j-th value of a run of `Next` calls is the first value plus j (mod 2^64): no repeats and no gaps before the wrap |
| `Storedcounter.EmptyStoreScenario` | extern/go-storedcounter/storedcounter.go:26-96 | from an empty store: `Next` gives 0, then 1; `Set(5)` succeeds; `Set(3)` is refused as a decrease from 5; `Next` then gives 6 |
| `StorageSealing.HandleReplicaUpdate` | extern/storage-sealing/states_replica_update.go:9-33 | the sealer is called iff the piece check passed, with the sector's reference and pieces. An API error means no event and no error. Invalid deals send `SectorInvalidDealIDs{RetPreCommit1}`, and only in that case. Expired deals send `SectorDealsExpired` wrapping the cause. Any other check error is returned. A sealer failure aborts. A sealer success sends `SectorReplicaUpdate` with the output unchanged |
| `StorageSealing.HandleProveReplicaUpdate1` | extern/storage-sealing/states_replica_update.go:35-53 | the sealer is called iff both `ReplicaUpdateOut` and `CommR` are set. A nil output is reported before `CommR` is looked at. When called, the sealer gets `CommR`, `NewSealed` and `NewUnsealed` from the record. Its proofs are sent in `SectorProveReplicaUpdate1`, and its failure aborts |
| `StorageSealing.HandleProveReplicaUpdate2` | extern/storage-sealing/states_replica_update.go:55-77 | the sealer is called iff `ReplicaUpdateOut`, `CommR` and `ProveReplicaUpdate1Out` are all set. The first nil among them, in that order, is the reported error. When called, the sealer gets the record's `CommR`, CIDs and vanilla proofs. Its proof is sent in `SectorProveReplicaUpdate2`, and its failure aborts |
| `StorageSealing.HandleSubmitReplicaUpdate` | extern/storage-sealing/states_replica_update.go:79-81 | no sealer call, no event, no error |
| `StorageSealing.NoCallIgnoresSealer` | extern/storage-sealing/states_replica_update.go:9-77 | whenever a handler reports no sealer call, its result is the same for every sealer: the sealer was not consulted |
| `StorageSealing.StageOutputsFlowForward` | extern/storage-sealing/states_replica_update.go:30-76 | the CIDs in stage 1's event are what stage 2 passes to the sealer once recorded, and stage 2's vanilla proofs, once recorded too, are what stage 3 passes along with `CommR` and those CIDs |
| `StorageSealing.MissingCommRStopsStage2` | extern/storage-sealing/states_replica_update.go:25-44 | a sector with passing pieces and no `CommR` gets `SectorReplicaUpdate` with the sealer's CIDs; with those recorded, the next stage fails with a nil-`CommR` error and makes no sealer call |

## Left out

- The counter's `sync.Mutex` (storedcounter.go:14, 28-29, 53-54, 74-75). Each method is modelled as one atomic step, which is what the lock provides.
- `context` and the `go-datastore` implementation. The datastore is a map, and each of its operations fails only when the caller's `Faults` value says so.
- `Storedcounter.Datastore.Put`: a failed `Put` is modelled as writing nothing. The datastore's own contract is not part of this model.
- Reading stored bytes that are not a complete uvarint gives 0, as `binary.Uvarint` returns 0 on error and the source discards the count. Every write of the counter leaves a well-formed entry (`WellFormed`), so this case arises only when something else wrote the key.
- `Binary.PutUvarint` and `Binary.Uvarint` model functions of Go's standard `encoding/binary` package, whose own source is not among the modelled files; they follow that package's documented behaviour.
- The internals of `checkPieces`, the sealer's proof computations, `sealingCtx` and `minerSector` (states_replica_update.go:10, 25, 45, 69) are cryptography and chain access in files that are not part of this model. The piece check's verdict is an input, and the sealer is a set of functions. `pieceInfos()` is taken to be the record's piece list.
- The go-statemachine runtime, the error `ctx.Send` itself may return, and the planner that maps an emitted event to the next state. The model stops at which event is emitted. `StageOutputsFlowForward` and `MissingCommRStopsStage2` state the record update an event stands for as a hypothesis.
- Logging (`log.Errorf`, `log.Warnf`) and the text of error messages. Errors keep their kind, the sector number and the wrapped cause.
- `itests/ccupgrade_test.go`, an end-to-end network test that is skipped unconditionally.
