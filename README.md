# comptime-locks, modelled in Dafny

The crate tracks which lock a transaction holds on each of two topics, chunk storage
(`Chunks`) and index storage (`Index`), and gates the chunk operations `read`, `write`
and `delete` on that state. The crate does this in the type system:
`Transaction<C, I>` carries the chunks kind `C` and the index kind `I` as phantom type
parameters. The lock kinds are `None`, `Shared` and `Exclusive`, and only `Shared` and
`Exclusive` carry the `AnyKind` marker. `lock::<T, K>()` consumes the transaction and
returns one whose type has `K` in topic `T`'s slot. The operation traits are
implemented only for the types that satisfy their bounds, so a disallowed call does not
compile.

This model turns the type-level state into data:

- `Topics.Topic` and `Kinds.Kind` are datatypes. `Kinds.AnyKind` is the marker trait as
  a predicate.
- `Locks.LockState(chunks, index)` is the lock state, and `Locks.Transaction(locks)`
  wraps it. `Locks.KindOf` reads the kind held on a topic.
- `Locks.LockChunks` and `Locks.LockIndex` are the two `Lock` impls. `Locks.Lock` is
  `Transaction::lock`, which dispatches on the topic. All three are total functions.
  They build a fresh value, take the requested kind for the named topic and carry the
  other topic over.
- `Capability.CanRead`, `CanWrite` and `CanDelete` are the trait bounds `C: AnyKind`,
  `C: AnyKind` and `C = Exclusive`. The no-op operations `Capability.Read`, `Write` and
  `Delete` are methods whose only contract is that bound as a `requires` clause. Dafny
  therefore rejects every call on a transaction whose state fails the bound. Unlike
  rustc, Dafny does not also reject reuse of a transaction after it was moved (see
  "## Left out").
- `Chains.LockAll` applies a sequence of `lock` calls in order, the way a caller chains
  `txn.lock::<A, X>().lock::<B, Y>()`. `Chains.LastKind` is an independent reference
  definition: the last kind requested per topic.
- `Tests.FullExample` is the crate's `full_example` test, and
  `Tests.FullExampleScenario` states the facts that test depends on.

The crate has no conflict detection and no scoped-lock helper. Both `Lock` impls
accept every prior kind and every requested kind unconditionally (src/lib.rs:65-89).
`Locks.LockHeldKindIsNoOp` states what re-locking a topic with the kind it already
holds does: it succeeds and returns the same state.

## Model

| member | source | states |
|---|---|---|
| `Kinds.AnyKindExactly` | src/lib.rs:23-31 | `AnyKind` holds exactly for `Shared` and `Exclusive`, and not for `None` |
| `Locks.TransactionExtensionality` | src/lib.rs:48-57 | a transaction is determined by the kinds it holds on the two topics |
| `Locks.LockChunks` | src/lib.rs:65-76 | the returned transaction's chunks kind is the requested kind and its index kind is the prior index kind |
| `Locks.LockIndex` | src/lib.rs:78-89 | the returned transaction's index kind is the requested kind and its chunks kind is the prior chunks kind |
| `Locks.Lock` | src/lib.rs:91-97 | with no precondition, for every state, topic and kind, the named topic gets the requested kind and every other topic keeps its kind |
| `Locks.LockIsUnique` | src/lib.rs:65-89 | any transaction that meets `Lock`'s two postconditions is `Lock`'s result, so those postconditions are a complete specification |
| `Locks.LockIgnoresPriorKind` | src/lib.rs:65-89 | the result of locking a topic does not depend on the kind that topic held before, so no prior state can cause a conflict |
| `Locks.LockLastWins` | src/lib.rs:65-89 | locking a topic with `k1` and then with `k2` equals locking it once with `k2` |
| `Locks.LockIdempotent` | src/lib.rs:65-89 | locking the same topic with the same kind twice equals locking it once |
| `Locks.LockHeldKindIsNoOp` | src/lib.rs:65-89 | locking a topic with the kind it already holds returns the same transaction, with no error |
| `Locks.LockCommutes` | src/lib.rs:65-89 | locks on different topics give the same state in either order |
| `Capability.ReadIffWrite` | src/lib.rs:100-106 | read and write are granted in exactly the same states |
| `Capability.ReadGrantedExactly` | src/lib.rs:100-106 | read and write are granted exactly when chunks holds `Shared` or `Exclusive` |
| `Capability.DeleteGrantedExactly` | src/lib.rs:108-110 | delete is granted exactly when chunks holds `Exclusive` |
| `Capability.DeleteImpliesReadWrite` | src/lib.rs:100-110 | a state that may delete may also read and write |
| `Capability.NoneGrantsNothing` | src/lib.rs:100-110 | with `None` on chunks, none of read, write or delete is granted |
| `Capability.CapabilitiesIgnoreIndex` | src/lib.rs:100-110 | two states with the same chunks kind are granted the same capabilities, whatever their index kinds |
| `Capability.LockIndexKeepsCapabilities` | src/lib.rs:78-110 | locking the index topic with any kind leaves read, write and delete unchanged |
| `Capability.LockChunksGrants` | src/lib.rs:65-110 | after locking chunks with `k`, read and write hold if and only if `k` is `AnyKind`, and delete holds if and only if `k` is `Exclusive`, whatever was held before |
| `Capability.Read` | src/lib.rs:100-102 | callable only when `CanRead` holds, i.e. chunks holds `Shared` or `Exclusive` |
| `Capability.Write` | src/lib.rs:104-106 | callable only when `CanWrite` holds, i.e. chunks holds `Shared` or `Exclusive` |
| `Capability.Delete` | src/lib.rs:108-110 | callable only when `CanDelete` holds, i.e. chunks holds `Exclusive` |
| `Chains.LockAllAppend` | src/lib.rs:91-97 | running two chains of `lock` calls one after the other equals running their concatenation |
| `Chains.LockAllLastRequest` | src/lib.rs:65-97 | after a chain, each topic holds the kind of the last request naming it, or its prior kind if no request names it |
| `Chains.LockAllState` | src/lib.rs:65-97 | the state after a chain equals the state built from the reference definition `LastKind` for both topics |
| `Chains.LockAllUntouched` | src/lib.rs:65-97 | a chain that never names a topic leaves that topic's kind unchanged |
| `Chains.IndexChainKeepsCapabilities` | src/lib.rs:78-110 | a chain of index locks only, of any kinds, leaves read, write and delete unchanged |
| `Chains.ChainCapabilities` | src/lib.rs:65-110 | after a chain, read and write hold if and only if the last chunks kind requested (or the prior one) is `AnyKind`, and delete holds if and only if it is `Exclusive` |
| `Chains.LockAllRepeatLast` | src/lib.rs:65-97 | repeating the last request of a chain leaves the final state unchanged |
| `Tests.FullExampleScenario` | src/lib.rs:122-134 | from (`Shared`, `Shared`), delete is not granted (the commented-out call). After `lock::<Chunks, Exclusive>()` it is granted and index still holds `Shared` |
| `Tests.FullExample` | src/lib.rs:116-135 | the test's sequence passes the `Delete` gate, and it ends with `Exclusive` on chunks and `Shared` on index |

## Left out

- The zero-cost `PhantomData` type-state encoding (src/lib.rs:49-52). Kinds are runtime
  values here, and the compile-time trait bounds become method preconditions, which the
  verifier checks statically.
- `#[derive(Default)]` on `LockState` and `Transaction` (src/lib.rs:48, 54). The
  derived impls require `C: Default` and `I: Default`, which no kind type implements.
  The crate therefore has no default state over kinds, and the model asserts none.
- The struct definitions put no bound on `C` and `I`, and the derived `Default` impl is
  public, so any crate can build a `Transaction` over non-kind types, such as
  `Transaction::<(), ()>::default()`. The model ranges over the three kinds only, which
  are the only types `lock` can install (`K: Kind`).
- Ownership. `lock`, `locka` and the test's `delete_chunk` take the transaction by value
  (src/lib.rs:62, 68, 81, 92, 118), and `Transaction` is neither `Copy` nor `Clone`, so
  rustc rejects any use of a transaction after it has been locked. The model has value
  semantics and does not track moves. A transaction stays usable after `Lock` is applied
  to it, so an old `Exclusive` handle still passes `Capability.Delete` after a later
  downgrade to `Shared` was derived from it.
- The bodies of `read`, `write` and `delete` (src/lib.rs:101, 105, 109). They are empty,
  so the model has nothing to say about their effect.
- Conflict detection and scoped (nested) lock elevation. The code contains neither.
