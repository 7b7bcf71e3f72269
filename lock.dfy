/** The lock state of a transaction and the acquisition step `lock`.
    The crate records each topic's kind in the transaction's type parameters
    (`Transaction<C, I>`); here the record holds the kinds as values. */
module Locks {

  import opened Topics
  import opened Kinds

  /** One kind for the chunks topic and one for the index topic. */
  datatype LockState = LockState(chunks: Kind, index: Kind)

  /** A transaction owns exactly one lock state. */
  datatype Transaction = Transaction(locks: LockState)

  /** The kind the transaction currently holds on `topic`. */
  function KindOf(txn: Transaction, topic: Topic): (k: Kind) {
    match topic
    case Chunks => txn.locks.chunks
    case Index => txn.locks.index
  }

  /** A transaction is determined by the kinds it holds on the topics. */
  lemma TransactionExtensionality(a: Transaction, b: Transaction)
    requires forall topic :: KindOf(a, topic) == KindOf(b, topic)
    ensures a == b
  {
    assert KindOf(a, Chunks) == KindOf(b, Chunks);
    assert KindOf(a, Index) == KindOf(b, Index);
  }

  /** `impl Lock<Chunks, K> for Transaction<C, I>`: a fresh transaction whose chunks
      kind is `k` and whose index kind is carried over; the prior chunks kind is dropped. */
  function LockChunks(txn: Transaction, k: Kind): (r: Transaction)
    ensures KindOf(r, Chunks) == k
    ensures KindOf(r, Index) == KindOf(txn, Index)
  {
    Transaction(LockState(chunks := k, index := txn.locks.index))
  }

  /** `impl Lock<Index, K> for Transaction<C, I>`: a fresh transaction whose index kind
      is `k` and whose chunks kind is carried over; the prior index kind is dropped. */
  function LockIndex(txn: Transaction, k: Kind): (r: Transaction)
    ensures KindOf(r, Index) == k
    ensures KindOf(r, Chunks) == KindOf(txn, Chunks)
  {
    Transaction(LockState(index := k, chunks := txn.locks.chunks))
  }

  /** `Transaction::lock::<T, K>()`: dispatch on the topic to the matching `Lock` impl.
      It is total: every prior state, topic and kind (`None` included) is accepted. */
  function Lock(txn: Transaction, topic: Topic, k: Kind): (r: Transaction)
    ensures KindOf(r, topic) == k
    ensures forall other :: other != topic ==> KindOf(r, other) == KindOf(txn, other)
  {
    match topic
    case Chunks => LockChunks(txn, k)
    case Index => LockIndex(txn, k)
  }

  /** The two postconditions of `Lock` pin its result down completely. */
  lemma LockIsUnique(txn: Transaction, topic: Topic, k: Kind, r: Transaction)
    requires KindOf(r, topic) == k
    requires forall other :: other != topic ==> KindOf(r, other) == KindOf(txn, other)
    ensures r == Lock(txn, topic, k)
  {
  }

  /** Both impls are generic over the prior kind of the locked topic: the result does
      not depend on it, so there is no conflict case. */
  lemma LockIgnoresPriorKind(a: Transaction, b: Transaction, topic: Topic, k: Kind)
    requires forall other :: other != topic ==> KindOf(a, other) == KindOf(b, other)
    ensures Lock(a, topic, k) == Lock(b, topic, k)
  {
  }

  /** Locking a topic twice keeps only the second kind. */
  lemma LockLastWins(txn: Transaction, topic: Topic, k1: Kind, k2: Kind)
    ensures Lock(Lock(txn, topic, k1), topic, k2) == Lock(txn, topic, k2)
  {
  }

  /** Locking the same topic with the same kind twice equals locking it once. */
  lemma LockIdempotent(txn: Transaction, topic: Topic, k: Kind)
    ensures Lock(Lock(txn, topic, k), topic, k) == Lock(txn, topic, k)
  {
  }

  /** Re-locking a topic with the kind it already holds is accepted and changes nothing. */
  lemma LockHeldKindIsNoOp(txn: Transaction, topic: Topic, k: Kind)
    requires KindOf(txn, topic) == k
    ensures Lock(txn, topic, k) == txn
  {
  }

  /** Locks on different topics do not interfere, so their order does not matter. */
  lemma LockCommutes(txn: Transaction, t1: Topic, k1: Kind, t2: Topic, k2: Kind)
    requires t1 != t2
    ensures Lock(Lock(txn, t1, k1), t2, k2) == Lock(Lock(txn, t2, k2), t1, k1)
  {
  }
}
