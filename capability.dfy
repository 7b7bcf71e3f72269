/** The capability gate. The crate implements `ReadChunk` and `WriteChunk` for
    `Transaction<C, I>` when `C: AnyKind`, and `DeleteChunk` only for
    `Transaction<Exclusive, I>`; a call outside those bounds does not compile.
    Here each bound is a predicate and each operation a method that requires it. */
module Capability {

  import opened Topics
  import opened Kinds
  import opened Locks

  predicate CanRead(txn: Transaction) {
    AnyKind(txn.locks.chunks)
  }

  predicate CanWrite(txn: Transaction) {
    AnyKind(txn.locks.chunks)
  }

  predicate CanDelete(txn: Transaction) {
    txn.locks.chunks == Exclusive
  }

  /** `ReadChunk::read`: a no-op reachable only with some lock held on chunks. */
  method Read(txn: Transaction)
    requires CanRead(txn)
  {
  }

  /** `WriteChunk::write`: a no-op reachable only with some lock held on chunks. */
  method Write(txn: Transaction)
    requires CanWrite(txn)
  {
  }

  /** `DeleteChunk::delete`: a no-op reachable only with an exclusive lock on chunks. */
  method Delete(txn: Transaction)
    requires CanDelete(txn)
  {
  }

  /** Read and write are granted by the same bound. */
  lemma ReadIffWrite(txn: Transaction)
    ensures CanRead(txn) <==> CanWrite(txn)
  {
  }

  /** Read (and so write) is granted exactly when chunks holds `Shared` or `Exclusive`. */
  lemma ReadGrantedExactly(txn: Transaction)
    ensures CanRead(txn) <==> (KindOf(txn, Chunks) == Shared || KindOf(txn, Chunks) == Exclusive)
    ensures CanWrite(txn) <==> (KindOf(txn, Chunks) == Shared || KindOf(txn, Chunks) == Exclusive)
  {
  }

  /** Delete is granted exactly when chunks holds `Exclusive`. */
  lemma DeleteGrantedExactly(txn: Transaction)
    ensures CanDelete(txn) <==> KindOf(txn, Chunks) == Exclusive
  {
  }

  /** Delete is the strongest capability: it implies read and write. */
  lemma DeleteImpliesReadWrite(txn: Transaction)
    requires CanDelete(txn)
    ensures CanRead(txn) && CanWrite(txn)
  {
  }

  /** With no lock on chunks nothing is granted. */
  lemma NoneGrantsNothing(txn: Transaction)
    requires KindOf(txn, Chunks) == None
    ensures !CanRead(txn) && !CanWrite(txn) && !CanDelete(txn)
  {
  }

  /** The capabilities are generic over the index kind: they see only chunks. */
  lemma CapabilitiesIgnoreIndex(a: Transaction, b: Transaction)
    requires KindOf(a, Chunks) == KindOf(b, Chunks)
    ensures CanRead(a) == CanRead(b)
    ensures CanWrite(a) == CanWrite(b)
    ensures CanDelete(a) == CanDelete(b)
  {
  }

  /** Locking the index topic, with any kind, leaves every capability as it was. */
  lemma LockIndexKeepsCapabilities(txn: Transaction, k: Kind)
    ensures CanRead(Lock(txn, Index, k)) == CanRead(txn)
    ensures CanWrite(Lock(txn, Index, k)) == CanWrite(txn)
    ensures CanDelete(Lock(txn, Index, k)) == CanDelete(txn)
  {
    CapabilitiesIgnoreIndex(Lock(txn, Index, k), txn);
  }

  /** After locking chunks with `k`, the capabilities are those `k` grants, whatever
      was held before. */
  lemma LockChunksGrants(txn: Transaction, k: Kind)
    ensures CanRead(Lock(txn, Chunks, k)) <==> AnyKind(k)
    ensures CanWrite(Lock(txn, Chunks, k)) <==> AnyKind(k)
    ensures CanDelete(Lock(txn, Chunks, k)) <==> k == Exclusive
  {
  }
}
