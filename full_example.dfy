/** The crate's `full_example` test: a transaction holding `Shared` on both topics may
    not delete; after `lock::<Chunks, Exclusive>()` it may, and the index kind is kept. */
module Tests {

  import opened Topics
  import opened Kinds
  import opened Locks
  import opened Capability

  /** The facts the test relies on, including the rejected early `delete_chunk` call. */
  lemma FullExampleScenario()
    ensures !CanDelete(Transaction(LockState(Shared, Shared)))
    ensures CanDelete(Lock(Transaction(LockState(Shared, Shared)), Chunks, Exclusive))
    ensures KindOf(Lock(Transaction(LockState(Shared, Shared)), Chunks, Exclusive), Index) == Shared
  {
  }

  /** The test body: building the transaction, upgrading chunks, then deleting. */
  method FullExample() returns (txn: Transaction)
    ensures KindOf(txn, Chunks) == Exclusive && KindOf(txn, Index) == Shared
    ensures CanDelete(txn)
  {
    txn := Transaction(LockState(chunks := Shared, index := Shared));
    assert !CanDelete(txn);
    txn := Lock(txn, Chunks, Exclusive);
    Delete(txn);
  }
}
