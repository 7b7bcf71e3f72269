/** A chain of acquisitions `txn.lock::<T1, K1>().lock::<T2, K2>()...`: each `lock`
    consumes the transaction and hands back a new one, so a sequence of requests is
    applied left to right. */
module Chains {

  import opened Topics
  import opened Kinds
  import opened Locks
  import opened Capability

  /** The type arguments `<T, K>` of one `lock` call. */
  datatype Request = Request(topic: Topic, kind: Kind)

  /** Applies the requests in order, the first one first. */
  function LockAll(txn: Transaction, reqs: seq<Request>): (r: Transaction)
    decreases |reqs|
  {
    if reqs == [] then txn
    else LockAll(Lock(txn, reqs[0].topic, reqs[0].kind), reqs[1..])
  }

  /** Reference definition: the kind named by the last request on `topic`, or `prior`
      when no request names it. */
  function LastKind(reqs: seq<Request>, topic: Topic, prior: Kind): (k: Kind)
    decreases |reqs|
  {
    if reqs == [] then prior
    else if reqs[|reqs| - 1].topic == topic then reqs[|reqs| - 1].kind
    else LastKind(reqs[..|reqs| - 1], topic, prior)
  }

  /** Running two chains one after the other is running their concatenation. */
  lemma {:induction false} LockAllAppend(txn: Transaction, a: seq<Request>, b: seq<Request>)
    ensures LockAll(txn, a + b) == LockAll(LockAll(txn, a), b)
    decreases |a|
  {
    if a == [] {
      assert a + b == b;
    } else {
      assert (a + b)[0] == a[0];
      assert (a + b)[1..] == a[1..] + b;
      LockAllAppend(Lock(txn, a[0].topic, a[0].kind), a[1..], b);
    }
  }

  /** After a chain, each topic holds the kind of the last request naming it, or the
      kind it held before when none does. */
  lemma {:induction false} LockAllLastRequest(txn: Transaction, reqs: seq<Request>, topic: Topic)
    ensures KindOf(LockAll(txn, reqs), topic) == LastKind(reqs, topic, KindOf(txn, topic))
    decreases |reqs|
  {
    if reqs != [] {
      var init, r := reqs[..|reqs| - 1], reqs[|reqs| - 1];
      assert reqs == init + [r];
      LockAllAppend(txn, init, [r]);
      LockAllLastRequest(txn, init, topic);
      var mid := LockAll(txn, init);
      assert LockAll(mid, [r]) == LockAll(Lock(mid, r.topic, r.kind), []);
    }
  }

  /** The whole state after a chain, in terms of the reference definition. */
  lemma LockAllState(txn: Transaction, reqs: seq<Request>)
    ensures LockAll(txn, reqs) == Transaction(LockState(
      chunks := LastKind(reqs, Chunks, KindOf(txn, Chunks)),
      index := LastKind(reqs, Index, KindOf(txn, Index))))
  {
    var r := LockAll(txn, reqs);
    var s := Transaction(LockState(
      chunks := LastKind(reqs, Chunks, KindOf(txn, Chunks)),
      index := LastKind(reqs, Index, KindOf(txn, Index))));
    forall topic
      ensures KindOf(r, topic) == KindOf(s, topic)
    {
      LockAllLastRequest(txn, reqs, topic);
    }
    TransactionExtensionality(r, s);
  }

  /** A topic that no request names keeps its prior kind in the reference definition. */
  lemma {:induction false} LastKindUntouched(reqs: seq<Request>, topic: Topic, prior: Kind)
    requires forall i :: 0 <= i < |reqs| ==> reqs[i].topic != topic
    ensures LastKind(reqs, topic, prior) == prior
    decreases |reqs|
  {
    if reqs != [] {
      var init := reqs[..|reqs| - 1];
      assert forall i :: 0 <= i < |init| ==> init[i] == reqs[i];
      LastKindUntouched(init, topic, prior);
    }
  }

  /** A chain leaves every topic it does not name exactly as it was. */
  lemma LockAllUntouched(txn: Transaction, reqs: seq<Request>, topic: Topic)
    requires forall i :: 0 <= i < |reqs| ==> reqs[i].topic != topic
    ensures KindOf(LockAll(txn, reqs), topic) == KindOf(txn, topic)
  {
    LockAllLastRequest(txn, reqs, topic);
    LastKindUntouched(reqs, topic, KindOf(txn, topic));
  }

  /** A chain of index locks only, of any kinds, leaves every capability as it was. */
  lemma IndexChainKeepsCapabilities(txn: Transaction, reqs: seq<Request>)
    requires forall i :: 0 <= i < |reqs| ==> reqs[i].topic == Index
    ensures CanRead(LockAll(txn, reqs)) == CanRead(txn)
    ensures CanWrite(LockAll(txn, reqs)) == CanWrite(txn)
    ensures CanDelete(LockAll(txn, reqs)) == CanDelete(txn)
  {
    LockAllUntouched(txn, reqs, Chunks);
    CapabilitiesIgnoreIndex(LockAll(txn, reqs), txn);
  }

  /** The capabilities after a chain are those of the last chunks request, or the
      prior ones when the chain never names chunks. */
  lemma ChainCapabilities(txn: Transaction, reqs: seq<Request>)
    ensures CanRead(LockAll(txn, reqs)) <==> AnyKind(LastKind(reqs, Chunks, KindOf(txn, Chunks)))
    ensures CanWrite(LockAll(txn, reqs)) <==> AnyKind(LastKind(reqs, Chunks, KindOf(txn, Chunks)))
    ensures CanDelete(LockAll(txn, reqs)) <==> LastKind(reqs, Chunks, KindOf(txn, Chunks)) == Exclusive
  {
    LockAllLastRequest(txn, reqs, Chunks);
  }

  /** Repeating the last request of a chain changes nothing. */
  lemma LockAllRepeatLast(txn: Transaction, reqs: seq<Request>, r: Request)
    ensures LockAll(txn, reqs + [r, r]) == LockAll(txn, reqs + [r])
  {
    var mid := LockAll(txn, reqs);
    assert reqs + [r, r] == (reqs + [r]) + [r];
    LockAllAppend(txn, reqs + [r], [r]);
    LockAllAppend(txn, reqs, [r]);
    assert LockAll(mid, [r]) == LockAll(Lock(mid, r.topic, r.kind), []);
    var once := Lock(mid, r.topic, r.kind);
    assert LockAll(once, [r]) == LockAll(Lock(once, r.topic, r.kind), []);
    LockIdempotent(mid, r.topic, r.kind);
  }
}
