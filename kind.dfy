/** Lock strengths. `None` means no lock is held; `Shared` and `Exclusive` are the
    kinds carrying the `AnyKind` marker, i.e. some lock is held. */
module Kinds {

  datatype Kind = None | Shared | Exclusive

  /** The `AnyKind` marker trait: implemented by `Shared` and `Exclusive` only. */
  predicate AnyKind(k: Kind) {
    match k
    case None => false
    case Shared => true
    case Exclusive => true
  }

  /** Exactly the two held kinds carry the marker; `None` does not. */
  lemma AnyKindExactly(k: Kind)
    ensures AnyKind(k) <==> (k == Shared || k == Exclusive)
    ensures !AnyKind(None)
  {
  }
}
