/** The persistent lock backend, reduced to the one lock the importer uses
    (named `invoice_importer`): a single flag saying whether it is held. */
module Lock {

  class LockBackend {
    var held: bool

    constructor (held: bool)
      ensures this.held == held
    {
      this.held := held;
    }

    /** `acquire()`: takes the lock when it is free; fails, changing nothing, when it is held. */
    method Acquire() returns (acquired: bool)
      modifies this
      ensures acquired <==> !old(held)
      ensures held
    {
      acquired := !held;
      held := true;
    }

    /** `release()`. */
    method Release()
      modifies this
      ensures !held
    {
      held := false;
    }

    /** `lockMayBeAvailable()`: a probe that does not take the lock. */
    method LockMayBeAvailable() returns (available: bool)
      ensures available <==> !held
    {
      available := !held;
    }
  }
}
