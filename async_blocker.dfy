/**
 * async/blocker.go: a single slot that either holds a value (possibly nil)
 * or is empty. Get blocks while the slot is empty; the WaitGroup and lock
 * behind that are not modelled, only the slot's state.
 */
module AsyncBlocker {
  import opened Go

  class Blocker {
    var hasValue: bool
    var val: Value

    /** An empty slot holds nil: Remove clears the value with the flag. */
    predicate Valid()
      reads this
    {
      !hasValue ==> val == Nil
    }

    /** async.NewBlocker: an empty slot. */
    constructor ()
      ensures Valid() && !HasValue() && Peek() == Nil
    {
      hasValue := false;
      val := Nil;
    }

    /** async.NewBlockerOf: a slot holding v, counted as holding a value even when v is nil. */
    constructor Of(v: Value)
      ensures Valid() && HasValue() && Peek() == v
    {
      hasValue := true;
      val := v;
    }

    /** Blocker.HasValue: whether the slot holds a value, so that Get would not block; a non-nil Peek means it does. */
    predicate HasValue()
      reads this
      ensures Valid() && Peek() != Nil ==> HasValue()
    {
      hasValue
    }

    /** Blocker.Peek: the value held, nil when empty, without blocking. */
    function Peek(): (v: Value)
      reads this
      ensures Valid() && !hasValue ==> v == Nil
      ensures hasValue ==> v == val
    {
      val
    }

    /**
     * Blocker.Get returns the value once the slot holds one. Waiting for
     * another goroutine's Put is not modelled, so a full slot is required.
     */
    method Get() returns (v: Value)
      requires HasValue()
      ensures v == Peek()
    {
      v := val;
    }

    /** Blocker.Put: stores v (nil included) and marks the slot full, overwriting any earlier value. */
    method Put(v: Value)
      modifies this
      ensures Valid() && HasValue() && Peek() == v
    {
      val := v;
      if !hasValue {
        hasValue := true;
      }
    }

    /** Blocker.Remove: hands back the value held (nil when empty) and leaves the slot empty. */
    method Remove() returns (v: Value)
      modifies this
      ensures v == old(Peek())
      ensures Valid() && !HasValue() && Peek() == Nil
    {
      v := val;
      val := Nil;
      if hasValue {
        hasValue := false;
      }
    }
  }

  /**
   * The blocker's own test: a nil Put still fills the slot, and Remove on
   * an empty slot gives nil and leaves it empty.
   */
  method PutRemoveScenario() returns (b: Blocker)
    ensures fresh(b) && !b.HasValue()
  {
    b := new Blocker();
    b.Put(Int(1));
    var got := b.Get();
    assert got == Int(1);
    var removed := b.Remove();
    assert removed == Int(1) && !b.HasValue() && b.Peek() == Nil;
    removed := b.Remove();
    assert removed == Nil && !b.HasValue();
    b.Put(Nil);
    assert b.HasValue();
    removed := b.Remove();
    assert removed == Nil;
  }
}
