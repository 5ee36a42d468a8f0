/**
 * The bounded generic stack of book/collection.go. It backs both the operand
 * stack of a frame and the frame stack of a thread.
 */
module Collection {
  import opened Base

  /**
   * A fixed-size buffer `data` and the number `index` of slots in use. Slots
   * at and above `index` keep whatever was last written there.
   */
  class Stack<T(0)> {
    const data: array<T>
    var index: nat

    ghost predicate Valid()
      reads this
    {
      index <= data.Length
    }

    /** The values on the stack, bottom first. */
    ghost function Contents(): seq<T>
      reads this, data
      requires Valid()
    {
      data[..index]
    }

    /** NewStack: an empty stack with room for `size` values. */
    constructor (size: nat)
      ensures Valid() && fresh(data)
      ensures data.Length == size && Contents() == []
    {
      data := new T[size];
      index := 0;
    }

    /** Writes `val` above the top if there is room, and panics otherwise. */
    method Push(val: T) returns (r: Result<()>)
      requires Valid()
      modifies this, data
      ensures Valid()
      ensures r.Ok? <==> old(index) < data.Length
      ensures r.Ok? ==> Contents() == old(Contents()) + [val]
      ensures r.Ok? ==> data[..] == old(data[..])[old(index) := val]
      ensures r.Fail? ==> r.fault == StackOverflow && index == old(index) && data[..] == old(data[..])
    {
      if index < data.Length {
        data[index] := val;
        index := index + 1;
        return Ok(());
      }
      return Fail(StackOverflow);
    }

    /** Removes the top value; the slot it occupied is left as it was. */
    method Pop() returns (val: T)
      requires Valid() && index > 0
      modifies this
      ensures Valid() && index == old(index) - 1
      ensures old(Contents()) == Contents() + [val]
    {
      index := index - 1;
      val := data[index];
    }

    method Peek() returns (val: T)
      requires Valid() && index > 0
      ensures val == Contents()[|Contents()| - 1]
    {
      val := data[index - 1];
    }

    /**
     * The value `k` places below the top. Go indexes the buffer directly, so
     * a negative `k` reads a slot above the top instead of panicking.
     */
    method PeekAt(k: int) returns (val: T)
      requires Valid() && 0 <= index - k - 1 < data.Length
      ensures val == data[index - k - 1]
      ensures 0 <= k ==> val == Contents()[|Contents()| - 1 - k]
    {
      val := data[index - k - 1];
    }

    method IsEmpty() returns (empty: bool)
      requires Valid()
      ensures empty <==> Contents() == []
    {
      empty := index == 0;
    }
  }
}
