/** The growable stack of grey objects (struct stack of rts/rts/gc_jgc.c). */
module MarkStack {
  import opened SmartPtr

  const STACK_GROW: nat := 1024

  class Stack {
    var size: nat
    var ptr: nat
    var stack: array<Addr>
    ghost var Repr: set<object>

    ghost predicate Valid()
      reads this, Repr
    {
      this in Repr && stack in Repr && stack.Length == size && ptr <= size
    }

    /** The entries pushed and not yet popped, the oldest first. */
    ghost function Contents(): seq<Addr>
      requires Valid()
      reads this, Repr
    {
      stack[..ptr]
    }

    ghost function Room(): int
      reads this
    {
      size - ptr
    }

    /** EMPTY_STACK */
    constructor ()
      ensures Valid() && fresh(Repr) && Contents() == []
    {
      size, ptr := 0, 0;
      stack := new Addr[0];
      Repr := {this, stack};
    }

    /** stack_grow: realloc keeps the entries below the old size. */
    method Grow(grow: nat)
      requires Valid()
      modifies Repr
      ensures Valid() && fresh(Repr - old(Repr)) && Contents() == old(Contents())
      ensures size == old(size) + grow && ptr == old(ptr)
    {
      var bigger := new Addr[size + grow](_ => Static(0));
      var i := 0;
      while i < size
        invariant 0 <= i <= size && Valid() && size == old(size) && ptr == old(ptr)
        invariant bigger.Length == size + grow && fresh(bigger) && stack == old(stack) && stack[..] == old(stack[..])
        invariant bigger[..i] == stack[..i]
      {
        bigger[i] := stack[i];
        i := i + 1;
      }
      assert bigger[..ptr] == bigger[..size][..ptr] == stack[..size][..ptr];
      size := size + grow;
      stack := bigger;
      Repr := {this, stack};
    }

    /** stack_check: afterwards `n` more entries fit. */
    method Check(n: nat)
      requires Valid()
      modifies Repr
      ensures Valid() && fresh(Repr - old(Repr)) && Contents() == old(Contents())
      ensures Room() >= n && size == if old(Room()) < n then old(size) + n + 1024 else old(size)
    {
      if size - ptr < n {
        Grow(n + STACK_GROW);
      }
    }

    method Push(a: Addr)
      requires Valid() && Room() >= 1
      modifies Repr
      ensures Valid() && Repr == old(Repr) && Contents() == old(Contents()) + [a]
      ensures Room() == old(Room()) - 1
    {
      stack[ptr] := a;
      ptr := ptr + 1;
    }

    method Pop() returns (a: Addr)
      requires Valid() && Contents() != []
      modifies this`ptr
      ensures Valid() && a == old(Contents())[|old(Contents())| - 1]
      ensures Contents() == old(Contents())[..|old(Contents())| - 1]
      ensures Room() == old(Room()) + 1
    {
      ptr := ptr - 1;
      a := stack[ptr];
    }
  }
}
