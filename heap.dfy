/**
 * Ownership of the buffers `LocalDsSTT` receives from the speech engine or
 * from `malloc`: partial transcripts (released with `DS_FreeString` or
 * `free`) and metadata (released with `DS_FreeMetadata`). A handle stands
 * for a pointer; `released` is ghost bookkeeping of every handle freed.
 */
module Heaps {
  import opened Common

  class Heap<T> {
    /** The buffers currently owned, by handle. */
    var live: map<nat, T>
    /** The next handle to be handed out: handles are never reused. */
    var next: nat
    ghost var released: set<nat>

    ghost predicate Valid()
      reads this
    {
      && (forall h :: h in live ==> h < next && h !in released)
      && (forall h :: h in released ==> h < next)
      && (forall h: nat :: h < next ==> h in live || h in released)
    }

    constructor ()
      ensures Valid() && live == map[] && next == 0 && released == {}
    {
      live, next, released := map[], 0, {};
    }

    /** A new buffer holding `v`. */
    method Alloc(v: T) returns (h: nat)
      requires Valid()
      modifies this
      ensures Valid() && h == old(next) && next == h + 1
      ensures live == old(live)[h := v] && released == old(released)
    {
      h := next;
      live, next := live[h := v], next + 1;
    }

    /** Releasing a buffer: only a live one, so no buffer is released twice. */
    method Free(h: nat)
      requires Valid() && h in live
      modifies this
      ensures Valid() && next == old(next)
      ensures live == old(live) - {h} && released == old(released) + {h}
    {
      live := live - {h};
      released := released + {h};
    }

    /** Releasing the one buffer kept since a starting state leaves none kept. */
    method Release(h: nat, ghost v: T, ghost live0: map<nat, T>)
      requires Since(this, live0, Some((h, v)))
      modifies this
      ensures Since(this, live0, None)
    {
      assert live0[h := v] - {h} == live0;
      Free(h);
    }
  }

  /**
   * Relative to the buffers owned at a starting point (`live0`): those are
   * still owned, and besides them only `kept` (a handle and its contents,
   * when present) is. As every handle ever handed out is owned or released,
   * every other buffer allocated since has been released.
   */
  ghost predicate Since<T>(heap: Heap<T>, live0: map<nat, T>, kept: Option<(nat, T)>)
    reads heap
  {
    && heap.Valid()
    && match kept
       case None => heap.live == live0
       case Some(kv) => kv.0 !in live0 && heap.live == live0[kv.0 := kv.1]
  }
}
