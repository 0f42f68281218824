/**
 * resource_pool: hands out resources, taking them from a LIFO free list when
 * it holds any and making new ones with the allocate function otherwise.
 * A handed-out resource goes back on the free list when its last user lets
 * go, but only while the pool still exists.
 *
 * Resources are numbered. The user's allocate function is an Allocator
 * that numbers new resources consecutively; the user's recycle function is
 * recorded as the list of resources it was called with. shared_ptr
 * reference counting is not modelled: letting go of a resource is the
 * explicit Release, and the pool's end of life is the explicit Destroy.
 */
module ResourcePool {
  import opened Bytes

  /** The allocate function: each call makes a new resource. */
  class Allocator {
    var next: nat

    constructor()
      ensures next == 0
    {
      next := 0;
    }

    method Allocate() returns (resource: nat)
      modifies this
      ensures resource == old(next) && next == old(next) + 1
    {
      resource := next;
      next := next + 1;
    }
  }

  /** resource_pool::impl */
  class Pool {
    const allocator: Allocator
    /** Whether a recycle function was given. */
    const hasRecycle: bool
    /** m_free_list, front first; allocate takes from and recycle adds to the back. */
    var freeList: seq<nat>
    /** The resources the recycle function was called with, in order. */
    var recycled: seq<nat>
    /** Whether the pool is still alive (a weak_ptr to it would lock). */
    var alive: bool

    /** impl(allocate) and impl(allocate, recycle): an empty free list. */
    constructor(allocator: Allocator, hasRecycle: bool)
      ensures this.allocator == allocator && this.hasRecycle == hasRecycle
      ensures freeList == [] && recycled == [] && alive
    {
      this.allocator := allocator;
      this.hasRecycle := hasRecycle;
      freeList := [];
      recycled := [];
      alive := true;
    }

    /**
     * The copy constructor: the same allocate and recycle functions, and as
     * many unused resources as the other pool holds, each newly allocated.
     */
    constructor Copy(other: Pool)
      modifies other.allocator
      ensures allocator == other.allocator && hasRecycle == other.hasRecycle
      ensures |freeList| == |other.freeList| && recycled == [] && alive
      ensures forall i :: 0 <= i < |freeList| ==> freeList[i] == old(other.allocator.next) + i
      ensures allocator.next == old(other.allocator.next) + |freeList|
    {
      allocator := other.allocator;
      hasRecycle := other.hasRecycle;
      freeList := [];
      recycled := [];
      alive := true;
      new;
      var i := 0;
      while i < |other.freeList|
        invariant i <= |other.freeList| && |freeList| == i && recycled == [] && alive
        invariant other.freeList == old(other.freeList)
        invariant allocator.next == old(other.allocator.next) + i
        invariant forall j :: 0 <= j < i ==> freeList[j] == old(other.allocator.next) + j
      {
        var resource := allocator.Allocate();
        freeList := freeList + [resource];
        i := i + 1;
      }
    }

    /**
     * allocate(): the most recently recycled resource when the free list
     * holds any, removed from it; otherwise a new one from the allocate function.
     */
    method Allocate() returns (resource: nat)
      modifies this, allocator
      ensures alive == old(alive) && recycled == old(recycled)
      ensures old(freeList) != [] ==>
        && resource == old(freeList[|freeList| - 1])
        && freeList == old(freeList[..|freeList| - 1])
        && allocator.next == old(allocator.next)
      ensures old(freeList) == [] ==>
        && resource == old(allocator.next)
        && freeList == []
        && allocator.next == old(allocator.next) + 1
    {
      if |freeList| > 0 {
        resource := freeList[|freeList| - 1];
        freeList := freeList[..|freeList| - 1];
      } else {
        resource := allocator.Allocate();
      }
    }

    /** free_unused(): drop every unused resource. */
    method FreeUnused()
      modifies this
      ensures freeList == [] && recycled == old(recycled) && alive == old(alive)
    {
      freeList := [];
    }

    /** unused_resources(): the free-list length, cast to uint32_t. */
    function UnusedResources(): (r: uint32)
      reads this
      ensures |freeList| < U32_MODULUS ==> r as nat == |freeList|
    {
      |freeList| % U32_MODULUS
    }

    /** recycle(resource): call the recycle function if there is one, then keep the resource. */
    method Recycle(resource: nat)
      modifies this
      ensures freeList == old(freeList) + [resource]
      ensures recycled == if hasRecycle then old(recycled) + [resource] else old(recycled)
      ensures alive == old(alive)
    {
      if hasRecycle {
        recycled := recycled + [resource];
      }
      freeList := freeList + [resource];
    }

    /** The last owner of the pool lets go: later releases find it gone. */
    method Destroy()
      modifies this
      ensures !alive && freeList == old(freeList) && recycled == old(recycled)
    {
      alive := false;
    }
  }

  /**
   * The deleter: when the last user of a handed-out resource lets go, it
   * goes back to its pool if the pool is still alive; otherwise nothing happens.
   */
  method Release(pool: Pool, resource: nat)
    modifies pool
    ensures pool.alive == old(pool.alive)
    ensures old(pool.alive) ==> pool.freeList == old(pool.freeList) + [resource]
    ensures old(pool.alive) && pool.hasRecycle ==> pool.recycled == old(pool.recycled) + [resource]
    ensures !old(pool.alive) ==> pool.freeList == old(pool.freeList) && pool.recycled == old(pool.recycled)
  {
    if pool.alive {
      pool.Recycle(resource);
    }
  }

  /**
   * Allocating, releasing and allocating again from a live pool hands out
   * the same resource twice and leaves the free list and the allocate
   * function as they were after the first allocation.
   */
  method AllocateReleaseAllocate(pool: Pool) returns (first: nat, second: nat)
    requires pool.alive
    modifies pool, pool.allocator
    ensures first == second
    ensures pool.allocator.next == old(pool.allocator.next) + (if old(pool.freeList) == [] then 1 else 0)
    ensures |pool.freeList| == (if old(pool.freeList) == [] then 0 else |old(pool.freeList)| - 1)
  {
    first := pool.Allocate();
    ghost var afterFirst := pool.freeList;
    Release(pool, first);
    second := pool.Allocate();
    assert pool.freeList == afterFirst;
  }
}
