/** `MemoryMapping`: the owner of one `mmap` region. A moved-from object
    holds `MAP_FAILED` and no longer unmaps anything. */
module Mapping {

  /** `MAP_FAILED`, i.e. `(void *)-1`; real addresses are naturals. */
  const MAP_FAILED: int := -1

  /** The kernel's side: the regions `munmap` has been called on, in order. */
  class Kernel {
    var unmapped: seq<(int, nat)>

    constructor ()
      ensures unmapped == []
    {
      unmapped := [];
    }

    /** `munmap(data, size)` */
    method Unmap(data: int, size: nat)
      modifies this
      ensures unmapped == old(unmapped) + [(data, size)]
    {
      unmapped := unmapped + [(data, size)];
    }
  }

  class MemoryMapping {
    var data: int
    var size: nat

    /** `MemoryMapping(_data, _size)`: takes ownership of the region. */
    constructor (data: int, size: nat)
      ensures this.data == data && this.size == size
    {
      this.data := data;
      this.size := size;
    }

    /** The move constructor: takes over the pointer and the size and
        leaves `MAP_FAILED` behind; the source keeps its size. */
    constructor Move(src: MemoryMapping)
      modifies src
      ensures data == old(src.data) && size == old(src.size)
      ensures src.data == MAP_FAILED && src.size == old(src.size)
    {
      data := src.data;
      size := src.size;
      src.data := MAP_FAILED;
    }

    /** The destructor: unmaps the region unless the pointer is `MAP_FAILED`. */
    method Destroy(k: Kernel)
      modifies k
      ensures k.unmapped == old(k.unmapped) + (if data != MAP_FAILED then [(data, size)] else [])
    {
      if data != MAP_FAILED {
        k.Unmap(data, size);
      }
    }

    /** Move assignment: swaps both fields with the source, so the old
        region is unmapped when the source goes. */
    method Assign(src: MemoryMapping)
      modifies this, src
      ensures data == old(src.data) && size == old(src.size)
      ensures src.data == old(data) && src.size == old(size)
    {
      data, src.data := src.data, data;
      size, src.size := src.size, size;
    }

    /** `data()` */
    method Data() returns (r: int)
      ensures r == data
    {
      r := data;
    }

    /** `size()` */
    method Size() returns (r: nat)
      ensures r == size
    {
      r := size;
    }
  }

  /** A region mapped once, moved into a second owner, and both owners
      destroyed: it is unmapped exactly once. */
  method MoveThenDestroy(k: Kernel, data: nat, size: nat)
    modifies k
    ensures k.unmapped == old(k.unmapped) + [(data, size)]
  {
    var first := new MemoryMapping(data, size);
    var second := new MemoryMapping.Move(first);
    first.Destroy(k);
    second.Destroy(k);
  }

  /** Move-assigning twice between the same two objects restores both. */
  method AssignTwice(a: MemoryMapping, b: MemoryMapping)
    modifies a, b
    ensures a.data == old(a.data) && a.size == old(a.size)
    ensures b.data == old(b.data) && b.size == old(b.size)
  {
    a.Assign(b);
    a.Assign(b);
  }

  /** Self-assignment changes nothing. */
  method AssignSelf(a: MemoryMapping)
    modifies a
    ensures a.data == old(a.data) && a.size == old(a.size)
  {
    a.Assign(a);
  }
}
