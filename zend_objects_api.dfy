/** The object store's bucket tagging: a bucket holds either a pointer to a
    live object (even, since objects are aligned) or, once freed, the next
    free handle shifted left with bit 0 set. Pointers are 64-bit words. */
module ZendObjectsApi {
  import opened Bytes

  type int32 = x: int | -0x8000_0000 <= x < 0x8000_0000

  const OBJ_BUCKET_INVALID: nat := 1

  /** `IS_OBJ_VALID(o)`: bit 0 is clear. */
  predicate IsObjValid(o: uint64)
  {
    o % 2 == 0
  }

  /** `SET_OBJ_INVALID(o)`: `o | OBJ_BUCKET_INVALID`. */
  function SetObjInvalid(o: uint64): (r: uint64)
    ensures !IsObjValid(r)
    ensures r / 2 == o / 2
    ensures IsObjValid(o) ==> r == o + 1
    ensures !IsObjValid(o) ==> r == o
  {
    o - o % 2 + OBJ_BUCKET_INVALID
  }

  /** `(intptr_t)o`: the word read as a two's-complement signed integer. */
  function Signed(o: uint64): int
  {
    if o < 0x8000_0000_0000_0000 then o else o - 0x1_0000_0000_0000_0000
  }

  /** `GET_OBJ_BUCKET_NUMBER(o)`: `(intptr_t)o >> 1`, an arithmetic shift,
      which rounds toward minus infinity. */
  function GetObjBucketNumber(o: uint64): (n: int)
    ensures 2 * n <= Signed(o) < 2 * n + 2
  {
    Signed(o) / 2
  }

  /** The word `SET_OBJ_BUCKET_NUMBER(o, n)` stores:
      `((uintptr_t)n << 1) | OBJ_BUCKET_INVALID`, every step modulo 2^64. */
  function BucketTag(n: int32): (o: uint64)
    ensures !IsObjValid(o)
    ensures GetObjBucketNumber(o) == n
  {
    var word := n % 0x1_0000_0000_0000_0000;
    var shifted := word * 2 % 0x1_0000_0000_0000_0000;
    assert n >= 0 ==> shifted == 2 * n;
    assert n < 0 ==> shifted == 2 * n + 0x1_0000_0000_0000_0000;
    shifted + OBJ_BUCKET_INVALID
  }

  /** The handle a free bucket links to. */
  function Next(buckets: seq<uint64>, h: nat): int
    requires h < |buckets|
  {
    GetObjBucketNumber(buckets[h])
  }

  /** `ZEND_OBJECTS_STORE_ADD_TO_FREE_LIST(h)` on values: bucket `h` now
      links to the old head, which becomes `h`. */
  function AddedToFreeList(buckets: seq<uint64>, head: int32, h: nat): (r: (seq<uint64>, int32))
    requires h < |buckets| && h < 0x8000_0000
    ensures |r.0| == |buckets| && r.1 == h
    ensures !IsObjValid(r.0[h]) && Next(r.0, h) == head
    ensures forall i :: 0 <= i < |buckets| && i != h ==> r.0[i] == buckets[i]
  {
    (buckets[h := BucketTag(head)], h)
  }

  /** Freeing `h1`, then `h2`, chains them last in, first out: the head is
      `h2`, which leads to `h1`, which leads to the old head. */
  lemma FreeListIsLifo(buckets: seq<uint64>, head: int32, h1: nat, h2: nat)
    requires h1 < |buckets| && h1 < 0x8000_0000
    requires h2 < |buckets| && h2 < 0x8000_0000
    requires h1 != h2
    ensures var (b1, head1) := AddedToFreeList(buckets, head, h1);
      var (b2, head2) := AddedToFreeList(b1, head1, h2);
      head2 == h2 && Next(b2, h2) == h1 && Next(b2, h1) == head
      && (forall i :: 0 <= i < |buckets| && i != h1 && i != h2 ==> b2[i] == buckets[i])
  {
    var (b1, head1) := AddedToFreeList(buckets, head, h1);
    var (b2, head2) := AddedToFreeList(b1, head1, h2);
    assert b2[h1] == b1[h1];
  }

  /** `zend_objects_store`: the bucket array and the head of the free
      list (-1 when empty). */
  class ObjectsStore {
    var objectBuckets: array<uint64>
    var top: uint32
    var size: uint32
    var freeListHead: int32

    constructor (size: uint32)
      ensures objectBuckets.Length == size && fresh(objectBuckets)
      ensures top == 0 && this.size == size && freeListHead == -1
    {
      objectBuckets := new uint64[size];
      top := 0;
      this.size := size;
      freeListHead := -1;
    }

    /** `SET_OBJ_BUCKET_NUMBER(object_buckets[h], n)` */
    method SetObjBucketNumber(h: nat, n: int32)
      requires h < objectBuckets.Length
      modifies objectBuckets
      ensures objectBuckets[..] == old(objectBuckets[..])[h := BucketTag(n)]
    {
      var word := n % 0x1_0000_0000_0000_0000;
      objectBuckets[h] := word * 2 % 0x1_0000_0000_0000_0000 + OBJ_BUCKET_INVALID;
    }

    /** `ZEND_OBJECTS_STORE_ADD_TO_FREE_LIST(h)` */
    method AddToFreeList(h: nat)
      requires h < objectBuckets.Length && h < 0x8000_0000
      modifies this, objectBuckets
      ensures objectBuckets == old(objectBuckets) && top == old(top) && size == old(size)
      ensures (objectBuckets[..], freeListHead) == AddedToFreeList(old(objectBuckets[..]), old(freeListHead), h)
    {
      SetObjBucketNumber(h, freeListHead);
      freeListHead := h;
    }
  }
}
