/** The tagged `zend_property_info_source_list`: one property-info
    pointer, or a list pointer with bit 0 set. Pointers are 64-bit words. */
module ZendPropertyInfo {
  import opened Bytes

  /** `ZEND_PROPERTY_INFO_SOURCE_IS_LIST(list)`: bit 0 is set. */
  predicate IsList(list: uint64)
  {
    list % 2 == 1
  }

  /** `ZEND_PROPERTY_INFO_SOURCE_FROM_LIST(list)`: `0x1 | list`. */
  function FromList(list: uint64): (r: uint64)
    ensures IsList(r) && r / 2 == list / 2
  {
    list - list % 2 + 1
  }

  /** `ZEND_PROPERTY_INFO_SOURCE_TO_LIST(list)`: `list & ~0x1`. */
  function ToList(list: uint64): (r: uint64)
    ensures !IsList(r) && r / 2 == list / 2
  {
    list - list % 2
  }

  /** Tagging then untagging an aligned list pointer gives it back, and
      untagging then tagging a tagged word gives it back. */
  lemma RoundTrips(p: uint64, list: uint64)
    ensures !IsList(p) ==> ToList(FromList(p)) == p
    ensures IsList(list) ==> FromList(ToList(list)) == list
  {
  }

  /** Tagging and untagging are each idempotent. */
  lemma Idempotent(list: uint64)
    ensures FromList(FromList(list)) == FromList(list)
    ensures ToList(ToList(list)) == ToList(list)
  {
  }

  /** A plain (aligned, so even) property-info pointer stored in the union
      reads as not a list, and a tagged list always reads as one. */
  lemma PointerIsNotList(ptr: uint64, list: uint64)
    requires ptr % 8 == 0
    ensures !IsList(ptr) && IsList(FromList(list))
  {
  }
}
