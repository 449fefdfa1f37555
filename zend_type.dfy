/** `zend_type`: a type declaration as a pointer (a class name or a type
    list) and a 32-bit mask of `MAY_BE_*` bits, kind bits and flags.
    Masks are sets of bit positions, as in module `Bits`. Pointers are
    addresses, with 0 for NULL. */
module ZendType {
  import opened Bits
  import opened ZendTypeCode

  const EXTRA_FLAGS_SHIFT: nat := 25
  /** The bits that make up the type itself: everything below the extra
      flags. */
  const TYPE_MASK: Mask := Below(25)
  const NAME_BIT: Mask := Bit(24)
  const LIST_BIT: Mask := Bit(22)
  /** At most one of the two kind bits is meant to be set. */
  const KIND_MASK: Mask := LIST_BIT + NAME_BIT
  const ITERABLE_BIT: Mask := Bit(21)
  const ARENA_BIT: Mask := Bit(20)
  const INTERSECTION_BIT: Mask := Bit(19)
  const UNION_BIT: Mask := Bit(18)
  /** The `MAY_BE_*` bits. */
  const MAY_BE_MASK: Mask := Below(18)
  /** The same bit as `MAY_BE_NULL`. */
  const NULLABLE_BIT: Mask := Bit(1)

  /** `MAY_BE_FALSE | MAY_BE_TRUE`, each `MAY_BE_x` being `1 << IS_x`. */
  const MAY_BE_BOOL: Mask := Bit(IS_FALSE) + Bit(IS_TRUE)
  /** `MAY_BE_NULL` up to `MAY_BE_RESOURCE`. */
  const MAY_BE_ANY: Mask := Below(IS_RESOURCE + 1) - Bit(IS_UNDEF)

  datatype ZType = ZType(ptr: nat, typeMask: Mask)

  /** `ZEND_TYPE_IS_SET`: some bit of the type is set. */
  predicate IsSet(t: ZType)
  {
    t.typeMask * TYPE_MASK != {}
  }

  /** `ZEND_TYPE_IS_COMPLEX`: a list or a class name. */
  predicate IsComplex(t: ZType)
  {
    t.typeMask * KIND_MASK != {}
  }

  /** `ZEND_TYPE_HAS_NAME` */
  predicate HasName(t: ZType)
  {
    NAME_BIT <= t.typeMask
  }

  /** `ZEND_TYPE_HAS_LIST` */
  predicate HasList(t: ZType)
  {
    LIST_BIT <= t.typeMask
  }

  /** `ZEND_TYPE_IS_ITERABLE_FALLBACK` */
  predicate IsIterableFallback(t: ZType)
  {
    ITERABLE_BIT <= t.typeMask
  }

  /** `ZEND_TYPE_IS_INTERSECTION` */
  predicate IsIntersection(t: ZType)
  {
    INTERSECTION_BIT <= t.typeMask
  }

  /** `ZEND_TYPE_IS_UNION` */
  predicate IsUnion(t: ZType)
  {
    UNION_BIT <= t.typeMask
  }

  /** `ZEND_TYPE_USES_ARENA` */
  predicate UsesArena(t: ZType)
  {
    ARENA_BIT <= t.typeMask
  }

  /** `ZEND_TYPE_IS_ONLY_MASK`: a type made of `MAY_BE_*` bits alone. */
  predicate IsOnlyMask(t: ZType)
  {
    IsSet(t) && t.ptr == 0
  }

  /** `ZEND_TYPE_ALLOW_NULL` */
  predicate AllowNull(t: ZType)
  {
    NULLABLE_BIT <= t.typeMask
  }

  /** `ZEND_TYPE_CONTAINS_CODE(t, code)` */
  predicate ContainsCode(t: ZType, code: nat)
    requires code < 32
  {
    code in t.typeMask
  }

  /** A type is set exactly when one of its bits below the extra flags
      (bit 25 on) is set. */
  lemma IsSetMeaning(t: ZType)
    ensures IsSet(t) <==> exists i :: i in t.typeMask && i < EXTRA_FLAGS_SHIFT
  {
    if IsSet(t) {
      var i :| i in t.typeMask * TYPE_MASK;
      assert i < EXTRA_FLAGS_SHIFT;
    }
    if exists i :: i in t.typeMask && i < EXTRA_FLAGS_SHIFT {
      var i :| i in t.typeMask && i < EXTRA_FLAGS_SHIFT;
      assert i in t.typeMask * TYPE_MASK;
    }
  }

  /** `ZEND_TYPE_FULL_MASK` */
  function FullMask(t: ZType): (m: Mask)
    ensures m == t.typeMask
    ensures PureMask(t) <= m && FullMaskWithoutNull(t) <= m
    ensures m == PureMask(t) + (m - MAY_BE_MASK)
  {
    t.typeMask
  }

  /** `ZEND_TYPE_PURE_MASK`: the `MAY_BE_*` bits, every bit from 18 on
      cleared. */
  function PureMask(t: ZType): (m: Mask)
    ensures forall i: nat :: i in m <==> i in t.typeMask && i < 18
  {
    t.typeMask * MAY_BE_MASK
  }

  /** `ZEND_TYPE_FULL_MASK_WITHOUT_NULL`: the full mask but the null bit. */
  function FullMaskWithoutNull(t: ZType): (m: Mask)
    ensures forall i: nat :: i in m <==> i in t.typeMask && i != 1
  {
    t.typeMask - NULLABLE_BIT
  }

  /** `ZEND_TYPE_PURE_MASK_WITHOUT_NULL`: the pure mask but the null bit. */
  function PureMaskWithoutNull(t: ZType): (m: Mask)
    ensures forall i: nat :: i in m <==> i in PureMask(t) && i != 1
    ensures !AllowNull(ZType(t.ptr, m))
  {
    t.typeMask * MAY_BE_MASK - NULLABLE_BIT
  }

  /** `ZEND_TYPE_INIT_NONE(extra_flags)` */
  function InitNone(extraFlags: Mask): (t: ZType)
    ensures t.ptr == 0 && t.typeMask == extraFlags
    ensures t == InitMask(extraFlags)
    ensures IsSet(t) <==> exists i :: i in extraFlags && i < EXTRA_FLAGS_SHIFT
  {
    IsSetMeaning(ZType(0, extraFlags));
    ZType(0, extraFlags)
  }

  /** `ZEND_TYPE_INIT_MASK(type_mask)` */
  function InitMask(typeMask: Mask): (t: ZType)
    ensures t.ptr == 0 && t.typeMask == typeMask
    ensures IsOnlyMask(t) <==> typeMask * TYPE_MASK != {}
  {
    ZType(0, typeMask)
  }

  /** The bits `ZEND_TYPE_INIT_CODE` sets for a type code. */
  function CodeMask(code: nat): Mask
    requires code <= IS_NUMBER
  {
    if code == IS_BOOL then MAY_BE_BOOL
    else if code == IS_ITERABLE then ITERABLE_BIT
    else if code == IS_MIXED then MAY_BE_ANY
    else Bit(code)
  }

  /** `ZEND_TYPE_INIT_CODE(code, allow_null, extra_flags)`: a plain mask
      type. `bool` stands for both `false` and `true`, `iterable` for the
      iterable fallback bit, `mixed` for every value type; any other code
      for its own bit. */
  function InitCode(code: nat, allowNull: bool, extraFlags: Mask): (t: ZType)
    requires code <= IS_NUMBER
    ensures t.ptr == 0 && IsOnlyMask(t)
    ensures AllowNull(t) <==> allowNull || code == IS_NULL || code == IS_MIXED || 1 in extraFlags
    ensures t.typeMask == CodeMask(code) + (if allowNull then NULLABLE_BIT else {}) + extraFlags
    ensures code == IS_BOOL ==> ContainsCode(t, IS_FALSE) && ContainsCode(t, IS_TRUE)
    ensures code == IS_ITERABLE ==> IsIterableFallback(t)
    ensures code == IS_MIXED ==> forall c :: IS_NULL <= c <= IS_RESOURCE ==> ContainsCode(t, c)
    ensures code != IS_BOOL && code != IS_ITERABLE && code != IS_MIXED ==> ContainsCode(t, code)
    ensures extraFlags <= t.typeMask
  {
    var m := CodeMask(code);
    var w := if code == IS_BOOL then IS_FALSE else if code == IS_ITERABLE then 21
             else if code == IS_MIXED then IS_NULL else code;
    assert w in m * TYPE_MASK;
    ZType(0, m + (if allowNull then NULLABLE_BIT else {}) + extraFlags)
  }

  /** `ZEND_TYPE_INIT_PTR(ptr, type_kind, allow_null, extra_flags)` */
  function InitPtr(ptr: nat, typeKind: Mask, allowNull: bool, extraFlags: Mask): (t: ZType)
    ensures t.ptr == ptr && typeKind + extraFlags <= t.typeMask
    ensures AllowNull(t) <==> allowNull || AllowNull(ZType(ptr, typeKind + extraFlags))
  {
    ZType(ptr, typeKind + (if allowNull then NULLABLE_BIT else {}) + extraFlags)
  }

  /** `ZEND_TYPE_INIT_PTR_MASK(ptr, type_mask)` */
  function InitPtrMask(ptr: nat, typeMask: Mask): (t: ZType)
    ensures t.ptr == ptr && t.typeMask == typeMask
    ensures t == InitPtr(ptr, typeMask, false, {})
    ensures ptr == 0 ==> t == InitMask(typeMask)
  {
    ZType(ptr, typeMask)
  }

  /** `ZEND_TYPE_INIT_UNION(ptr, extra_flags)`: a union type list. */
  function InitUnion(ptr: nat, extraFlags: Mask): (t: ZType)
    ensures t.ptr == ptr && IsComplex(t) && HasList(t) && IsUnion(t) && IsSet(t)
    ensures extraFlags <= t.typeMask
  {
    ZType(ptr, LIST_BIT + UNION_BIT + extraFlags)
  }

  /** `ZEND_TYPE_INIT_INTERSECTION(ptr, extra_flags)`: an intersection
      type list. */
  function InitIntersection(ptr: nat, extraFlags: Mask): (t: ZType)
    ensures t.ptr == ptr && IsComplex(t) && HasList(t) && IsIntersection(t) && IsSet(t)
    ensures extraFlags <= t.typeMask
  {
    ZType(ptr, LIST_BIT + INTERSECTION_BIT + extraFlags)
  }

  /** `ZEND_TYPE_INIT_CLASS(class_name, allow_null, extra_flags)`, and
      `ZEND_TYPE_INIT_CLASS_CONST`, which expands the same way. */
  function InitClass(className: nat, allowNull: bool, extraFlags: Mask): (t: ZType)
    ensures t.ptr == className && HasName(t) && IsComplex(t) && IsSet(t)
    ensures allowNull ==> AllowNull(t)
    ensures className != 0 ==> !IsOnlyMask(t)
  {
    InitPtr(className, NAME_BIT, allowNull, extraFlags)
  }

  /** `ZEND_TYPE_INIT_CLASS_CONST_MASK(class_name, type_mask)` */
  function InitClassConstMask(className: nat, typeMask: Mask): (t: ZType)
    ensures t.ptr == className && HasName(t) && typeMask <= t.typeMask
  {
    InitPtrMask(className, NAME_BIT + typeMask)
  }

  /** `ZEND_TYPE_LIST_SIZE(num_types)` on LP64: a 4-byte count padded to 8,
      then 16-byte `zend_type`s, one of them inside the struct. */
  function ListSize(numTypes: nat): (size: nat)
    requires numTypes >= 1
    ensures size == 8 + 16 * numTypes
  {
    24 + (numTypes - 1) * 16
  }

  /** `ZEND_TYPE_SET_PTR_AND_KIND(t, ptr, kind_bit)` as a value: the new
      pointer, the kind bits replaced, everything else kept. */
  function WithPtrAndKind(t: ZType, ptr: nat, kindBit: Mask): (r: ZType)
    requires kindBit == NAME_BIT || kindBit == LIST_BIT
    ensures r.ptr == ptr
    ensures r.typeMask - KIND_MASK == t.typeMask - KIND_MASK
    ensures HasName(r) <==> kindBit == NAME_BIT
    ensures HasList(r) <==> kindBit == LIST_BIT
    ensures IsComplex(r) && IsSet(r)
  {
    ZType(ptr, (t.typeMask - KIND_MASK) + kindBit)
  }

  /** Setting a kind twice keeps the last one. */
  lemma SetKindTwice(t: ZType, p: nat, k1: Mask, q: nat, k2: Mask)
    requires k1 == NAME_BIT || k1 == LIST_BIT
    requires k2 == NAME_BIT || k2 == LIST_BIT
    ensures WithPtrAndKind(WithPtrAndKind(t, p, k1), q, k2) == WithPtrAndKind(t, q, k2)
  {
    var a := WithPtrAndKind(WithPtrAndKind(t, p, k1), q, k2);
    var b := WithPtrAndKind(t, q, k2);
    assert a.typeMask == b.typeMask by {
      assert a.typeMask - KIND_MASK == b.typeMask - KIND_MASK;
      assert a.typeMask * KIND_MASK == k2;
      assert b.typeMask * KIND_MASK == k2;
    }
  }

  /** A `zend_type` field that `ZEND_TYPE_SET_*` updates in place. */
  class TypeField {
    var t: ZType

    constructor (t: ZType)
      ensures this.t == t
    {
      this.t := t;
    }

    /** `ZEND_TYPE_SET_PTR(t, ptr)`: the mask is left alone. */
    method SetPtr(ptr: nat)
      modifies this
      ensures t == old(t).(ptr := ptr)
    {
      t := t.(ptr := ptr);
    }

    /** `ZEND_TYPE_SET_PTR_AND_KIND(t, ptr, kind_bit)` */
    method SetPtrAndKind(ptr: nat, kindBit: Mask)
      requires kindBit == NAME_BIT || kindBit == LIST_BIT
      modifies this
      ensures t == WithPtrAndKind(old(t), ptr, kindBit)
    {
      t := t.(ptr := ptr);
      t := t.(typeMask := t.typeMask - KIND_MASK);
      t := t.(typeMask := t.typeMask + kindBit);
    }

    /** `ZEND_TYPE_SET_LIST(t, list)` */
    method SetList(list: nat)
      modifies this
      ensures t == WithPtrAndKind(old(t), list, LIST_BIT)
    {
      SetPtrAndKind(list, LIST_BIT);
    }
  }

  /** The type lists in memory, by address: the `types` of each
      `zend_type_list`, `num_types` of them. */
  type Lists = map<nat, seq<ZType>>

  /** A type whose list is in memory and, like every list the engine
      builds, not empty (the loop below visits one element before it
      tests the end). */
  predicate Walkable(t: ZType, lists: Lists)
  {
    HasList(t) ==> t.ptr in lists && |lists[t.ptr]| >= 1
  }

  /** What `ZEND_TYPE_FOREACH` visits: every element of the list for a
      list type, the type itself otherwise. */
  function Visited(t: ZType, lists: Lists): (v: seq<ZType>)
    requires Walkable(t, lists)
    ensures HasList(t) ==> |v| == |lists[t.ptr]|
    ensures !HasList(t) ==> |v| == 1 && v[0] == t
  {
    if HasList(t) then lists[t.ptr] else [t]
  }

  /** `ZEND_TYPE_FOREACH(type, type_ptr) ... ZEND_TYPE_FOREACH_END()`: the
      types `type_ptr` points at, in order. */
  method Foreach(t: ZType, lists: Lists) returns (visited: seq<ZType>)
    requires Walkable(t, lists)
    ensures visited == Visited(t, lists)
  {
    var items: seq<ZType>;
    if HasList(t) {
      items := lists[t.ptr];
    } else {
      items := [t];
    }
    var cur := 0;
    var end := |items|;
    visited := [items[cur]];
    cur := cur + 1;
    while cur < end
      invariant 1 <= cur <= end && visited == items[..cur]
    {
      visited := visited + [items[cur]];
      cur := cur + 1;
    }
  }
}
