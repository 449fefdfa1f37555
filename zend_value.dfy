/** `zval`: a value word and a 32-bit `type_info` holding the type code
    (low byte), the type flags (next byte) and 16 extra bits. Counted
    values (strings, arrays, objects, resources, references, ASTs) point
    to a `zend_refcounted` header whose reference count and `GC_*` flags
    are kept here as plain fields. */
module ZendValue {
  import opened Wrappers
  import opened Bytes
  import opened ZendTypeCode

  const Z_TYPE_MASK: nat := 0xff
  const Z_TYPE_FLAGS_MASK: nat := 0xff00
  const Z_TYPE_FLAGS_SHIFT: nat := 8
  const Z_TYPE_INFO_EXTRA_SHIFT: nat := 16

  // `zval.u1.v.type_flags`
  const IS_TYPE_REFCOUNTED: uint8 := 1
  const IS_TYPE_COLLECTABLE: uint8 := 2

  /** `Z_TYPE` and `Z_OPT_TYPE`: the low byte of `type_info`. */
  function TypeOf(typeInfo: uint32): uint8
  {
    typeInfo % 0x100
  }

  /** `Z_TYPE_FLAGS`: the second byte. */
  function Flags(typeInfo: uint32): uint8
  {
    typeInfo / 0x100 % 0x100
  }

  /** `Z_TYPE_EXTRA`: the upper 16 bits. */
  function Extra(typeInfo: uint32): uint16
  {
    typeInfo / 0x1_0000
  }

  /** The `type_info` whose three fields are `code`, `flags` and `extra`. */
  function Pack(code: uint8, flags: uint8, extra: uint16): (typeInfo: uint32)
    ensures TypeOf(typeInfo) == code && Flags(typeInfo) == flags && Extra(typeInfo) == extra
  {
    code + flags * 0x100 + extra * 0x1_0000
  }

  /** Every `type_info` is the packing of its three fields. */
  lemma Unpack(typeInfo: uint32)
    ensures Pack(TypeOf(typeInfo), Flags(typeInfo), Extra(typeInfo)) == typeInfo
  {
    var q := typeInfo / 0x100;
    assert typeInfo == TypeOf(typeInfo) + q * 0x100;
    assert q == Flags(typeInfo) + Extra(typeInfo) * 0x100;
  }

  /** `Z_REFCOUNTED`: the flags byte is not zero. */
  predicate IsRefcounted(typeInfo: uint32)
  {
    Flags(typeInfo) != 0
  }

  /** `Z_TYPE_INFO_REFCOUNTED(t)`, `(t & Z_TYPE_FLAGS_MASK) != 0`, also
      behind `Z_OPT_REFCOUNTED`. */
  predicate TypeInfoRefcounted(typeInfo: uint32)
  {
    typeInfo % 0x1_0000 >= 0x100
  }

  /** The mask test on the whole word and the byte test agree. */
  lemma RefcountedIsFlagsByte(typeInfo: uint32)
    ensures TypeInfoRefcounted(typeInfo) <==> IsRefcounted(typeInfo)
  {
    Unpack(typeInfo);
    assert typeInfo % 0x1_0000 == TypeOf(typeInfo) + Flags(typeInfo) * 0x100;
  }

  /** `Z_COLLECTABLE`: bit 1 of the flags byte. */
  predicate IsCollectable(typeInfo: uint32)
  {
    Flags(typeInfo) / 2 % 2 == 1
  }

  /** `Z_IMMUTABLE`: the word is exactly `IS_ARRAY`. */
  predicate IsImmutable(typeInfo: uint32)
  {
    typeInfo == IS_ARRAY
  }

  /** Immutable means an array that is not refcounted and has no extra
      bits, and nothing else. */
  lemma ImmutableMeaning(typeInfo: uint32)
    ensures IsImmutable(typeInfo) <==>
      TypeOf(typeInfo) == IS_ARRAY && !IsRefcounted(typeInfo) && Extra(typeInfo) == 0
  {
    if TypeOf(typeInfo) == IS_ARRAY && !IsRefcounted(typeInfo) && Extra(typeInfo) == 0 {
      assert typeInfo < 0x1_0000;
      assert typeInfo / 0x100 == 0;
    }
  }

  // The extended types: a code with its flags.
  const IS_INTERNED_STRING_EX: uint32 := IS_STRING
  const IS_STRING_EX: uint32 := IS_STRING + IS_TYPE_REFCOUNTED * 0x100
  const IS_ARRAY_EX: uint32 := IS_ARRAY + (IS_TYPE_REFCOUNTED + IS_TYPE_COLLECTABLE) * 0x100
  const IS_OBJECT_EX: uint32 := IS_OBJECT + (IS_TYPE_REFCOUNTED + IS_TYPE_COLLECTABLE) * 0x100
  const IS_RESOURCE_EX: uint32 := IS_RESOURCE + IS_TYPE_REFCOUNTED * 0x100
  const IS_REFERENCE_EX: uint32 := IS_REFERENCE + IS_TYPE_REFCOUNTED * 0x100
  const IS_CONSTANT_AST_EX: uint32 := IS_CONSTANT_AST + IS_TYPE_REFCOUNTED * 0x100

  /** Each extended type has its base code in the low byte and is
      refcounted; only arrays and objects are collectable; an interned
      string is a plain `IS_STRING`. */
  lemma ExtendedTypes()
    ensures TypeOf(IS_STRING_EX) == IS_STRING && TypeOf(IS_ARRAY_EX) == IS_ARRAY
    ensures TypeOf(IS_OBJECT_EX) == IS_OBJECT && TypeOf(IS_RESOURCE_EX) == IS_RESOURCE
    ensures TypeOf(IS_REFERENCE_EX) == IS_REFERENCE && TypeOf(IS_CONSTANT_AST_EX) == IS_CONSTANT_AST
    ensures IsRefcounted(IS_STRING_EX) && IsRefcounted(IS_ARRAY_EX) && IsRefcounted(IS_OBJECT_EX)
    ensures IsRefcounted(IS_RESOURCE_EX) && IsRefcounted(IS_REFERENCE_EX) && IsRefcounted(IS_CONSTANT_AST_EX)
    ensures IsCollectable(IS_ARRAY_EX) && IsCollectable(IS_OBJECT_EX)
    ensures !IsCollectable(IS_STRING_EX) && !IsCollectable(IS_RESOURCE_EX)
    ensures !IsCollectable(IS_REFERENCE_EX) && !IsCollectable(IS_CONSTANT_AST_EX)
    ensures TypeOf(IS_INTERNED_STRING_EX) == IS_STRING && !IsRefcounted(IS_INTERNED_STRING_EX)
    ensures !IsImmutable(IS_ARRAY_EX) && IsImmutable(IS_ARRAY)
  {
  }

  /** The `type_info` `ZVAL_STR` stores: interned strings are not
      refcounted. */
  function StrTypeInfo(interned: bool): (typeInfo: uint32)
    ensures TypeOf(typeInfo) == IS_STRING && Extra(typeInfo) == 0
    ensures IsRefcounted(typeInfo) <==> !interned
  {
    if interned then IS_INTERNED_STRING_EX else IS_STRING_EX
  }

  /** The `type_info` `ZVAL_BOOL` stores. */
  function BoolTypeInfo(b: bool): (typeInfo: uint32)
    ensures TypeOf(typeInfo) == (if b then IS_TRUE else IS_FALSE)
    ensures !IsRefcounted(typeInfo) && Extra(typeInfo) == 0
    ensures TypeOfCode(TypeOf(typeInfo)) == Some(if b then True else False)
  {
    if b then IS_TRUE else IS_FALSE
  }

  /** A `zend_refcounted` header: the count and the flags the macros test. */
  class Refcounted {
    var refcount: nat
    var immutable: bool
    var persistent: bool
    var interned: bool

    constructor (refcount: nat, immutable: bool, persistent: bool, interned: bool)
      ensures this.refcount == refcount && this.immutable == immutable
      ensures this.persistent == persistent && this.interned == interned
    {
      this.refcount := refcount;
      this.immutable := immutable;
      this.persistent := persistent;
      this.interned := interned;
    }
  }

  /** `zend_value`: a plain word (a long, a pointer not counted) or a
      pointer to a counted value. */
  datatype Value = Word(w: int) | Counted(gc: Refcounted)

  /** The header a value points to, if any. */
  function Header(v: Value): set<object>
  {
    if v.Counted? then {v.gc} else {}
  }

  /** The types whose value is a counted pointer. */
  predicate PointsToCounted(code: uint8)
  {
    IS_STRING <= code <= IS_CONSTANT_AST
  }

  /** A `type_info` of a counted type, or with type flags, goes with a
      counted pointer. */
  predicate WellFormed(typeInfo: uint32, v: Value)
  {
    (PointsToCounted(TypeOf(typeInfo)) || IsRefcounted(typeInfo)) ==> v.Counted?
  }

  /** A `zval`; `u2` is the second word (`Z_EXTRA`, the property flags). */
  class Zval {
    var value: Value
    var typeInfo: uint32
    var u2: uint32

    constructor ()
      ensures value == Word(0) && typeInfo == IS_UNDEF && u2 == 0
    {
      value := Word(0);
      typeInfo := IS_UNDEF;
      u2 := 0;
    }

    predicate Valid()
      reads this
    {
      WellFormed(typeInfo, value)
    }

    /** `ZVAL_UNDEF`, `ZVAL_NULL`, `ZVAL_FALSE`, `ZVAL_TRUE` and
        `_IS_ERROR` (`ZVAL_ERROR`): only the type changes. */
    method SetType(code: uint8)
      requires code in {IS_UNDEF, IS_NULL, IS_FALSE, IS_TRUE, IS_ERROR}
      modifies this
      ensures typeInfo == code && value == old(value) && u2 == old(u2)
      ensures Valid()
    {
      typeInfo := code;
    }

    /** `ZVAL_BOOL(z, b)` */
    method SetBool(b: bool)
      modifies this
      ensures typeInfo == BoolTypeInfo(b) && value == old(value) && u2 == old(u2)
      ensures Valid()
    {
      typeInfo := if b then IS_TRUE else IS_FALSE;
    }

    /** `ZVAL_LONG(z, l)` */
    method SetLong(l: int)
      modifies this
      ensures typeInfo == IS_LONG && value == Word(l) && u2 == old(u2)
      ensures Valid()
    {
      value := Word(l);
      typeInfo := IS_LONG;
    }

    /** `ZVAL_INDIRECT`, `ZVAL_PTR` (also `ZVAL_FUNC` and `ZVAL_CE`) and
        `ZVAL_ALIAS_PTR`: an uncounted pointer. */
    method SetPointer(p: int, code: uint8)
      requires code in {IS_INDIRECT, IS_PTR, IS_ALIAS_PTR}
      modifies this
      ensures typeInfo == code && value == Word(p) && u2 == old(u2)
      ensures Valid()
    {
      value := Word(p);
      typeInfo := code;
    }

    /** `ZVAL_STR(z, s)`: the type depends on whether `s` is interned; no
        count changes. */
    method SetStr(s: Refcounted)
      modifies this
      ensures typeInfo == StrTypeInfo(s.interned) && value == Counted(s) && u2 == old(u2)
      ensures Valid()
    {
      value := Counted(s);
      typeInfo := if s.interned then IS_INTERNED_STRING_EX else IS_STRING_EX;
    }

    /** `ZVAL_INTERNED_STR(z, s)` */
    method SetInternedStr(s: Refcounted)
      modifies this
      ensures typeInfo == IS_INTERNED_STRING_EX && value == Counted(s) && u2 == old(u2)
      ensures Valid()
    {
      value := Counted(s);
      typeInfo := IS_INTERNED_STRING_EX;
    }

    /** `ZVAL_STR_COPY(z, s)`: like `ZVAL_STR`, and one more reference
        to `s` unless it is interned. */
    method SetStrCopy(s: Refcounted)
      modifies this, s
      ensures typeInfo == StrTypeInfo(old(s.interned)) && value == Counted(s) && u2 == old(u2)
      ensures s.refcount == if old(s.interned) then old(s.refcount) else old(s.refcount) + 1
      ensures s.interned == old(s.interned) && s.immutable == old(s.immutable) && s.persistent == old(s.persistent)
      ensures Valid()
    {
      value := Counted(s);
      if s.interned {
        typeInfo := IS_INTERNED_STRING_EX;
      } else {
        s.refcount := s.refcount + 1;
        typeInfo := IS_STRING_EX;
      }
    }

    /** `ZVAL_NEW_STR`, `ZVAL_ARR`, `ZVAL_OBJ`, `ZVAL_RES`, `ZVAL_REF` and
        `ZVAL_AST`: a counted pointer under its extended type; no count
        changes. */
    method SetCounted(gc: Refcounted, typeEx: uint32)
      requires typeEx in {IS_STRING_EX, IS_ARRAY_EX, IS_OBJECT_EX, IS_RESOURCE_EX, IS_REFERENCE_EX, IS_CONSTANT_AST_EX}
      modifies this
      ensures typeInfo == typeEx && value == Counted(gc) && u2 == old(u2)
      ensures IsRefcounted(typeInfo) && Valid()
    {
      value := Counted(gc);
      typeInfo := typeEx;
    }

    /** `ZVAL_OBJ_COPY(z, o)`: one more reference to `o`. */
    method SetObjCopy(o: Refcounted)
      modifies this, o
      ensures typeInfo == IS_OBJECT_EX && value == Counted(o) && u2 == old(u2)
      ensures o.refcount == old(o.refcount) + 1
      ensures o.interned == old(o.interned) && o.immutable == old(o.immutable) && o.persistent == old(o.persistent)
      ensures Valid()
    {
      o.refcount := o.refcount + 1;
      value := Counted(o);
      typeInfo := IS_OBJECT_EX;
    }

    /** `ZVAL_NEW_RES` and `ZVAL_NEW_PERSISTENT_RES`: a new resource with
        one reference; the handle, type and pointer are not modelled. */
    method SetNewRes(persistent: bool)
      modifies this
      ensures typeInfo == IS_RESOURCE_EX && value.Counted? && fresh(value.gc) && u2 == old(u2)
      ensures value.gc.refcount == 1 && value.gc.persistent == persistent
      ensures !value.gc.immutable && !value.gc.interned
      ensures Valid()
    {
      var res := new Refcounted(1, false, persistent, false);
      value := Counted(res);
      typeInfo := IS_RESOURCE_EX;
    }

    /** `ZVAL_COPY_VALUE(z, v)`: the value and `type_info`, no count
        changes; `u2` is not copied. */
    method CopyValue(v: Zval)
      modifies this
      ensures value == old(v.value) && typeInfo == old(v.typeInfo) && u2 == old(u2)
      ensures old(v.Valid()) ==> Valid()
    {
      var gc, t := v.value, v.typeInfo;
      value := gc;
      typeInfo := t;
    }

    /** `ZVAL_COPY(z, v)`: `ZVAL_COPY_VALUE` and one more reference when
        the type is refcounted. */
    method Copy(v: Zval)
      requires v.Valid()
      modifies this, Header(v.value)
      ensures Valid() && value == old(v.value) && typeInfo == old(v.typeInfo) && u2 == old(u2)
      ensures value.Counted? ==>
        value.gc.refcount == (if IsRefcounted(typeInfo) then old(v.value.gc.refcount) + 1 else old(v.value.gc.refcount))
      ensures value.Counted? ==>
        (value.gc.interned == old(v.value.gc.interned) && value.gc.immutable == old(v.value.gc.immutable)
         && value.gc.persistent == old(v.value.gc.persistent))
    {
      var gc, t := v.value, v.typeInfo;
      value := gc;
      typeInfo := t;
      if t % 0x1_0000 >= 0x100 {
        RefcountedIsFlagsByte(t);
        gc.gc.refcount := gc.gc.refcount + 1;
      }
    }

    /** `ZVAL_COPY_VALUE_PROP(z, v)`: the whole `zval`, `u2` included. */
    method CopyValueProp(v: Zval)
      modifies this
      ensures value == old(v.value) && typeInfo == old(v.typeInfo) && u2 == old(v.u2)
      ensures old(v.Valid()) ==> Valid()
    {
      value, typeInfo, u2 := v.value, v.typeInfo, v.u2;
    }

    /** `ZVAL_COPY_PROP(z, v)`: `ZVAL_COPY`, then the property flags. */
    method CopyProp(v: Zval)
      requires v.Valid()
      modifies this, Header(v.value)
      ensures Valid() && value == old(v.value) && typeInfo == old(v.typeInfo) && u2 == old(v.u2)
      ensures value.Counted? ==>
        value.gc.refcount == (if IsRefcounted(typeInfo) then old(v.value.gc.refcount) + 1 else old(v.value.gc.refcount))
    {
      var flags := v.u2;
      Copy(v);
      u2 := flags;
    }

    /** `ZVAL_DUP(z, v)`: an array is duplicated (the new array has one
        reference and is stored as `IS_ARRAY_EX`); anything else is copied
        as by `ZVAL_COPY`. */
    method Dup(v: Zval)
      requires v.Valid()
      modifies this, Header(v.value)
      ensures Valid() && u2 == old(u2)
      ensures TypeOf(old(v.typeInfo)) == IS_ARRAY ==>
        typeInfo == IS_ARRAY_EX && value.Counted? && fresh(value.gc) && value.gc.refcount == 1
        && !value.gc.immutable && !value.gc.persistent
        && old(v.value).gc.refcount == old(v.value.gc.refcount)
      ensures TypeOf(old(v.typeInfo)) != IS_ARRAY ==> value == old(v.value) && typeInfo == old(v.typeInfo)
      ensures TypeOf(old(v.typeInfo)) != IS_ARRAY && value.Counted? ==>
        value.gc.refcount == (if IsRefcounted(typeInfo) then old(v.value.gc.refcount) + 1 else old(v.value.gc.refcount))
    {
      if v.typeInfo % 0x100 == IS_ARRAY {
        var copy := new Refcounted(1, false, false, false);
        value := Counted(copy);
        typeInfo := IS_ARRAY_EX;
      } else {
        Copy(v);
      }
    }

    /** `Z_TRY_ADDREF_P`: one more reference if the value is refcounted. */
    method TryAddref()
      requires Valid()
      modifies Header(value)
      ensures IsRefcounted(typeInfo) ==> value.gc.refcount == old(value.gc.refcount) + 1
      ensures !IsRefcounted(typeInfo) && value.Counted? ==> value.gc.refcount == old(value.gc.refcount)
    {
      if Flags(typeInfo) != 0 {
        value.gc.refcount := value.gc.refcount + 1;
      }
    }

    /** `Z_TRY_DELREF_P`: one reference less if the value is refcounted. */
    method TryDelref()
      requires Valid() && (IsRefcounted(typeInfo) ==> value.gc.refcount > 0)
      modifies Header(value)
      ensures IsRefcounted(typeInfo) ==> value.gc.refcount == old(value.gc.refcount) - 1
      ensures !IsRefcounted(typeInfo) && value.Counted? ==> value.gc.refcount == old(value.gc.refcount)
    {
      if Flags(typeInfo) != 0 {
        value.gc.refcount := value.gc.refcount - 1;
      }
    }

    /** `zend_may_modify_arg_in_place`: refcounted, neither immutable nor
        persistent, and this is the only reference. */
    predicate MayModifyArgInPlace()
      requires Valid()
      reads this, Header(value)
    {
      IsRefcounted(typeInfo) && !value.gc.immutable && !value.gc.persistent && value.gc.refcount == 1
    }

    /** `SEPARATE_ARRAY(zv)`: an array shared with others is replaced by a
        duplicate with one reference, and the original loses this
        reference unless it is immutable. */
    method SeparateArray()
      requires Valid() && TypeOf(typeInfo) == IS_ARRAY && value.Counted?
      modifies this, value.gc
      ensures Valid() && u2 == old(u2)
      ensures old(value.gc.refcount) <= 1 ==>
        value == old(value) && typeInfo == old(typeInfo) && value.gc.refcount == old(value.gc.refcount)
      ensures old(value.gc.refcount) > 1 ==>
        typeInfo == IS_ARRAY_EX && fresh(value.gc) && MayModifyArgInPlace()
        && old(value).gc.refcount == (if old(value.gc.immutable) then old(value.gc.refcount) else old(value.gc.refcount) - 1)
    {
      var arr := value.gc;
      if arr.refcount > 1 {
        var copy := new Refcounted(1, false, false, false);
        value := Counted(copy);
        typeInfo := IS_ARRAY_EX;
        if !arr.immutable {
          arr.refcount := arr.refcount - 1;
        }
      }
    }
  }
}
