/** The Zend type codes and the per-object guard word: the property guard
    bits and the recursion-protection bits `var_dump`, `var_export` and
    `json_encode` set while they walk an object. */
module ZendTypeCode {
  import opened Wrappers
  import opened Bits

  // The regular data types.
  const IS_UNDEF: nat := 0
  const IS_NULL: nat := 1
  const IS_FALSE: nat := 2
  const IS_TRUE: nat := 3
  const IS_LONG: nat := 4
  const IS_DOUBLE: nat := 5
  const IS_STRING: nat := 6
  const IS_ARRAY: nat := 7
  const IS_OBJECT: nat := 8
  const IS_RESOURCE: nat := 9
  const IS_REFERENCE: nat := 10
  const IS_CONSTANT_AST: nat := 11
  // Types only used in type hints; they share codes with the internal ones.
  const IS_CALLABLE: nat := 12
  const IS_ITERABLE: nat := 13
  const IS_VOID: nat := 14
  const IS_STATIC: nat := 15
  const IS_MIXED: nat := 16
  const IS_NEVER: nat := 17
  // Internal types.
  const IS_INDIRECT: nat := 12
  const IS_PTR: nat := 13
  const IS_ALIAS_PTR: nat := 14
  const IS_ERROR: nat := 15
  // Types used for casts.
  const IS_BOOL: nat := 18
  const IS_NUMBER: nat := 19

  /** The twelve types a value can have. */
  datatype ValueType =
    | Undef | Null | False | True | Long | Double | String | Array | Object
    | Resource | Reference | ConstantAst

  /** The code of a value type. */
  function Code(t: ValueType): (c: nat)
    ensures c < 12
  {
    match t
    case Undef => IS_UNDEF
    case Null => IS_NULL
    case False => IS_FALSE
    case True => IS_TRUE
    case Long => IS_LONG
    case Double => IS_DOUBLE
    case String => IS_STRING
    case Array => IS_ARRAY
    case Object => IS_OBJECT
    case Resource => IS_RESOURCE
    case Reference => IS_REFERENCE
    case ConstantAst => IS_CONSTANT_AST
  }

  /** The value type a code stands for; codes from 12 on are not value
      types. */
  function TypeOfCode(c: nat): (t: Option<ValueType>)
    ensures t.Some? <==> c < 12
  {
    if c == IS_UNDEF then Some(Undef)
    else if c == IS_NULL then Some(Null)
    else if c == IS_FALSE then Some(False)
    else if c == IS_TRUE then Some(True)
    else if c == IS_LONG then Some(Long)
    else if c == IS_DOUBLE then Some(Double)
    else if c == IS_STRING then Some(String)
    else if c == IS_ARRAY then Some(Array)
    else if c == IS_OBJECT then Some(Object)
    else if c == IS_RESOURCE then Some(Resource)
    else if c == IS_REFERENCE then Some(Reference)
    else if c == IS_CONSTANT_AST then Some(ConstantAst)
    else None
  }

  /** The value type codes are distinct: each one decodes back to its type,
      and only the codes of value types decode. */
  lemma CodesDistinct(t: ValueType, c: nat)
    ensures TypeOfCode(Code(t)) == Some(t)
    ensures TypeOfCode(c) == Some(t) ==> Code(t) == c
  {
  }

  /** The hint-only codes 12 to 15 are the internal codes 12 to 15; the
      cast codes come after all of them. */
  lemma HintCodesOverlapInternal()
    ensures IS_CALLABLE == IS_INDIRECT && IS_ITERABLE == IS_PTR
    ensures IS_VOID == IS_ALIAS_PTR && IS_STATIC == IS_ERROR
    ensures IS_MIXED < IS_BOOL && IS_NEVER < IS_BOOL && IS_BOOL < IS_NUMBER
  {
  }

  // The guard flags.
  const GUARD_PROPERTY_GET: Mask := Bit(0)
  const GUARD_PROPERTY_SET: Mask := Bit(1)
  const GUARD_PROPERTY_UNSET: Mask := Bit(2)
  const GUARD_PROPERTY_ISSET: Mask := Bit(3)
  /** 15 */
  const GUARD_PROPERTY_MASK: Mask := Below(4)
  const GUARD_RECURSION_DEBUG: Mask := Bit(4)
  const GUARD_RECURSION_EXPORT: Mask := Bit(5)
  const GUARD_RECURSION_JSON: Mask := Bit(6)

  /** The argument `t` of the recursion macros. */
  datatype Recursion = Debug | Export | Json

  /** `ZEND_GUARD_RECURSION_TYPE(t)`: one bit, outside the property mask. */
  function RecursionFlag(t: Recursion): (f: Mask)
    ensures f != {} && f * GUARD_PROPERTY_MASK == {}
  {
    match t
    case Debug => GUARD_RECURSION_DEBUG
    case Export => GUARD_RECURSION_EXPORT
    case Json => GUARD_RECURSION_JSON
  }

  /** Different kinds of recursion have different bits. */
  lemma FlagsDisjoint(t: Recursion, u: Recursion)
    requires t != u
    ensures RecursionFlag(t) * RecursionFlag(u) == {}
  {
  }

  /** The property mask is exactly the four property guards. */
  lemma PropertyMaskIsPropertyGuards()
    ensures GUARD_PROPERTY_MASK == GUARD_PROPERTY_GET + GUARD_PROPERTY_SET + GUARD_PROPERTY_UNSET + GUARD_PROPERTY_ISSET
  {
  }

  /** `ZEND_GUARD_IS_RECURSIVE(pg, t)` on the guard word `g`. */
  predicate IsRecursive(g: Mask, t: Recursion)
  {
    g * RecursionFlag(t) != {}
  }

  /** The guard word after `ZEND_GUARD_PROTECT_RECURSION`: `t` is marked
      and no other bit changes. */
  function Protected(g: Mask, t: Recursion): (r: Mask)
    ensures IsRecursive(r, t)
    ensures r - RecursionFlag(t) == g - RecursionFlag(t)
  {
    g + RecursionFlag(t)
  }

  /** The guard word after `ZEND_GUARD_UNPROTECT_RECURSION`: `t` is
      cleared and no other bit changes. */
  function Unprotected(g: Mask, t: Recursion): (r: Mask)
    ensures !IsRecursive(r, t)
    ensures r - RecursionFlag(t) == g - RecursionFlag(t)
  {
    g - RecursionFlag(t)
  }

  /** Protecting twice is protecting once, and so for unprotecting. */
  lemma ProtectIdempotent(g: Mask, t: Recursion)
    ensures Protected(Protected(g, t), t) == Protected(g, t)
    ensures Unprotected(Unprotected(g, t), t) == Unprotected(g, t)
  {
  }

  /** Acting on one kind of recursion leaves the other kinds, and the
      property guards, as they were. */
  lemma KindsIndependent(g: Mask, t: Recursion, u: Recursion)
    requires t != u
    ensures IsRecursive(Protected(g, t), u) == IsRecursive(g, u)
    ensures IsRecursive(Unprotected(g, t), u) == IsRecursive(g, u)
    ensures Protected(g, t) * GUARD_PROPERTY_MASK == g * GUARD_PROPERTY_MASK
    ensures Unprotected(g, t) * GUARD_PROPERTY_MASK == g * GUARD_PROPERTY_MASK
  {
    FlagsDisjoint(t, u);
  }

  /** Unprotecting undoes protecting exactly when the kind was not already
      marked; protecting undoes unprotecting exactly when it was. */
  lemma ProtectUnprotect(g: Mask, t: Recursion)
    ensures Unprotected(Protected(g, t), t) == g <==> !IsRecursive(g, t)
    ensures Protected(Unprotected(g, t), t) == g <==> IsRecursive(g, t)
  {
  }

  /** The guard word of one object (`zend_get_property_guard`'s result),
      updated in place through `pg`. */
  class Guard {
    var bits: Mask

    constructor (bits: Mask)
      ensures this.bits == bits
    {
      this.bits := bits;
    }

    /** `ZEND_GUARD_PROTECT_RECURSION(pg, t)` */
    method Protect(t: Recursion)
      modifies this
      ensures bits == Protected(old(bits), t)
    {
      bits := bits + RecursionFlag(t);
    }

    /** `ZEND_GUARD_UNPROTECT_RECURSION(pg, t)` */
    method Unprotect(t: Recursion)
      modifies this
      ensures bits == Unprotected(old(bits), t)
    {
      bits := bits - RecursionFlag(t);
    }
  }
}
