/** Reference types: the pointer type of the values of an inner type. */
module ReferenceTypes {
  import opened Wrappers

  /** The types, as far as reference types look at them. The inner type of a reference may
      be null. `OtherPointerType` is any other type that is a pointer type; `OtherType` any
      type that is not. */
  datatype Type =
    | ReferenceType(innerType: Option<Type>)
    | Untyped
    | OtherPointerType(name: string)
    | OtherType(name: string)

  predicate IsPointerType(t: Type) {
    t.ReferenceType? || t.OtherPointerType?
  }

  /** A reference can be assigned to exactly the pointer types. */
  function CanBeAssignedTo(t: Type, other: Type): (r: bool)
    requires t.ReferenceType?
    ensures r <==> IsPointerType(other)
  {
    other.ReferenceType? || other.OtherPointerType?
  }

  /** Equality with a possibly null object: null and any other kind of type are unequal; two
      references are equal when their inner types are, a null inner type only to a null one. */
  function Equals(t: Type, obj: Option<Type>): (r: bool)
    requires t.ReferenceType?
    ensures r <==> obj == Some(t)
    ensures obj.Some? && obj.value.ReferenceType? && t.innerType.None? && obj.value.innerType.Some? ==> !r
  {
    if obj.None? then false
    else if !obj.value.ReferenceType? then false
    else if t.innerType.None? then obj.value.innerType.None?
    else obj.value.innerType.Some? && t.innerType.value == obj.value.innerType.value
  }

  /** The common supertype with another type: the reference itself when the two are equal,
      untyped otherwise. */
  function CommonSupertype(t: Type, other: Type): (r: Type)
    requires t.ReferenceType?
    ensures r == t || r == Untyped
    ensures r == t <==> other == t
  {
    if Equals(t, Some(other)) then t else Untyped
  }

  /** The instances of a reference type: itself alone. */
  function AllInstances(t: Type): (r: set<Type>)
    requires t.ReferenceType?
    ensures |r| == 1 && t in r
  {
    {t}
  }

  /** The printed type: a reference prints as its inner type (or "null") followed by `*`. */
  function ToString(t: Type): (r: string)
    ensures t.ReferenceType? ==> |r| >= 1 && r[|r| - 1] == '*'
    ensures t.ReferenceType? && t.innerType.Some? ==> r[..|r| - 1] == ToString(t.innerType.value)
    ensures t.ReferenceType? && t.innerType.None? ==> r == "null*"
  {
    match t
    case ReferenceType(inner) => (if inner.None? then "null" else ToString(inner.value)) + "*"
    case Untyped => "untyped"
    case OtherPointerType(name) => name
    case OtherType(name) => name
  }

  /** The depth of references around a type that is not one. */
  function Depth(t: Type): nat {
    if t.ReferenceType? && t.innerType.Some? then 1 + Depth(t.innerType.value) else 0
  }

  /** A type prints as its innermost non-reference type (or a reference to null), followed
      by one `*` per reference around it. */
  lemma {:induction false} ToStringAddsOneStarPerReference(t: Type)
    ensures ToString(t) == ToString(Base(t)) + Stars(Depth(t))
    decreases t
  {
    if t.ReferenceType? && t.innerType.Some? {
      var inner := t.innerType.value;
      ToStringAddsOneStarPerReference(inner);
      assert Stars(Depth(t)) == Stars(Depth(inner)) + "*";
    }
  }

  /** The innermost type under the references. */
  function Base(t: Type): Type {
    if t.ReferenceType? && t.innerType.Some? then Base(t.innerType.value) else t
  }

  function Stars(n: nat): (r: string)
    ensures |r| == n && forall i :: 0 <= i < n ==> r[i] == '*'
  {
    if n == 0 then "" else Stars(n - 1) + "*"
  }
}
