/**
 * The checker's flat type lattice (src/sema/types.rs): whether a value of one
 * type may be implicitly converted to another, and whether two types may be the
 * operands of one arithmetic instruction.
 */
module Types {

  datatype Type = Integer | Floating | Undecided | Invalid

  /** A type that propagation has resolved to a real representation. */
  predicate Decided(t: Type) {
    t.Integer? || t.Floating?
  }

  /** Position in the numeric tower: Integer sits below Floating. */
  function Rank(t: Type): nat
    requires Decided(t)
  {
    if t.Integer? then 0 else 1
  }

  /** The text a diagnostic shows for a type (the variant's name). */
  function TypeName(t: Type): string {
    match t
    case Integer => "Integer"
    case Floating => "Floating"
    case Undecided => "Undecided"
    case Invalid => "Invalid"
  }

  /** `Types::coerce_type`: Integer widens to Floating, each decided type to itself. */
  function CoerceType(from: Type, to: Type): (r: bool)
    ensures r ==> Decided(from) && Decided(to)
    ensures from.Floating? && to.Integer? ==> !r
  {
    match (from, to)
    case (Integer, Integer) => true
    case (Integer, Floating) => true
    case (Floating, Floating) => true
    case _ => false
  }

  /** `Types::binary_compatable_types`: both operands Integer or both Floating. */
  function BinaryCompatibleTypes(left: Type, right: Type): (r: bool)
    ensures r ==> left == right && Decided(left)
  {
    match (left, right)
    case (Integer, Integer) => true
    case (Floating, Floating) => true
    case _ => false
  }

  /** Coercion is exactly the order of the numeric tower on decided types. */
  lemma CoerceIsRankOrder(from: Type, to: Type)
    ensures CoerceType(from, to) <==> Decided(from) && Decided(to) && Rank(from) <= Rank(to)
  {
  }

  /** Coercion is a partial order on the decided types. */
  lemma CoercePartialOrder(a: Type, b: Type, c: Type)
    ensures Decided(a) ==> CoerceType(a, a)
    ensures CoerceType(a, b) && CoerceType(b, a) ==> a == b
    ensures CoerceType(a, b) && CoerceType(b, c) ==> CoerceType(a, c)
  {
  }

  /** Binary compatibility is symmetric. */
  lemma BinaryCompatibleSymmetric(a: Type, b: Type)
    ensures BinaryCompatibleTypes(a, b) <==> BinaryCompatibleTypes(b, a)
  {
  }

  /** Compatible operands coerce to each other in both directions. */
  lemma BinaryCompatibleImpliesCoerce(a: Type, b: Type)
    requires BinaryCompatibleTypes(a, b)
    ensures CoerceType(a, b) && CoerceType(b, a)
  {
  }

  /** Binary compatibility is the symmetric part of coercion. */
  lemma BinaryCompatibleIsMutualCoercion(a: Type, b: Type)
    ensures BinaryCompatibleTypes(a, b) <==> CoerceType(a, b) && CoerceType(b, a)
  {
  }

  /** Undecided and Invalid relate to nothing, themselves included. */
  lemma UnresolvedTypesIsolated(a: Type, t: Type)
    requires a.Undecided? || a.Invalid?
    ensures !CoerceType(a, t) && !CoerceType(t, a)
    ensures !BinaryCompatibleTypes(a, t) && !BinaryCompatibleTypes(t, a)
  {
  }
}
