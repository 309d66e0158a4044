/**
 * The type system of Accipit IR: a closed set of type tags, the accessors of
 * the derived types, and the key-to-slot buffer through which derived types
 * are uniqued.
 *
 * Types are modelled structurally. The source makes every structural type a
 * single object, so that handle equality is type equality; with values,
 * structural equality plays that role directly, and `Buffer` models the
 * uniquing table that hands out one shared slot per key.
 */
module Types {
  import opened Wrappers

  /** `Type::TypeID`: the primitive tags first, then the derived ones. */
  datatype TypeID = IntegerTyID | UnitTyID | PointerTyID | FunctionTyID

  datatype Ty =
    | Integer
    | Unit
    | Pointer(pointee: Ty)
    | Function(result: Ty, params: seq<Ty>)

  /** `Type::getTypeID`: the tag fixed when the type object was built. */
  function GetTypeID(t: Ty): TypeID
  {
    match t
    case Integer => IntegerTyID
    case Unit => UnitTyID
    case Pointer(_) => PointerTyID
    case Function(_, _) => FunctionTyID
  }

  predicate IsIntegerTy(t: Ty) { GetTypeID(t) == IntegerTyID }
  predicate IsUnitTy(t: Ty) { GetTypeID(t) == UnitTyID }
  predicate IsPointerTy(t: Ty) { GetTypeID(t) == PointerTyID }
  predicate IsFunctionTy(t: Ty) { GetTypeID(t) == FunctionTyID }

  /** `PointerType::classof`: the cast test for pointer types. */
  predicate PointerClassof(t: Ty) { GetTypeID(t) == PointerTyID }

  /** `FunctionType::classof`: the cast test for function types. */
  predicate FunctionClassof(t: Ty) { GetTypeID(t) == FunctionTyID }

  /** How many of the given tests hold. */
  function CountTrue(bs: seq<bool>): nat
  {
    if bs == [] then 0 else (if bs[0] then 1 else 0) + CountTrue(bs[1..])
  }

  /**
   * Exactly one tag predicate holds of every type, and which one is decided
   * by the tag alone: each predicate holds exactly of the matching variant.
   */
  lemma ExactlyOneTag(t: Ty)
    ensures IsIntegerTy(t) <==> t.Integer?
    ensures IsUnitTy(t) <==> t.Unit?
    ensures IsPointerTy(t) <==> t.Pointer?
    ensures IsFunctionTy(t) <==> t.Function?
    ensures CountTrue([IsIntegerTy(t), IsUnitTy(t), IsPointerTy(t), IsFunctionTy(t)]) == 1
  {
    var bs := [IsIntegerTy(t), IsUnitTy(t), IsPointerTy(t), IsFunctionTy(t)];
    var b1, b2, b3 := bs[1..], bs[2..], bs[3..];
    assert b1 == [IsUnitTy(t), IsPointerTy(t), IsFunctionTy(t)] && b1[1..] == b2;
    assert b2 == [IsPointerTy(t), IsFunctionTy(t)] && b2[1..] == b3;
    assert b3 == [IsFunctionTy(t)] && b3[1..] == [];
    assert CountTrue(b3) == if IsFunctionTy(t) then 1 else 0;
    assert CountTrue(b2) == if IsPointerTy(t) || IsFunctionTy(t) then 1 else 0;
    assert CountTrue(b1) == if t.Integer? then 0 else 1;
  }

  /** The two `classof` tests agree with the tag predicates they stand for. */
  lemma ClassofMatchesTag(t: Ty)
    ensures PointerClassof(t) <==> IsPointerTy(t) && t.Pointer?
    ensures FunctionClassof(t) <==> IsFunctionTy(t) && t.Function?
    ensures !(PointerClassof(t) && FunctionClassof(t))
  {
  }

  /**
   * The primitive types are single values: every type tagged as the integer
   * (unit) type is the one integer (unit) type, and that type carries the tag.
   */
  lemma PrimitiveSingletons(t: Ty)
    ensures IsIntegerTy(t) ==> t == Integer
    ensures IsUnitTy(t) ==> t == Unit
    ensures GetTypeID(Integer) == IntegerTyID && GetTypeID(Unit) == UnitTyID
  {
  }

  /** `PointerType::getElementType`, reached through a checked cast. */
  function GetElementType(t: Ty): (e: Ty)
    requires PointerClassof(t)
    ensures Pointer(e) == t
  {
    t.pointee
  }

  /** `FunctionType::getNumParams`. */
  function GetNumParams(t: Ty): (n: nat)
    requires FunctionClassof(t)
    ensures n == |t.params|
  {
    |t.params|
  }

  /**
   * `FunctionType::getParamType`. The source reads the parameter vector with
   * `.at`, which throws on an index past the end; that error is `None` here.
   */
  function GetParamType(t: Ty, index: nat): (r: Option<Ty>)
    requires FunctionClassof(t)
    ensures r.Some? <==> index < GetNumParams(t)
    ensures r.Some? ==> r.value == t.params[index]
  {
    if index < |t.params| then Some(t.params[index]) else None
  }

  /** `FunctionType::getReturnType`. */
  function GetReturnType(t: Ty): (r: Ty)
    requires FunctionClassof(t)
    ensures exists ps :: t == Function(r, ps)
  {
    t.result
  }

  /**
   * A pointer type built over an element type hands that element type back
   * and is tagged as a pointer.
   */
  lemma PointerRoundTrip(elem: Ty)
    ensures IsPointerTy(Pointer(elem)) && PointerClassof(Pointer(elem))
    ensures GetElementType(Pointer(elem)) == elem
    ensures GetTypeID(Pointer(elem)) == PointerTyID
  {
  }

  /**
   * A function type answers its parameter count, each parameter in order and
   * its return type as they were given, and rejects any index past the end.
   */
  lemma FunctionAccessors(result: Ty, params: seq<Ty>)
    ensures GetNumParams(Function(result, params)) == |params|
    ensures forall i :: 0 <= i < |params| ==> GetParamType(Function(result, params), i) == Some(params[i])
    ensures forall i: nat :: i >= |params| ==> GetParamType(Function(result, params), i) == None
    ensures GetReturnType(Function(result, params)) == result
  {
  }

  /**
   * `Buffer<KeyTy, V>`: a map from keys to the slots (storage for a V) that
   * were allocated for them. `slotCount` counts the slots allocated so far,
   * standing in for `malloc`: a new slot is never one already handed out.
   */
  class Buffer<K(==)> {
    var buffer: map<K, nat>
    var slotCount: nat

    /** Every slot was allocated, and no two keys share a slot. */
    ghost predicate Valid()
      reads this
    {
      && (forall k | k in buffer :: buffer[k] < slotCount)
      && (forall k1, k2 | k1 in buffer && k2 in buffer && k1 != k2 :: buffer[k1] != buffer[k2])
    }

    constructor ()
      ensures Valid() && buffer == map[] && slotCount == 0
    {
      buffer := map[];
      slotCount := 0;
    }

    /**
     * `Buffer::insert_as`: inserts the key with a fresh slot if it is absent
     * and reports whether it did; a present key keeps its slot and the map
     * is unchanged.
     */
    method InsertAs(key: K) returns (slot: nat, inserted: bool)
      requires Valid()
      modifies this
      ensures Valid()
      ensures inserted <==> key !in old(buffer)
      ensures key in buffer && buffer[key] == slot
      ensures inserted ==> buffer == old(buffer)[key := slot] && |buffer| == |old(buffer)| + 1
      ensures inserted ==> forall k | k in old(buffer) :: old(buffer)[k] != slot
      ensures !inserted ==> buffer == old(buffer) && slotCount == old(slotCount)
    {
      if key in buffer {
        slot, inserted := buffer[key], false;
      } else {
        slot := slotCount;
        buffer := buffer[key := slot];
        slotCount := slotCount + 1;
        inserted := true;
      }
    }
  }

  /**
   * Two requests for the same key (for pointer types: the same element type)
   * are answered with the same slot, and the second one allocates nothing:
   * a derived type is shared, never built twice.
   */
  method InsertAsShares<K(==)>(b: Buffer<K>, key: K) returns (first: nat, second: nat)
    requires b.Valid()
    modifies b
    ensures b.Valid()
    ensures first == second
    ensures b.buffer == old(b.buffer)[key := first]
    ensures key in old(b.buffer) ==> b.slotCount == old(b.slotCount)
  {
    var again: bool;
    first, again := b.InsertAs(key);
    second, again := b.InsertAs(key);
    assert !again;
  }

  /** Different keys are answered with different slots. */
  method InsertAsSeparates<K(==)>(b: Buffer<K>, k1: K, k2: K) returns (s1: nat, s2: nat)
    requires b.Valid() && k1 != k2
    modifies b
    ensures b.Valid()
    ensures s1 != s2
  {
    var ins: bool;
    s1, ins := b.InsertAs(k1);
    s2, ins := b.InsertAs(k2);
  }
}
