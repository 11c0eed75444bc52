/** Values a watch function can produce, and the comparator `$$isEqual` of scope.js.

    JavaScript numbers are modelled as integers plus a distinct `NaN`; arrays carry a
    reference tag `ref` so that `===` (which compares references) and lodash's deep
    equality (which compares contents) can differ, as they do for an array mutated in
    place. Values are immutable, so a deep copy of a value is the value itself. */
module Values {

  /** Identity of an array object. `Allocated(n)` stands for an array created by user
      code; the other two are the `newValues`/`oldValues` arrays of a `$watchGroup`. */
  datatype Ref = Allocated(n: nat) | NewValuesOf(group: nat) | OldValuesOf(group: nat)

  datatype Value =
    | Undefined
    | Null
    | Bool(b: bool)
    | Num(n: int)
    | NaN
    | Str(s: string)
    | Arr(ref: Ref, items: seq<Value>)
  {
    /** `typeof v === 'number'` */
    predicate IsNumber() { Num? || NaN? }
  }

  /** JavaScript `===`: arrays by reference, NaN unequal to everything, else by value. */
  predicate StrictEquals(a: Value, b: Value)
  {
    match (a, b)
    case (Arr(r, _), Arr(q, _)) => r == q
    case (NaN, _) => false
    case (_, NaN) => false
    case _ => a == b
  }

  /** The value with every array reference erased: what deep equality looks at. */
  function Erase(v: Value): (r: Value)
    decreases v
  {
    match v
    case Arr(_, items) => Arr(Allocated(0), seq(|items|, i requires 0 <= i < |items| => Erase(items[i])))
    case _ => v
  }

  /** lodash `_.isEqual`: recursive comparison of contents; NaN equals NaN. */
  predicate DeepEquals(a: Value, b: Value)
  {
    Erase(a) == Erase(b)
  }

  /** `$$isEqual(newValue, oldValue, eqValue)` (src/scope.js:146-157). */
  predicate IsEqual(newValue: Value, oldValue: Value, byValue: bool)
  {
    if byValue then DeepEquals(newValue, oldValue)
    else StrictEquals(newValue, oldValue) || (newValue.IsNumber() && oldValue.IsNumber() && newValue.NaN? && oldValue.NaN?)
  }

  /** In reference mode two arrays are equal exactly when they are the same object, and
      any other two values exactly when they are the same value (NaN included). */
  lemma ReferenceEquality(a: Value, b: Value)
    ensures IsEqual(a, b, false) <==> (if a.Arr? && b.Arr? then a.ref == b.ref else a == b)
  {
  }

  /** Every value is equal to itself in both modes, NaN included: a watch that keeps
      returning the same value (or NaN) is clean after its first evaluation. */
  lemma {:induction false} IsEqualReflexive(v: Value, byValue: bool)
    ensures IsEqual(v, v, byValue)
  {
  }

  /** The comparator does not depend on argument order. */
  lemma IsEqualSymmetric(a: Value, b: Value, byValue: bool)
    ensures IsEqual(a, b, byValue) <==> IsEqual(b, a, byValue)
  {
  }

  /** Both modes are transitive. */
  lemma IsEqualTransitive(a: Value, b: Value, c: Value, byValue: bool)
    requires IsEqual(a, b, byValue) && IsEqual(b, c, byValue)
    ensures IsEqual(a, c, byValue)
  {
  }

  /** Erasing references keeps the shape: erased arrays have the same length and
      their elements are the erased elements. */
  lemma EraseArr(r: Ref, items: seq<Value>)
    ensures Erase(Arr(r, items)).Arr? && |Erase(Arr(r, items)).items| == |items|
    ensures forall i :: 0 <= i < |items| ==> Erase(Arr(r, items)).items[i] == Erase(items[i])
  {
  }

  /** Structural mode compares contents: an array and a copy of it under another
      reference are equal by value but not by reference, and appending an element
      to an array (keeping its reference) is seen by value but not by reference. */
  lemma {:induction false} ModesOnArrays(r: Ref, q: Ref, items: seq<Value>, x: Value)
    requires r != q
    ensures IsEqual(Arr(r, items), Arr(q, items), true)
    ensures !IsEqual(Arr(r, items), Arr(q, items), false)
    ensures IsEqual(Arr(r, items + [x]), Arr(r, items), false)
    ensures !IsEqual(Arr(r, items + [x]), Arr(r, items), true)
  {
    EraseArr(r, items + [x]);
    EraseArr(r, items);
    assert |Erase(Arr(r, items + [x])).items| != |Erase(Arr(r, items)).items|;
  }

  /** On values that are not arrays the two modes agree. */
  lemma {:induction false} ModesAgreeOnScalars(a: Value, b: Value)
    requires !a.Arr? && !b.Arr?
    ensures IsEqual(a, b, true) <==> IsEqual(a, b, false)
  {
  }
}
