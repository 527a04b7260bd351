/**
 * The integer schema filter: a best-effort numeric coercion with a scalar mode and an
 * element-wise collection mode. It rejects nothing itself (values it cannot coerce are
 * returned as they are); it throws only where JavaScript's own conversion to a number
 * throws, which for JSON data means an object with its own `toString` key.
 */
module SchemaFilterInteger {
  import opened Wrappers
  import opened JsValues

  /** The three outcomes of JavaScript's `ToNumber` conversion on a JSON value. */
  datatype Conversion = Number(n: JsNumber) | NotANumber | ThrowsTypeError

  /**
   * JavaScript's `ToNumber` conversion (behind both the NaN test and unary plus).
   * It is a parameter: string parsing and floating point are not part of this model.
   */
  type ToNumberFn = JsValue -> Conversion

  /** The error a failed conversion to a primitive value throws. */
  datatype FilterError = CannotConvertToPrimitive

  /**
   * Whether converting `v` to a primitive throws a TypeError. An object with its own
   * `toString` key has no callable `toString` (JSON cannot hold a function) and its
   * inherited `valueOf` returns the object itself, so no primitive is found. An array
   * converts by joining its elements as strings, so it throws when an element, at any
   * depth, does. Every other JSON value converts.
   */
  predicate ToPrimitiveThrows(v: JsValue)
  {
    match v
    case Obj(p) => "toString" in p
    case Arr(e) => exists i :: 0 <= i < |e| && ToPrimitiveThrows(e[i])
    case _ => false
  }

  /** The cases of `ToNumber` the language fixes independently of string parsing. */
  ghost predicate IsToNumber(toNumber: ToNumberFn)
    ensures IsToNumber(toNumber) ==> forall v :: toNumber(v) == ThrowsTypeError ==> v.Obj? || v.Arr?
  {
    && (forall v :: toNumber(v) == ThrowsTypeError <==> ToPrimitiveThrows(v))
    && (forall n :: toNumber(Num(n)) == Number(n))
    && toNumber(NaN) == NotANumber
    && toNumber(Undefined) == NotANumber
    && toNumber(Null) == Number(Finite(0.0))
    && toNumber(Bool(false)) == Number(Finite(0.0))
    && toNumber(Bool(true)) == Number(Finite(1.0))
    && toNumber(Str("")) == Number(Finite(0.0))
    && toNumber(Arr([])) == Number(Finite(0.0))
    && (forall p :: "toString" !in p ==> toNumber(Obj(p)) == NotANumber)
  }

  /** `filterSingle`: the numeric coercion of `data` unless it is NaN, in which case `data`
      itself; the TypeError of the NaN test propagates. */
  function FilterSingle(toNumber: ToNumberFn, data: JsValue): (r: Result<JsValue, FilterError>)
    ensures r.Failure? <==> toNumber(data) == ThrowsTypeError
    ensures r.Success? ==> r.value == data || r.value.Num?
    ensures r.Success? && r.value != data ==> toNumber(data) == Number(r.value.n)
    ensures toNumber(data).Number? ==> r == Success(Num(toNumber(data).n))
    ensures toNumber(data) == NotANumber ==> r == Success(data)
  {
    match toNumber(data)
    case Number(n) => Success(Num(n))
    case NotANumber => Success(data)
    case ThrowsTypeError => Failure(CannotConvertToPrimitive)
  }

  /** Scalar filtering of every element, in order, stopping at the first that throws. */
  function FilterEach(toNumber: ToNumberFn, items: seq<JsValue>): (r: Result<seq<JsValue>, FilterError>)
  {
    if items == [] then Success([])
    else
      match FilterSingle(toNumber, items[0])
      case Failure(e) => Failure(e)
      case Success(first) =>
        match FilterEach(toNumber, items[1..])
        case Failure(e) => Failure(e)
        case Success(rest) => Success([first] + rest)
  }

  /** What `filterCollection` returns: non-arrays unchanged, arrays filtered element-wise. */
  function FilteredCollection(toNumber: ToNumberFn, data: JsValue): (r: Result<JsValue, FilterError>)
  {
    if !data.Arr? then Success(data)
    else
      match FilterEach(toNumber, data.elems)
      case Failure(e) => Failure(e)
      case Success(items) => Success(Arr(items))
  }

  /** Element-wise filtering succeeds exactly when every element does, and then keeps the
      length and filters each element on its own. */
  lemma {:induction false} FilterEachAt(toNumber: ToNumberFn, items: seq<JsValue>)
    ensures FilterEach(toNumber, items).Success? <==>
            forall i :: 0 <= i < |items| ==> FilterSingle(toNumber, items[i]).Success?
    ensures FilterEach(toNumber, items).Success? ==> |FilterEach(toNumber, items).value| == |items|
    ensures FilterEach(toNumber, items).Success? ==>
            forall i :: 0 <= i < |items| ==> FilterEach(toNumber, items).value[i] == FilterSingle(toNumber, items[i]).value
    ensures FilterEach(toNumber, items).Failure? ==> FilterEach(toNumber, items) == Failure(CannotConvertToPrimitive)
  {
    if items != [] {
      FilterEachAt(toNumber, items[1..]);
      assert forall i :: 1 <= i < |items| ==> items[1..][i - 1] == items[i];
    }
  }

  /** `filterCollection`: a fresh collection built by pushing the filtered items. */
  method FilterCollection(toNumber: ToNumberFn, data: JsValue) returns (r: Result<JsValue, FilterError>)
    ensures !data.Arr? ==> r == Success(data)
    ensures data.Arr? ==>
            (r.Success? <==> forall i :: 0 <= i < |data.elems| ==> FilterSingle(toNumber, data.elems[i]).Success?)
    ensures data.Arr? && r.Success? ==> r.value.Arr? && |r.value.elems| == |data.elems|
    ensures data.Arr? && r.Success? ==>
            forall i :: 0 <= i < |data.elems| ==> r.value.elems[i] == FilterSingle(toNumber, data.elems[i]).value
    ensures r == FilteredCollection(toNumber, data)
  {
    if !data.Arr? {
      return Success(data);
    }
    FilterEachAt(toNumber, data.elems);
    var collection := [];
    var i := 0;
    while i < |data.elems|
      invariant 0 <= i <= |data.elems|
      invariant |collection| == i
      invariant forall k :: 0 <= k < i ==> FilterSingle(toNumber, data.elems[k]) == Success(collection[k])
    {
      var filtered := FilterSingle(toNumber, data.elems[i]);
      match filtered {
        case Failure(e) =>
          return Failure(e);
        case Success(item) =>
          collection := collection + [item];
      }
      i := i + 1;
    }
    r := Success(Arr(collection));
    assert collection == FilterEach(toNumber, data.elems).value;
  }

  /** `filter`: the collection mode exactly when `options.collection` is truthy. */
  method Filter(toNumber: ToNumberFn, options: Object, data: JsValue) returns (r: Result<JsValue, FilterError>)
    ensures Truthy(Get(options, "collection")) ==> r == FilteredCollection(toNumber, data)
    ensures !Truthy(Get(options, "collection")) ==> r == FilterSingle(toNumber, data)
  {
    if Truthy(Get(options, "collection")) {
      r := FilterCollection(toNumber, data);
    } else {
      r := FilterSingle(toNumber, data);
    }
  }

  /** A non-NaN number is returned as itself; so is NaN. */
  lemma {:induction false} NumbersUnchanged(toNumber: ToNumberFn, data: JsValue)
    requires IsToNumber(toNumber)
    requires data.Num? || data.NaN?
    ensures FilterSingle(toNumber, data) == Success(data)
  {
    assert !ToPrimitiveThrows(data);
  }

  /** The coercions JavaScript fixes: `null`, `false`, `""`, `[]` become 0, `true` becomes 1;
      `undefined` and objects without their own `toString` are returned unchanged, and an
      object with its own `toString` throws. */
  lemma {:induction false} FixedCoercions(toNumber: ToNumberFn, p: Object)
    requires IsToNumber(toNumber)
    ensures FilterSingle(toNumber, Null) == Success(Num(Finite(0.0)))
    ensures FilterSingle(toNumber, Bool(false)) == Success(Num(Finite(0.0)))
    ensures FilterSingle(toNumber, Bool(true)) == Success(Num(Finite(1.0)))
    ensures FilterSingle(toNumber, Str("")) == Success(Num(Finite(0.0)))
    ensures FilterSingle(toNumber, Arr([])) == Success(Num(Finite(0.0)))
    ensures FilterSingle(toNumber, Undefined) == Success(Undefined)
    ensures "toString" !in p ==> FilterSingle(toNumber, Obj(p)) == Success(Obj(p))
    ensures "toString" in p ==> FilterSingle(toNumber, Obj(p)) == Failure(CannotConvertToPrimitive)
  {
    assert ToPrimitiveThrows(Obj(p)) <==> "toString" in p;
  }

  /** The scalar mode throws exactly on the values whose conversion to a primitive throws. */
  lemma {:induction false} ThrowsOnlyWithoutPrimitive(toNumber: ToNumberFn, data: JsValue)
    requires IsToNumber(toNumber)
    ensures FilterSingle(toNumber, data).Failure? <==> ToPrimitiveThrows(data)
  {
  }

  /** An array that holds, however deep, an object with its own `toString` throws. */
  lemma {:induction false} NestedToStringThrows(toNumber: ToNumberFn, p: Object)
    requires IsToNumber(toNumber)
    requires "toString" in p
    ensures FilterSingle(toNumber, Arr([Num(Finite(1.0)), Arr([Obj(p)])])).Failure?
  {
    var inner := Arr([Obj(p)]);
    assert inner.elems[0] == Obj(p);
    assert ToPrimitiveThrows(inner);
    var outer := Arr([Num(Finite(1.0)), inner]);
    assert outer.elems[1] == inner;
    assert ToPrimitiveThrows(outer);
  }

  /** Filtering a filtered value again changes nothing. */
  lemma {:induction false} FilterSingleIdempotent(toNumber: ToNumberFn, data: JsValue)
    requires IsToNumber(toNumber)
    requires FilterSingle(toNumber, data).Success?
    ensures FilterSingle(toNumber, FilterSingle(toNumber, data).value) == FilterSingle(toNumber, data)
  {
    var v := FilterSingle(toNumber, data).value;
    if v != data {
      assert !ToPrimitiveThrows(v);
    }
  }

  lemma {:induction false} FilterEachIdempotent(toNumber: ToNumberFn, items: seq<JsValue>)
    requires IsToNumber(toNumber)
    requires FilterEach(toNumber, items).Success?
    ensures FilterEach(toNumber, FilterEach(toNumber, items).value) == FilterEach(toNumber, items)
  {
    if items != [] {
      var once := FilterEach(toNumber, items).value;
      FilterSingleIdempotent(toNumber, items[0]);
      FilterEachIdempotent(toNumber, items[1..]);
      assert once == [FilterSingle(toNumber, items[0]).value] + FilterEach(toNumber, items[1..]).value;
      assert once[0] == FilterSingle(toNumber, items[0]).value;
      assert once[1..] == FilterEach(toNumber, items[1..]).value;
    }
  }

  lemma {:induction false} FilteredCollectionIdempotent(toNumber: ToNumberFn, data: JsValue)
    requires IsToNumber(toNumber)
    requires FilteredCollection(toNumber, data).Success?
    ensures FilteredCollection(toNumber, FilteredCollection(toNumber, data).value) == FilteredCollection(toNumber, data)
  {
    if data.Arr? {
      FilterEachIdempotent(toNumber, data.elems);
    }
  }

  /** The two modes part ways on arrays: `[]` is 0 to the scalar mode and stays `[]` in the
      collection mode; a numeric string is coerced only by the scalar mode. */
  lemma {:induction false} ModesDiffer(toNumber: ToNumberFn, s: string, n: JsNumber)
    requires IsToNumber(toNumber)
    requires toNumber(Str(s)) == Number(n)
    ensures FilterSingle(toNumber, Arr([])) == Success(Num(Finite(0.0)))
    ensures FilteredCollection(toNumber, Arr([])) == Success(Arr([]))
    ensures FilterSingle(toNumber, Str(s)) == Success(Num(n))
    ensures FilteredCollection(toNumber, Str(s)) == Success(Str(s))
    ensures FilteredCollection(toNumber, Arr([Str(s)])) == Success(Arr([Num(n)]))
  {
    var one := [Str(s)];
    assert one[0] == Str(s) && one[1..] == [];
    assert FilterEach(toNumber, one[1..]) == Success([]);
    assert [Num(n)] + [] == [Num(n)];
    assert FilterEach(toNumber, one) == Success([Num(n)]);
    assert Arr([Str(s)]).elems == one;
  }

  /** The example `["1", "x", 3]` becomes `[1, "x", 3]`. */
  lemma {:induction false} MixedCollection(toNumber: ToNumberFn)
    requires IsToNumber(toNumber)
    requires toNumber(Str("1")) == Number(Finite(1.0))
    requires toNumber(Str("x")) == NotANumber
    ensures FilteredCollection(toNumber, Arr([Str("1"), Str("x"), Num(Finite(3.0))]))
         == Success(Arr([Num(Finite(1.0)), Str("x"), Num(Finite(3.0))]))
  {
    var items := [Str("1"), Str("x"), Num(Finite(3.0))];
    assert !ToPrimitiveThrows(items[2]);
    FilterEachAt(toNumber, items);
    var out := FilterEach(toNumber, items).value;
    assert out[0] == Num(Finite(1.0)) && out[1] == Str("x") && out[2] == Num(Finite(3.0));
    assert out == [Num(Finite(1.0)), Str("x"), Num(Finite(3.0))];
  }
}
