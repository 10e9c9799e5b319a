/** JavaScript values as seen by `deepClone`, `clone` and `isEmptyObject`
    (src/utils/utils.ts). A value of this datatype is a finite tree, so the cyclic
    inputs on which `deepClone` recurses forever cannot be built. */
module Values {
  import Numerals

  /** What `value.constructor` evaluates to for an object: the built-in `Object`,
      some other constructor (a class, `Array`, `Date`, ...), or nothing at all
      (an object made by `Object.create(null)`). */
  datatype Ctor = ObjectCtor | OtherCtor(name: string) | NoCtor

  datatype Value =
    | Undefined
    | Null
    | Bool(b: bool)
    | Num(n: int)
    | Str(s: string)
    | Func(id: nat)
    | DateV(time: int)
    | Arr(items: seq<Value>)
    | Obj(fields: map<string, Value>, ctor: Ctor)

  /** JavaScript truthiness (numbers are integral here, so NaN does not arise). */
  predicate Truthy(v: Value) {
    match v
    case Undefined => false
    case Null => false
    case Bool(b) => b
    case Num(n) => n != 0
    case Str(s) => s != ""
    case _ => true
  }

  /** `Object.keys(v).length` for a value that is not null or undefined: the own
      enumerable string keys. A string or an array has one per index; a date,
      a function, a boolean or a number has none. */
  function KeyCount(v: Value): nat {
    match v
    case Str(s) => |s|
    case Arr(items) => |items|
    case Obj(fields, _) => |fields|
    case _ => 0
  }

  /** What `v.constructor` evaluates to. Primitives are boxed first. Undefined and
      null are never asked (reading a property of them throws). */
  function CtorOf(v: Value): Ctor {
    match v
    case Undefined => NoCtor
    case Null => NoCtor
    case Bool(_) => OtherCtor("Boolean")
    case Num(_) => OtherCtor("Number")
    case Str(_) => OtherCtor("String")
    case Func(_) => OtherCtor("Function")
    case DateV(_) => OtherCtor("Date")
    case Arr(_) => OtherCtor("Array")
    case Obj(_, c) => c
  }

  /** An empty plain object: `{}` or any object whose constructor is `Object`
      and that has no own enumerable keys. */
  predicate IsEmptyPlainObject(v: Value) {
    v.Obj? && v.fields == map[] && v.ctor == ObjectCtor
  }

  // ---------------------------------------------------------------- isEmptyObject

  /** `isEmptyObject` as written: `obj && Object.keys(obj).length === 0 &&
      obj.constructor === Object`. The first `&&` hands back a falsy `obj` itself. */
  function IsEmptyObjectAsWritten(v: Value): (r: Value)
    ensures !Truthy(v) ==> r == v
    ensures Truthy(v) ==> r == Bool(IsEmptyPlainObject(v))
  {
    if !Truthy(v) then v
    else Bool(KeyCount(v) == 0 && CtorOf(v) == ObjectCtor)
  }

  /** The evidently intended `isEmptyObject`, a boolean for every input. */
  function IsEmptyObject(v: Value): (r: bool)
    ensures r <==> v.Obj? && v.fields == map[] && v.ctor == ObjectCtor
  {
    IsEmptyObjectAsWritten(v) == Bool(true)
  }

  /** The declared boolean result is not what the code returns on a falsy input. */
  lemma IsEmptyObjectReturnsFalsyInput()
    ensures IsEmptyObjectAsWritten(Null) == Null
    ensures IsEmptyObjectAsWritten(Num(0)) == Num(0)
    ensures IsEmptyObjectAsWritten(Str("")) == Str("")
    ensures !IsEmptyObjectAsWritten(Undefined).Bool?
  {
  }

  /** Both versions agree wherever the result is only tested for truth (`if`, `!`,
      `&&`), and exactly agree on every truthy input. */
  lemma IsEmptyObjectAgreement(v: Value)
    ensures Truthy(IsEmptyObjectAsWritten(v)) == IsEmptyObject(v)
    ensures Truthy(v) ==> IsEmptyObjectAsWritten(v) == Bool(IsEmptyObject(v))
  {
  }

  /** Arrays, dates, functions and class instances are never empty objects, even
      with no keys; a plain object is empty exactly when it has no keys. */
  lemma IsEmptyObjectCases(v: Value)
    ensures v.Arr? || v.DateV? || v.Func? || v.Str? || v.Num? || v.Bool? ==> !IsEmptyObject(v)
    ensures v.Obj? && v.ctor != ObjectCtor ==> !IsEmptyObject(v)
    ensures v.Obj? && v.ctor == ObjectCtor ==> (IsEmptyObject(v) <==> |v.fields| == 0)
  {
  }

  // ---------------------------------------------------------------- deepClone

  /** Every object in the tree is a plain object (its constructor is `Object`). */
  predicate PlainTree(v: Value) {
    match v
    case Arr(items) => forall i :: 0 <= i < |items| ==> PlainTree(items[i])
    case Obj(fields, c) => c == ObjectCtor && forall k :: k in fields ==> PlainTree(fields[k])
    case _ => true
  }

  /** Structural equality that ignores which constructor an object has: same kind
      of value at every node, same primitives and instants, arrays of the same length,
      objects with the same key set. */
  predicate SameData(a: Value, b: Value) {
    match a
    case Arr(xs) =>
      b.Arr? && |xs| == |b.items| && forall i :: 0 <= i < |xs| ==> SameData(xs[i], b.items[i])
    case Obj(f, _) =>
      b.Obj? && f.Keys == b.fields.Keys && forall k :: k in f ==> SameData(f[k], b.fields[k])
    case _ => a == b
  }

  /** `deepClone`: primitives, `null` and functions are returned as they are; a date
      becomes a new date with the same instant; an array is mapped element by element;
      any other object becomes a new plain object built key by key with `reduce`. */
  function DeepClone(v: Value): (r: Value)
    ensures PlainTree(r)
    ensures SameData(v, r)
  {
    match v
    case DateV(t) => DateV(t)
    case Arr(items) => Arr(seq(|items|, i requires 0 <= i < |items| => DeepClone(items[i])))
    case Obj(fields, _) => Obj(map k | k in fields :: DeepClone(fields[k]), ObjectCtor)
    case _ => v
  }

  /** The object branch of `deepClone` as the source runs it: `Object.keys(obj)
      .reduce((acc, key) => { acc[key] = deepClone(obj[key]); return acc }, {})`.
      The keys are visited in an unspecified order. */
  method ReduceKeys(fields: map<string, Value>) returns (acc: map<string, Value>)
    ensures acc.Keys == fields.Keys
    ensures forall k :: k in fields ==> acc[k] == DeepClone(fields[k])
  {
    acc := map[];
    var todo := fields.Keys;
    while todo != {}
      invariant todo <= fields.Keys
      invariant acc.Keys == fields.Keys - todo
      invariant forall k :: k in acc ==> acc[k] == DeepClone(fields[k])
      decreases todo
    {
      var key :| key in todo;
      acc := acc[key := DeepClone(fields[key])];
      todo := todo - {key};
    }
  }

  /** Two structurally equal plain trees are equal. */
  lemma {:induction false} SameDataPlainEqual(a: Value, b: Value)
    requires SameData(a, b) && PlainTree(a) && PlainTree(b)
    ensures a == b
    decreases a
  {
    match a
    case Arr(xs) =>
      forall i | 0 <= i < |xs| ensures xs[i] == b.items[i] {
        SameDataPlainEqual(xs[i], b.items[i]);
      }
      assert xs == b.items;
    case Obj(f, _) =>
      forall k | k in f ensures f[k] == b.fields[k] {
        SameDataPlainEqual(f[k], b.fields[k]);
      }
      assert f == b.fields;
    case _ =>
  }

  /** A deep clone equals its input exactly when the input holds only plain objects:
      class instances and prototype-less objects come back as plain objects. */
  lemma {:induction false} DeepCloneFixedPoint(v: Value)
    ensures DeepClone(v) == v <==> PlainTree(v)
  {
    if PlainTree(v) {
      SameDataPlainEqual(v, DeepClone(v));
    }
  }

  /** Cloning a clone gives the same value again. */
  lemma {:induction false} DeepCloneIdempotent(v: Value)
    ensures DeepClone(DeepClone(v)) == DeepClone(v)
  {
    DeepCloneFixedPoint(DeepClone(v));
  }

  /** Two values structurally equal to a third are structurally equal to each other. */
  lemma {:induction false} SameDataShared(a: Value, b: Value, c: Value)
    requires SameData(a, b) && SameData(a, c)
    ensures SameData(b, c)
    decreases a
  {
    match a
    case Arr(xs) =>
      forall i | 0 <= i < |xs| ensures SameData(b.items[i], c.items[i]) {
        SameDataShared(xs[i], b.items[i], c.items[i]);
      }
    case Obj(f, _) =>
      forall k | k in f ensures SameData(b.fields[k], c.fields[k]) {
        SameDataShared(f[k], b.fields[k], c.fields[k]);
      }
    case _ =>
  }

  /** `deepClone(v)` is the only value that holds nothing but plain objects and has
      the structure and data of `v`: any copy with those two properties is it. */
  lemma {:induction false} DeepCloneUnique(v: Value, w: Value)
    requires PlainTree(w) && SameData(v, w)
    ensures w == DeepClone(v)
  {
    SameDataShared(v, w, DeepClone(v));
    SameDataPlainEqual(w, DeepClone(v));
  }

  // ---------------------------------------------------------------- clone

  /** The own enumerable properties `{...v}` copies out of an array. */
  function IndexFields(items: seq<Value>): (m: map<string, Value>)
    ensures forall i :: 0 <= i < |items| ==> Numerals.IndexKey(i) in m && m[Numerals.IndexKey(i)] == items[i]
    ensures forall k :: k in m ==> exists i :: 0 <= i < |items| && k == Numerals.IndexKey(i)
  {
    Numerals.IndexKeyInjective();
    map i | 0 <= i < |items| :: Numerals.IndexKey(i) := items[i]
  }

  /** One-character strings, one per index, the way `{..."ab"}` spreads a string. */
  function CharValues(s: string): seq<Value> {
    seq(|s|, i requires 0 <= i < |s| => Str([s[i]]))
  }

  /** `clone(v)`, that is `{ ...v }`: a new plain object holding the own enumerable
      properties of `v`, one level only. Spreading null, undefined, a boolean, a
      number, a date or a function gives `{}`. */
  function Clone(v: Value): (r: Value)
    ensures r.Obj? && r.ctor == ObjectCtor
    ensures v.Obj? ==> r.fields == v.fields
    ensures v.Arr? ==> |r.fields| == |v.items|
    ensures !(v.Obj? || v.Arr? || v.Str?) ==> r.fields == map[]
  {
    match v
    case Obj(fields, _) => Obj(fields, ObjectCtor)
    case Arr(items) =>
      IndexKeysCount(items);
      Obj(IndexFields(items), ObjectCtor)
    case Str(s) => Obj(IndexFields(CharValues(s)), ObjectCtor)
    case _ => Obj(map[], ObjectCtor)
  }

  lemma IndexKeysCount(items: seq<Value>)
    ensures |IndexFields(items)| == |items|
  {
    var m := IndexFields(items);
    var keys := set i | 0 <= i < |items| :: Numerals.IndexKey(i);
    assert m.Keys == keys;
    Numerals.IndexKeyInjective();
    IndexKeySetSize(|items|);
  }

  lemma {:induction false} IndexKeySetSize(n: nat)
    ensures |set i | 0 <= i < n :: Numerals.IndexKey(i)| == n
  {
    if n > 0 {
      var smaller := set i | 0 <= i < n - 1 :: Numerals.IndexKey(i);
      var all := set i | 0 <= i < n :: Numerals.IndexKey(i);
      var last := Numerals.IndexKey(n - 1);
      assert all == smaller + {last};
      assert last !in smaller by {
        if last in smaller {
          var i :| 0 <= i < n - 1 && Numerals.IndexKey(i) == last;
          Numerals.RadixInjective(i, n - 1, 10);
        }
      }
      IndexKeySetSize(n - 1);
    }
  }

  /** Array spread: key i holds element i, and there are no other keys. */
  lemma CloneArray(items: seq<Value>)
    ensures forall i :: 0 <= i < |items| ==> Clone(Arr(items)).fields[Numerals.IndexKey(i)] == items[i]
    ensures forall k :: k in Clone(Arr(items)).fields ==> exists i :: 0 <= i < |items| && k == Numerals.IndexKey(i)
  {
  }

  /** String spread: key i holds the one-character string at index i. */
  lemma CloneString(s: string)
    ensures |Clone(Str(s)).fields| == |s|
    ensures forall i :: 0 <= i < |s| ==> Clone(Str(s)).fields[Numerals.IndexKey(i)] == Str([s[i]])
  {
    IndexKeysCount(CharValues(s));
  }

  /** Shallow cloning is idempotent, and loses nothing that a later deep clone keeps. */
  lemma CloneProperties(v: Value)
    ensures Clone(Clone(v)) == Clone(v)
    ensures v.Obj? ==> DeepClone(Clone(v)) == DeepClone(v)
  {
  }

  /** Where shallow and deep cloning differ: a nested class instance is shared by
      `clone` and turned into a plain object by `deepClone`. */
  lemma CloneIsShallow()
    ensures
      var inner := Obj(map["c" := Num(2)], OtherCtor("Point"));
      var v := Obj(map["b" := inner], ObjectCtor);
      Clone(v).fields["b"] == inner && DeepClone(v).fields["b"] != inner
  {
  }

  /** The usage examples of the file: `isEmptyObject({})` and `clone({x: 10})`. */
  lemma UsageExamples()
    ensures IsEmptyObject(Obj(map[], ObjectCtor))
    ensures Clone(Obj(map["x" := Num(10)], ObjectCtor)) == Obj(map["x" := Num(10)], ObjectCtor)
  {
  }

  /** The usage example `deepClone({a: 1, b: {c: 2}})`: an equal object comes back. */
  lemma DeepCloneExample()
    ensures
      var v := Obj(map["a" := Num(1), "b" := Obj(map["c" := Num(2)], ObjectCtor)], ObjectCtor);
      DeepClone(v) == v
  {
    var inner := Obj(map["c" := Num(2)], ObjectCtor);
    var v := Obj(map["a" := Num(1), "b" := inner], ObjectCtor);
    assert PlainTree(inner);
    assert PlainTree(v) by {
      forall k | k in v.fields ensures PlainTree(v.fields[k]) {
      }
    }
    DeepCloneFixedPoint(v);
  }
}
