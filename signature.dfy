/**
 * The queries `MemoizableArray` memoizes and the signatures it files their
 * results under: `_memKey` as the class writes it, and a structural signature
 * that keeps the four parts apart.
 */
module Signature {
  import opened PhpValues
  import opened PhpArrays

  /** One call of `where`, `whereIn` or `firstWhere`, with its arguments. */
  datatype Query =
    | WhereQuery(key: string, value: Value, strict: bool)
    | WhereInQuery(key: string, values: Entries, strict: bool)
    | FirstWhereQuery(key: string, value: Value, strict: bool)

  /** `Json::encode`, which turns a non-scalar value into a string. */
  type Encoder = Value -> string

  const ClassPrefix: string := "craft\\base\\MemoizableArray::"

  /** PHP's `__METHOD__` inside the method that issues the query. */
  function MethodName(q: Query): string {
    ClassPrefix + match q
      case WhereQuery(_, _, _) => "where"
      case WhereInQuery(_, _, _) => "whereIn"
      case FirstWhereQuery(_, _, _) => "firstWhere"
  }

  /** The value argument handed to `_memKey`: `$value`, or the `$values` array. */
  function Arg(q: Query): (r: Value)
    ensures q.WhereInQuery? ==> r.Arr? && r.entries == q.values && !IsScalar(r)
    ensures !q.WhereInQuery? ==> r == q.value
  {
    match q
    case WhereQuery(_, v, _) => v
    case WhereInQuery(_, vs, _) => Arr(vs)
    case FirstWhereQuery(_, v, _) => v
  }

  /** `$value` after `_memKey`'s normalisation: scalars as PHP prints them, the rest JSON-encoded. */
  function ArgString(v: Value, encode: Encoder): string {
    if IsScalar(v) then ScalarString(v) else encode(v)
  }

  /** How PHP prints a boolean in a string: `true` is "1", `false` is "". */
  function StrictString(strict: bool): (r: string)
    ensures |r| <= 1 && (strict <==> |r| == 1)
    ensures forall i :: 0 <= i < |r| ==> r[i] == '1'
  {
    if strict then "1" else ""
  }

  /** `_memKey`: the string `"$method:$key:$value:$strict"`. */
  function MemKey(q: Query, encode: Encoder): (r: string)
    ensures MethodName(q) + ":" <= r
    ensures |r| > 0 && r[|r| - 1] == (if q.strict then '1' else ':')
  {
    MethodName(q) + ":" + q.key + ":" + ArgString(Arg(q), encode) + ":" + StrictString(q.strict)
  }

  predicate SameMethod(q1: Query, q2: Query) {
    (q1.WhereQuery? && q2.WhereQuery?) || (q1.WhereInQuery? && q2.WhereInQuery?) ||
    (q1.FirstWhereQuery? && q2.FirstWhereQuery?)
  }

  /** The characters of a signature that follow the class prefix tell the three methods apart. */
  lemma MethodMarks(q: Query, encode: Encoder)
    ensures |MemKey(q, encode)| > |ClassPrefix| + 5
    ensures MemKey(q, encode)[|ClassPrefix|] == (if q.FirstWhereQuery? then 'f' else 'w')
    ensures MemKey(q, encode)[|ClassPrefix| + 5] == (if q.WhereQuery? then ':' else if q.WhereInQuery? then 'I' else 'W')
  {
  }

  /** Calls of two different methods never share a cache slot. */
  lemma MemKeyMethodsApart(q1: Query, q2: Query, encode: Encoder)
    requires !SameMethod(q1, q2)
    ensures MemKey(q1, encode) != MemKey(q2, encode)
  {
    MethodMarks(q1, encode);
    MethodMarks(q2, encode);
  }

  /** Calls that differ in the strict flag never share a cache slot. */
  lemma MemKeyStrictApart(q1: Query, q2: Query, encode: Encoder)
    requires q1.strict != q2.strict
    ensures MemKey(q1, encode) != MemKey(q2, encode)
  {
  }

  /**
   * With method, key and strict flag fixed, two calls share a slot exactly when their
   * values print alike.
   */
  lemma MemKeySameSlotIff(q1: Query, q2: Query, encode: Encoder)
    requires SameMethod(q1, q2) && q1.key == q2.key && q1.strict == q2.strict
    ensures MemKey(q1, encode) == MemKey(q2, encode) <==> ArgString(Arg(q1), encode) == ArgString(Arg(q2), encode)
  {
    var head := MethodName(q1) + ":" + q1.key + ":";
    var tail := ":" + StrictString(q1.strict);
    var x1, x2 := ArgString(Arg(q1), encode), ArgString(Arg(q2), encode);
    assert MethodName(q1) == MethodName(q2);
    assert MemKey(q1, encode) == head + x1 + tail;
    assert MemKey(q2, encode) == head + x2 + tail;
    assert (head + x1 + tail)[|head|..|head| + |x1|] == x1;
    assert (head + x2 + tail)[|head|..|head| + |x2|] == x2;
  }

  /** Distinct integer values never share a slot. */
  lemma MemKeyIntsApart(q1: Query, q2: Query, encode: Encoder)
    requires SameMethod(q1, q2) && q1.key == q2.key && q1.strict == q2.strict
    requires Arg(q1).Int? && Arg(q2).Int? && Arg(q1) != Arg(q2)
    ensures MemKey(q1, encode) != MemKey(q2, encode)
  {
    MemKeySameSlotIff(q1, q2, encode);
    if IntToString(Arg(q1).i) == IntToString(Arg(q2).i) {
      IntToStringInjective(Arg(q1).i, Arg(q2).i);
    }
  }

  /** `true`, `1` and `"1"` share one slot, and so do `false` and `""`. */
  lemma MemKeyScalarCollisions(key: string, strict: bool, encode: Encoder)
    ensures MemKey(WhereQuery(key, Bool(true), strict), encode) == MemKey(WhereQuery(key, Int(1), strict), encode)
    ensures MemKey(WhereQuery(key, Int(1), strict), encode) == MemKey(WhereQuery(key, Str("1"), strict), encode)
    ensures MemKey(WhereQuery(key, Bool(false), strict), encode) == MemKey(WhereQuery(key, Str(""), strict), encode)
  {
  }

  /** A colon can move between the key and the value without changing the slot. */
  lemma MemKeyColonCollision(k1: string, k2: string, v: string, strict: bool, encode: Encoder)
    ensures MemKey(WhereQuery(k1 + ":" + k2, Str(v), strict), encode) == MemKey(WhereQuery(k1, Str(k2 + ":" + v), strict), encode)
  {
  }

  /** A non-scalar value shares its slot with the string of its own encoding. */
  lemma MemKeyEncodedCollision(key: string, v: Value, strict: bool, encode: Encoder)
    requires !IsScalar(v)
    ensures MemKey(WhereQuery(key, v, strict), encode) == MemKey(WhereQuery(key, Str(encode(v)), strict), encode)
  {
  }

  /** A signature that keeps method, key, value and strict flag apart as the parts of a tuple. */
  datatype Sig = Sig(methodName: string, key: string, arg: Value, strict: bool)

  /** The tuple holds exactly the four parts that `_memKey` prints and joins with colons. */
  function TupleKey(q: Query): (r: Sig)
    ensures forall encode :: (MemKey(q, encode) ==
      r.methodName + ":" + r.key + ":" + ArgString(r.arg, encode) + ":" + StrictString(r.strict))
  {
    Sig(MethodName(q), q.key, Arg(q), q.strict)
  }

  /** `f` never files two different queries under one signature. */
  ghost predicate Injective<S>(f: Query -> S) {
    forall q1, q2 :: f(q1) == f(q2) ==> q1 == q2
  }

  /** The tuple signature gives every query a slot of its own. */
  lemma TupleKeyInjective()
    ensures Injective(TupleKey)
  {
  }

  /** The source's signature files two different queries under one slot. */
  lemma MemKeyNotInjective(encode: Encoder)
    ensures !Injective((q: Query) => MemKey(q, encode))
  {
    MemKeyScalarCollisions("", true, encode);
    var q1, q2 := WhereQuery("", Bool(true), true), WhereQuery("", Int(1), true);
    var f := (q: Query) => MemKey(q, encode);
    assert f(q1) == f(q2) && q1 != q2;
  }
}
