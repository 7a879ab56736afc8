/**
 * The matching rule behind `ArrayHelper::where`, `ArrayHelper::whereIn` and
 * `ArrayHelper::firstWhere`. The comparison itself (reading a sub-array key or
 * object property, PHP's loose `==` or strict `===`) is a parameter: a `Matcher`.
 */
module Matching {
  import opened PhpValues
  import opened PhpArrays

  /** `m(item, key, value, strict)`: does the `key` of `item` compare equal to `value`? */
  type Matcher = (Value, string, Value, bool) -> bool

  /** The values of `items`, in order, that satisfy `p`; the keys are not kept. */
  function Select(items: Entries, p: Value -> bool): (r: seq<Value>)
    ensures |r| <= |items|
    ensures forall v :: v in r <==> exists i :: 0 <= i < |items| && items[i].1 == v && p(v)
  {
    if |items| == 0 then []
    else
      var rest := Select(items[1..], p);
      assert forall i :: 0 <= i < |items| - 1 ==> items[1..][i] == items[i + 1];
      (if p(items[0].1) then [items[0].1] else []) + rest
  }

  /** Selection keeps the relative order: it distributes over concatenation. */
  lemma {:induction false} SelectConcat(a: Entries, b: Entries, p: Value -> bool)
    ensures Select(a + b, p) == Select(a, p) + Select(b, p)
    decreases |a|
  {
    if |a| > 0 {
      assert (a + b)[1..] == a[1..] + b;
      SelectConcat(a[1..], b, p);
    } else {
      assert a + b == b;
    }
  }

  /** Two predicates that agree on every value select the same values. */
  lemma {:induction false} SelectExtensional(items: Entries, p: Value -> bool, q: Value -> bool)
    requires forall v :: p(v) == q(v)
    ensures Select(items, p) == Select(items, q)
    decreases |items|
  {
    if |items| > 0 {
      SelectExtensional(items[1..], p, q);
    }
  }

  /** A predicate that holds of no value selects nothing. */
  lemma {:induction false} SelectNone(items: Entries, p: Value -> bool)
    requires forall v :: !p(v)
    ensures Select(items, p) == []
    decreases |items|
  {
    if |items| > 0 {
      SelectNone(items[1..], p);
    }
  }

  /** Position `j` holds the first value of `items` satisfying `p`. */
  predicate IsFirstMatch(items: Entries, p: Value -> bool, j: int) {
    0 <= j < |items| && p(items[j].1) && forall i :: 0 <= i < j ==> !p(items[i].1)
  }

  /** The first value of `items` satisfying `p`, or `null` when there is none. */
  function First(items: Entries, p: Value -> bool): (r: Value)
    ensures (forall i :: 0 <= i < |items| ==> !p(items[i].1)) ==> r == Null
    ensures (exists i :: 0 <= i < |items| && p(items[i].1)) ==>
      exists j :: IsFirstMatch(items, p, j) && r == items[j].1
  {
    if |items| == 0 then Null
    else if p(items[0].1) then
      assert IsFirstMatch(items, p, 0);
      items[0].1
    else
      var rest := First(items[1..], p);
      assert forall i :: 0 <= i < |items| - 1 ==> items[1..][i] == items[i + 1];
      assert forall j :: IsFirstMatch(items[1..], p, j) ==> IsFirstMatch(items, p, j + 1);
      rest
  }

  /** `firstWhere` is the head of what `where` would return, or `null` when that is empty. */
  lemma {:induction false} FirstIsHeadOfSelect(items: Entries, p: Value -> bool)
    ensures First(items, p) == if Select(items, p) == [] then Null else Select(items, p)[0]
    decreases |items|
  {
    if |items| > 0 && !p(items[0].1) {
      FirstIsHeadOfSelect(items[1..], p);
    }
  }

  /** The comparison `ArrayHelper::whereIn` applies: the field equals one of `values`. */
  predicate MatchesAny(m: Matcher, item: Value, key: string, values: Entries, strict: bool) {
    exists i :: 0 <= i < |values| && m(item, key, values[i].1, strict)
  }

  /** `obj.key` for a sub-array key: the value under the string key `key`, if present. */
  function Field(item: Value, key: string): Option<Value> {
    if item.Arr? then Lookup(item.entries, StrKey(key)) else None
  }

  /**
   * The strict comparison of a matcher is PHP's `===` on fields that are present:
   * `true === 1` is false, for instance.
   */
  ghost predicate IdentityOnPresentFields(m: Matcher) {
    forall item, key, value :: Field(item, key).Some? ==> (m(item, key, value, true) <==> Field(item, key) == Some(value))
  }
}
