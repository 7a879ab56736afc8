/**
 * Sequences of calls on a `MemoizableArray`, proved from the class's contracts alone:
 * what a caller of `where`, `firstWhere` and the mutators can count on.
 */
module Clients {
  import opened PhpValues
  import opened PhpArrays
  import opened Matching
  import opened Signature
  import opened Memoizable

  /**
   * A repeated `where` returns the stored result again: the items are scanned once at
   * most, by the first call and only on a miss, never by the second.
   */
  method RepeatedWhere<S(==)>(a: MemoizableArray<S>, key: string, value: Value, strict: bool)
    returns (first: Cached, second: Cached)
    requires a.Valid()
    modifies a
    ensures a.Valid() && a.items == old(a.items)
    ensures second == first
    ensures a.scans == old(a.scans) + (if IsSet(old(a.memo), a.signature(WhereQuery(key, value, strict))) then 0 else 1)
  {
    first := a.Where(key, value, strict);
    ghost var scansBetween := a.scans;
    second := a.Where(key, value, strict);
    assert a.scans == scansBetween;
  }

  /** A repeated `whereIn` returns the stored result again and does not scan the items a second time. */
  method RepeatedWhereIn<S(==)>(a: MemoizableArray<S>, key: string, values: Entries, strict: bool)
    returns (first: Cached, second: Cached)
    requires a.Valid()
    modifies a
    ensures a.Valid() && a.items == old(a.items)
    ensures second == first
    ensures a.scans == old(a.scans) + (if IsSet(old(a.memo), a.signature(WhereInQuery(key, values, strict))) then 0 else 1)
  {
    first := a.WhereIn(key, values, strict);
    ghost var scansBetween := a.scans;
    second := a.WhereIn(key, values, strict);
    assert a.scans == scansBetween;
  }

  /** A repeated `firstWhere` is served from the cache even when the first call found nothing. */
  method RepeatedFirstWhere<S(==)>(a: MemoizableArray<S>, key: string, value: Value, strict: bool)
    returns (first: Cached, second: Cached)
    requires a.Valid()
    modifies a
    ensures a.Valid() && a.items == old(a.items)
    ensures second == first
    ensures a.scans == old(a.scans) + (if a.signature(FirstWhereQuery(key, value, strict)) in old(a.memo) then 0 else 1)
  {
    first := a.FirstWhere(key, value, strict);
    ghost var scansBetween := a.scans;
    second := a.FirstWhere(key, value, strict);
    assert a.scans == scansBetween;
  }

  /**
   * `where`, then `append($x)`, then the same `where`: whatever the signature, the second
   * answer is recomputed over the new items, so it ends with `$x` when `$x` matches.
   */
  method WhereSeesAppend<S(==)>(a: MemoizableArray<S>, key: string, value: Value, strict: bool, x: Value)
    returns (before: Cached, after: Cached)
    requires a.Valid()
    modifies a
    ensures a.Valid() && a.items == AppendEntry(old(a.items), x)
    ensures Injective(a.signature) ==> before == Eval(WhereQuery(key, value, strict), old(a.items), a.matches)
    ensures after == Eval(WhereQuery(key, value, strict), AppendEntry(old(a.items), x), a.matches)
    ensures after.rows ==
      Eval(WhereQuery(key, value, strict), old(a.items), a.matches).rows + (if a.matches(x, key, value, strict) then [x] else [])
  {
    before := a.Where(key, value, strict);
    a.Append(x);
    after := a.Where(key, value, strict);
    WhereAfterAppend(key, value, strict, old(a.items), a.matches, x);
  }

  /**
   * With the source's signature, `where('flag', 1, true)` after `where('flag', true, true)`
   * returns the cached answer of the first call instead of its own.
   */
  method StaleHitAsWritten(m: Matcher, encode: Encoder) returns (first: Cached, second: Cached)
    requires IdentityOnPresentFields(m)
    ensures first == Rows([FlagItem()]) && second == first
    ensures second != Eval(WhereQuery("flag", Int(1), true), [(IntKey(0), FlagItem())], m)
  {
    var a := new MemoizableArray(m, (q: Query) => MemKey(q, encode), [(IntKey(0), FlagItem())]);
    MemKeyScalarCollisions("flag", true, encode);
    FlagQueriesDiffer(m);
    first := a.Where("flag", Bool(true), true);
    second := a.Where("flag", Int(1), true);
  }

  /** With the tuple signature, the same two calls each get their own answer. */
  method DistinctSlotsWithTupleKey(m: Matcher) returns (first: Cached, second: Cached)
    requires IdentityOnPresentFields(m)
    ensures first == Rows([FlagItem()]) && second == Rows([])
  {
    var a := new MemoizableArray(m, TupleKey, [(IntKey(0), FlagItem())]);
    TupleKeyInjective();
    FlagQueriesDiffer(m);
    first := a.Where("flag", Bool(true), true);
    second := a.Where("flag", Int(1), true);
  }
}
