/**
 * `MemoizableArray`: an `ArrayObject` whose `where`, `whereIn` and `firstWhere`
 * results are memoized in `_memoized` under a signature of the call, and whose
 * every mutating override clears that cache after the structural change.
 */
module Memoizable {
  import opened PhpValues
  import opened PhpArrays
  import opened Matching
  import opened Signature

  /** What `_memoized` holds: a filtered collection (`where`, `whereIn`) or one value (`firstWhere`). */
  datatype Cached = Rows(rows: seq<Value>) | One(value: Value)

  /** A fresh evaluation of `q` over `items`, as the `ArrayHelper` call would compute it. */
  function Eval(q: Query, items: Entries, m: Matcher): (r: Cached)
    ensures r.One? <==> q.FirstWhereQuery?
    ensures r.Rows? ==> |r.rows| <= |items|
    ensures r.One? ==> r.value == Null || exists i :: 0 <= i < |items| && items[i].1 == r.value
  {
    match q
    case WhereQuery(k, v, s) => Rows(Select(items, x => m(x, k, v, s)))
    case WhereInQuery(k, vs, s) => Rows(Select(items, x => MatchesAny(m, x, k, vs, s)))
    case FirstWhereQuery(k, v, s) => One(First(items, x => m(x, k, v, s)))
  }

  /** `firstWhere` finds the first row `where` would return with the same arguments, or `null`. */
  lemma FirstWhereIsHeadOfWhere(key: string, value: Value, strict: bool, items: Entries, m: Matcher)
    ensures Eval(FirstWhereQuery(key, value, strict), items, m) ==
      One(var rows := Eval(WhereQuery(key, value, strict), items, m).rows; if rows == [] then Null else rows[0])
  {
    FirstIsHeadOfSelect(items, x => m(x, key, value, strict));
  }

  /** `whereIn` with a single value is `where` with that value. */
  lemma WhereInSingleton(key: string, index: Key, value: Value, strict: bool, items: Entries, m: Matcher)
    ensures Eval(WhereInQuery(key, [(index, value)], strict), items, m) == Eval(WhereQuery(key, value, strict), items, m)
  {
    var p := (x: Value) => MatchesAny(m, x, key, [(index, value)], strict);
    var q := (x: Value) => m(x, key, value, strict);
    assert forall x :: p(x) == q(x) by {
      forall x ensures p(x) == q(x) {
        assert [(index, value)][0].1 == value;
      }
    }
    SelectExtensional(items, p, q);
  }

  /** `whereIn` with no values selects nothing. */
  lemma WhereInNothing(key: string, strict: bool, items: Entries, m: Matcher)
    ensures Eval(WhereInQuery(key, [], strict), items, m) == Rows([])
  {
    var p := (x: Value) => MatchesAny(m, x, key, [], strict);
    SelectNone(items, p);
  }

  /** After `append($x)`, a fresh `where` returns the earlier rows, followed by `$x` when it matches. */
  lemma WhereAfterAppend(key: string, value: Value, strict: bool, items: Entries, m: Matcher, x: Value)
    ensures Eval(WhereQuery(key, value, strict), AppendEntry(items, x), m).rows ==
      Eval(WhereQuery(key, value, strict), items, m).rows + (if m(x, key, value, strict) then [x] else [])
  {
    var p := (v: Value) => m(v, key, value, strict);
    var e := (IntKey(NextIndex(items)), x);
    assert AppendEntry(items, x) == items + [e];
    SelectConcat(items, [e], p);
    assert [e][1..] == [];
  }

  /** PHP's `isset($memo[$s])`: the slot exists and does not hold `null`. */
  predicate IsSet<S>(memo: map<S, Cached>, s: S) {
    s in memo && memo[s] != One(Null)
  }

  /**
   * Every cached entry is a fresh evaluation, over the current items, of a query
   * whose signature is that entry's slot.
   */
  ghost predicate Consistent<S>(memo: map<S, Cached>, items: Entries, m: Matcher, sig: Query -> S) {
    forall s :: s in memo ==> exists q :: sig(q) == s && memo[s] == Eval(q, items, m)
  }

  /** Cache coherence: whatever a query finds in its slot is its own fresh evaluation. */
  ghost predicate Coherent<S>(memo: map<S, Cached>, items: Entries, m: Matcher, sig: Query -> S) {
    forall q :: sig(q) in memo ==> memo[sig(q)] == Eval(q, items, m)
  }

  /** Filing a fresh evaluation under its own signature keeps the cache consistent. */
  lemma ConsistentInsert<S>(memo: map<S, Cached>, items: Entries, m: Matcher, sig: Query -> S, q: Query)
    requires Consistent(memo, items, m, sig)
    ensures Consistent(memo[sig(q) := Eval(q, items, m)], items, m, sig)
  {
  }

  /** A consistent cache answers an injectively signed query with that query's own evaluation. */
  lemma CoherentAt<S>(memo: map<S, Cached>, items: Entries, m: Matcher, sig: Query -> S, q: Query)
    requires Consistent(memo, items, m, sig) && sig(q) in memo
    ensures Injective(sig) ==> memo[sig(q)] == Eval(q, items, m)
  {
  }

  /** Under an injective signature, consistency is coherence. */
  lemma CoherentIfInjective<S>(memo: map<S, Cached>, items: Entries, m: Matcher, sig: Query -> S)
    requires Injective(sig) && Consistent(memo, items, m, sig)
    ensures Coherent(memo, items, m, sig)
  {
  }

  /**
   * Two queries that `_memKey` files together but that evaluate differently leave a
   * consistent cache that is not coherent: the second query is answered with the first's result.
   */
  lemma AsWrittenIncoherent(q1: Query, q2: Query, items: Entries, m: Matcher, encode: Encoder)
    requires MemKey(q1, encode) == MemKey(q2, encode)
    requires Eval(q1, items, m) != Eval(q2, items, m)
    ensures Consistent(map[MemKey(q1, encode) := Eval(q1, items, m)], items, m, (q: Query) => MemKey(q, encode))
    ensures !Coherent(map[MemKey(q1, encode) := Eval(q1, items, m)], items, m, (q: Query) => MemKey(q, encode))
  {
  }

  /** A record whose `flag` field is `true`. */
  function FlagItem(): Value {
    Arr([(StrKey("flag"), Bool(true))])
  }

  /** Under `===`, `where('flag', true, true)` selects the flag record and `where('flag', 1, true)` does not. */
  lemma FlagQueriesDiffer(m: Matcher)
    requires IdentityOnPresentFields(m)
    ensures Eval(WhereQuery("flag", Bool(true), true), [(IntKey(0), FlagItem())], m) == Rows([FlagItem()])
    ensures Eval(WhereQuery("flag", Int(1), true), [(IntKey(0), FlagItem())], m) == Rows([])
  {
  }

  /** Yet `_memKey` files those two calls in one slot. */
  lemma BoolIntSlotConfusion(m: Matcher, encode: Encoder)
    requires IdentityOnPresentFields(m)
    ensures MemKey(WhereQuery("flag", Bool(true), true), encode) == MemKey(WhereQuery("flag", Int(1), true), encode)
    ensures Eval(WhereQuery("flag", Bool(true), true), [(IntKey(0), FlagItem())], m) !=
      Eval(WhereQuery("flag", Int(1), true), [(IntKey(0), FlagItem())], m)
  {
  }

  /** A record with a field `a` holding "b:c" and a field `a:b` holding "x". */
  function ColonItem(): Value {
    Arr([(StrKey("a"), Str("b:c")), (StrKey("a:b"), Str("x"))])
  }

  /**
   * `where('a', 'b:c', true)` and `where('a:b', 'c', true)` share a slot although the
   * first selects the record and the second does not.
   */
  lemma ColonSlotConfusion(m: Matcher, encode: Encoder)
    requires IdentityOnPresentFields(m)
    ensures MemKey(WhereQuery("a", Str("b:c"), true), encode) == MemKey(WhereQuery("a:b", Str("c"), true), encode)
    ensures Eval(WhereQuery("a", Str("b:c"), true), [(IntKey(0), ColonItem())], m) == Rows([ColonItem()])
    ensures Eval(WhereQuery("a:b", Str("c"), true), [(IntKey(0), ColonItem())], m) == Rows([])
  {
  }

  class MemoizableArray<S(==)> {
    /** The comparison `ArrayHelper` applies. */
    const matches: Matcher
    /** The signature a query's result is filed under (`_memKey` in the source). */
    const signature: Query -> S
    /** The `ArrayObject` storage, in iteration order. */
    var items: Entries
    /** `_memoized`. */
    var memo: map<S, Cached>
    /** How many times a query has scanned the items. */
    ghost var scans: nat

    ghost predicate Valid()
      reads this
    {
      UniqueKeys(items) && Consistent(memo, items, matches, signature)
    }

    /** `new MemoizableArray($array)`: the items given, an empty cache. */
    constructor(matches: Matcher, signature: Query -> S, items: Entries)
      requires UniqueKeys(items)
      ensures Valid()
      ensures this.matches == matches && this.signature == signature
      ensures this.items == items && memo == map[] && scans == 0
    {
      this.matches := matches;
      this.signature := signature;
      this.items := items;
      memo := map[];
      scans := 0;
    }

    /** `all()`: the stored items in their current order, whatever the cache holds. */
    method All() returns (r: Entries)
      ensures r == items
    {
      r := items;
    }

    /** `where()`: the cached result when its slot is set, otherwise a fresh filter that is then cached. */
    method Where(key: string, value: Value := Bool(true), strict: bool := false) returns (r: Cached)
      requires Valid()
      modifies this`memo, this`scans
      ensures Valid() && items == old(items)
      ensures memo == old(memo)[signature(WhereQuery(key, value, strict)) := r]
      ensures IsSet(old(memo), signature(WhereQuery(key, value, strict))) ==>
        r == old(memo)[signature(WhereQuery(key, value, strict))] && scans == old(scans)
      ensures !IsSet(old(memo), signature(WhereQuery(key, value, strict))) ==>
        r == Eval(WhereQuery(key, value, strict), items, matches) && scans == old(scans) + 1
      ensures Injective(signature) ==> r == Eval(WhereQuery(key, value, strict), items, matches)
    {
      var q := WhereQuery(key, value, strict);
      var s := signature(q);
      if !IsSet(memo, s) {
        ConsistentInsert(memo, items, matches, signature, q);
        memo := memo[s := Eval(q, items, matches)];
        scans := scans + 1;
      }
      r := memo[s];
      CoherentAt(memo, items, matches, signature, q);
    }

    /** `whereIn()`: as `where`, matching any of `values`. */
    method WhereIn(key: string, values: Entries, strict: bool := false) returns (r: Cached)
      requires Valid()
      modifies this`memo, this`scans
      ensures Valid() && items == old(items)
      ensures memo == old(memo)[signature(WhereInQuery(key, values, strict)) := r]
      ensures IsSet(old(memo), signature(WhereInQuery(key, values, strict))) ==>
        r == old(memo)[signature(WhereInQuery(key, values, strict))] && scans == old(scans)
      ensures !IsSet(old(memo), signature(WhereInQuery(key, values, strict))) ==>
        r == Eval(WhereInQuery(key, values, strict), items, matches) && scans == old(scans) + 1
      ensures Injective(signature) ==> r == Eval(WhereInQuery(key, values, strict), items, matches)
    {
      var q := WhereInQuery(key, values, strict);
      var s := signature(q);
      if !IsSet(memo, s) {
        ConsistentInsert(memo, items, matches, signature, q);
        memo := memo[s := Eval(q, items, matches)];
        scans := scans + 1;
      }
      r := memo[s];
      CoherentAt(memo, items, matches, signature, q);
    }

    /**
     * `firstWhere()`: the slot is tested with `array_key_exists`, so a cached `null`
     * (no match) is a hit too.
     */
    method FirstWhere(key: string, value: Value := Bool(true), strict: bool := false) returns (r: Cached)
      requires Valid()
      modifies this`memo, this`scans
      ensures Valid() && items == old(items)
      ensures memo == old(memo)[signature(FirstWhereQuery(key, value, strict)) := r]
      ensures signature(FirstWhereQuery(key, value, strict)) in old(memo) ==>
        r == old(memo)[signature(FirstWhereQuery(key, value, strict))] && scans == old(scans)
      ensures signature(FirstWhereQuery(key, value, strict)) !in old(memo) ==>
        r == Eval(FirstWhereQuery(key, value, strict), items, matches) && scans == old(scans) + 1
      ensures Injective(signature) ==> r == Eval(FirstWhereQuery(key, value, strict), items, matches)
    {
      var q := FirstWhereQuery(key, value, strict);
      var s := signature(q);
      if s !in memo {
        ConsistentInsert(memo, items, matches, signature, q);
        memo := memo[s := Eval(q, items, matches)];
        scans := scans + 1;
      }
      r := memo[s];
      CoherentAt(memo, items, matches, signature, q);
    }

    /** `append()`: the value goes to the end under the next integer index; the cache is emptied. */
    method Append(value: Value)
      requires Valid()
      modifies this`items, this`memo
      ensures Valid()
      ensures items == AppendEntry(old(items), value) && memo == map[]
    {
      items := AppendEntry(items, value);
      memo := map[];
    }

    /** `exchangeArray()`: the items become `replacement`, the previous items are returned, the cache is emptied. */
    method ExchangeArray(replacement: Entries) returns (previous: Entries)
      requires Valid() && UniqueKeys(replacement)
      modifies this`items, this`memo
      ensures Valid()
      ensures previous == old(items) && items == replacement && memo == map[]
    {
      previous := items;
      items := replacement;
      memo := map[];
    }

    /**
     * `offsetSet()`: `$a[$key] = $value`, or `$a[] = $value` when the key is `null`
     * (`None`); the cache is emptied.
     */
    method OffsetSet(key: Option<Key>, value: Value)
      requires Valid()
      modifies this`items, this`memo
      ensures Valid()
      ensures items == (match key case None => AppendEntry(old(items), value)
                                  case Some(k) => SetEntry(old(items), k, value))
      ensures memo == map[]
    {
      match key {
        case None =>
          items := AppendEntry(items, value);
        case Some(k) =>
          SetEntryLookup(items, k, value, k);
          items := SetEntry(items, k, value);
      }
      memo := map[];
    }

    /** `offsetUnset()`: the entry under `key`, if any, is removed; the cache is emptied either way. */
    method OffsetUnset(key: Key)
      requires Valid()
      modifies this`items, this`memo
      ensures Valid()
      ensures items == UnsetEntry(old(items), key) && memo == map[]
    {
      UnsetEntryLookup(items, key, key);
      items := UnsetEntry(items, key);
      memo := map[];
    }

    /** The part every sort shares: the items take the order `sorted`, then the cache is emptied. */
    method Reorder(sorted: Entries)
      requires Valid() && IsPermutation(sorted, items)
      modifies this`items, this`memo
      ensures Valid()
      ensures items == sorted && memo == map[]
    {
      PermutationKeepsUniqueKeys(items, sorted);
      items := sorted;
      memo := map[];
    }

    /** `asort()`: by value, keys kept; the ordering `$flags` selects is given as `sorted`. */
    method Asort(sorted: Entries)
      requires Valid() && IsPermutation(sorted, items)
      modifies this`items, this`memo
      ensures Valid()
      ensures items == sorted && memo == map[]
    {
      Reorder(sorted);
    }

    /** `ksort()`: by key; the ordering `$flags` selects is given as `sorted`. */
    method Ksort(sorted: Entries)
      requires Valid() && IsPermutation(sorted, items)
      modifies this`items, this`memo
      ensures Valid()
      ensures items == sorted && memo == map[]
    {
      Reorder(sorted);
    }

    /** `natcasesort()`: case-insensitive natural order of the values, given as `sorted`. */
    method Natcasesort(sorted: Entries)
      requires Valid() && IsPermutation(sorted, items)
      modifies this`items, this`memo
      ensures Valid()
      ensures items == sorted && memo == map[]
    {
      Reorder(sorted);
    }

    /** `natsort()`: natural order of the values, given as `sorted`. */
    method Natsort(sorted: Entries)
      requires Valid() && IsPermutation(sorted, items)
      modifies this`items, this`memo
      ensures Valid()
      ensures items == sorted && memo == map[]
    {
      Reorder(sorted);
    }

    /** `uasort()`: by value under the caller's comparator; the resulting order is given as `sorted`. */
    method Uasort(sorted: Entries)
      requires Valid() && IsPermutation(sorted, items)
      modifies this`items, this`memo
      ensures Valid()
      ensures items == sorted && memo == map[]
    {
      Reorder(sorted);
    }

    /** `uksort()`: by key under the caller's comparator; the resulting order is given as `sorted`. */
    method Uksort(sorted: Entries)
      requires Valid() && IsPermutation(sorted, items)
      modifies this`items, this`memo
      ensures Valid()
      ensures items == sorted && memo == map[]
    {
      Reorder(sorted);
    }
  }
}
