/**
 * The ordered, key-addressable storage that `MemoizableArray` inherits from
 * PHP's `ArrayObject`: a list of key/value entries in iteration order, each key
 * at most once, with the structural operations the class's overrides delegate to.
 */
module PhpArrays {
  import opened PhpValues

  type Entries = seq<(Key, Value)>

  predicate HasKey(items: Entries, k: Key) {
    exists i :: 0 <= i < |items| && items[i].0 == k
  }

  /** A PHP array never holds one key twice. */
  predicate UniqueKeys(items: Entries) {
    forall i, j :: 0 <= i < j < |items| ==> items[i].0 != items[j].0
  }

  /** The value stored under `k`, if any (`$array[$k]` when `array_key_exists($k, $array)`). */
  function Lookup(items: Entries, k: Key): (r: Option<Value>)
    ensures r.Some? <==> HasKey(items, k)
    ensures r.Some? ==> exists i :: 0 <= i < |items| && items[i] == (k, r.value)
  {
    if |items| == 0 then None
    else if items[0].0 == k then Some(items[0].1)
    else
      var r := Lookup(items[1..], k);
      assert r.Some? ==> exists i :: 0 <= i < |items| - 1 && items[1..][i] == (k, r.value);
      assert HasKey(items[1..], k) ==> HasKey(items, k) by {
        if HasKey(items[1..], k) {
          var i :| 0 <= i < |items| - 1 && items[1..][i].0 == k;
          assert items[i + 1].0 == k;
        }
      }
      assert HasKey(items, k) ==> HasKey(items[1..], k) by {
        if HasKey(items, k) {
          var i :| 0 <= i < |items| && items[i].0 == k;
          assert items[1..][i - 1].0 == k;
        }
      }
      r
  }

  /** With unique keys, the entry at position `i` is what a lookup of its key finds. */
  lemma {:induction false} LookupAt(items: Entries, i: nat)
    requires UniqueKeys(items) && i < |items|
    ensures Lookup(items, items[i].0) == Some(items[i].1)
  {
  }

  /** The largest integer key, if any (PHP's `max` over the integer keys). */
  function MaxIntKey(items: Entries): (r: Option<int>)
    ensures r.None? <==> forall i :: 0 <= i < |items| ==> !items[i].0.IntKey?
    ensures r.Some? ==> (exists i :: 0 <= i < |items| && items[i].0 == IntKey(r.value))
    ensures r.Some? ==> forall i :: 0 <= i < |items| && items[i].0.IntKey? ==> items[i].0.n <= r.value
  {
    if |items| == 0 then None
    else
      var rest := MaxIntKey(items[..|items| - 1]);
      assert forall i :: 0 <= i < |items| - 1 ==> items[..|items| - 1][i] == items[i];
      var last := items[|items| - 1].0;
      if !last.IntKey? then rest
      else if rest.None? || rest.value < last.n then Some(last.n)
      else rest
  }

  /**
   * The key `$array[] = $value` assigns: one more than the largest integer key, or 0
   * when there is none.
   */
  function NextIndex(items: Entries): (n: int)
    ensures !HasKey(items, IntKey(n))
    ensures forall i :: 0 <= i < |items| && items[i].0.IntKey? ==> items[i].0.n < n
  {
    match MaxIntKey(items)
    case None => 0
    case Some(m) => m + 1
  }

  /** `$array[] = $value`: a new entry at the end, under the next integer index. */
  function AppendEntry(items: Entries, value: Value): (r: Entries)
    ensures UniqueKeys(items) ==> UniqueKeys(r)
    ensures |r| == |items| + 1 && r[..|items|] == items
    ensures r[|items|] == (IntKey(NextIndex(items)), value)
  {
    var r := items + [(IntKey(NextIndex(items)), value)];
    assert r[..|items|] == items;
    r
  }

  /**
   * `$array[$k] = $value`: an existing entry keeps its position and takes the new
   * value; a new key is added at the end.
   */
  function SetEntry(items: Entries, k: Key, value: Value): (r: Entries)
    ensures |r| == |items| + (if HasKey(items, k) then 0 else 1)
    ensures forall i :: 0 <= i < |items| ==> r[i].0 == items[i].0
    ensures (k, value) in r
  {
    if HasKey(items, k) then
      seq(|items|, i requires 0 <= i < |items| => if items[i].0 == k then (k, value) else items[i])
    else
      items + [(k, value)]
  }

  /** `SetEntry` keeps the keys unique, stores `value` under `k` and no other key changes. */
  lemma SetEntryLookup(items: Entries, k: Key, value: Value, other: Key)
    requires UniqueKeys(items)
    ensures UniqueKeys(SetEntry(items, k, value))
    ensures Lookup(SetEntry(items, k, value), k) == Some(value)
    ensures other != k ==> Lookup(SetEntry(items, k, value), other) == Lookup(items, other)
  {
    var r := SetEntry(items, k, value);
    assert forall i :: 0 <= i < |items| ==> r[i].0 == items[i].0;
    assert UniqueKeys(r);
    var j :| 0 <= j < |r| && r[j].0 == k;
    assert r[j] == (k, value);
    LookupAt(r, j);
    if other != k {
      if HasKey(items, other) {
        var i :| 0 <= i < |items| && items[i].0 == other;
        LookupAt(items, i);
        LookupAt(r, i);
      } else {
        assert !HasKey(r, other);
      }
    }
  }

  /** `unset($array[$k])`: drops the entry under `k`, if there is one, keeping the order of the rest. */
  function UnsetEntry(items: Entries, k: Key): (r: Entries)
    ensures !HasKey(r, k)
    ensures !HasKey(items, k) ==> r == items
    ensures forall e :: e in r <==> e in items && e.0 != k
  {
    if |items| == 0 then []
    else
      var rest := UnsetEntry(items[1..], k);
      assert HasKey(items[1..], k) ==> HasKey(items, k) by {
        if HasKey(items[1..], k) {
          var i :| 0 <= i < |items| - 1 && items[1..][i].0 == k;
          assert items[i + 1].0 == k;
        }
      }
      assert items == [items[0]] + items[1..];
      if items[0].0 == k then rest else [items[0]] + rest
  }

  lemma UniqueTail(items: Entries)
    requires UniqueKeys(items) && |items| > 0
    ensures UniqueKeys(items[1..])
  {
  }

  /** Removing a key never makes another key occur twice. */
  lemma {:induction false} UnsetEntryUnique(items: Entries, k: Key)
    requires UniqueKeys(items)
    ensures UniqueKeys(UnsetEntry(items, k))
    decreases |items|
  {
    if |items| > 0 {
      UniqueTail(items);
      UnsetEntryUnique(items[1..], k);
      var rest := UnsetEntry(items[1..], k);
      if items[0].0 != k {
        forall i | 0 <= i < |rest| ensures rest[i].0 != items[0].0 {
          assert rest[i] in items[1..];
          var j :| 0 <= j < |items| - 1 && items[1..][j] == rest[i];
          assert items[j + 1] == rest[i];
        }
        var r := [items[0]] + rest;
        forall a, b | 0 <= a < b < |r| ensures r[a].0 != r[b].0 {
          assert r[b] == rest[b - 1];
          if a > 0 { assert r[a] == rest[a - 1]; }
        }
      }
    }
  }

  /** `r` is `s` with some entries left out, the rest in their original order. */
  predicate IsSubsequence(r: Entries, s: Entries)
    decreases |s|
  {
    |r| == 0 || (|s| > 0 && ((r[0] == s[0] && IsSubsequence(r[1..], s[1..])) || IsSubsequence(r, s[1..])))
  }

  /** `unset` keeps the surviving entries in their original order. */
  lemma {:induction false} UnsetEntryKeepsOrder(items: Entries, k: Key)
    ensures IsSubsequence(UnsetEntry(items, k), items)
    decreases |items|
  {
    if |items| > 0 {
      UnsetEntryKeepsOrder(items[1..], k);
      var rest := UnsetEntry(items[1..], k);
      if items[0].0 != k {
        assert ([items[0]] + rest)[1..] == rest;
      }
    }
  }

  /** `UnsetEntry` keeps keys unique and leaves every other key's value alone. */
  lemma UnsetEntryLookup(items: Entries, k: Key, other: Key)
    requires UniqueKeys(items)
    ensures UniqueKeys(UnsetEntry(items, k))
    ensures Lookup(UnsetEntry(items, k), k) == None
    ensures other != k ==> Lookup(UnsetEntry(items, k), other) == Lookup(items, other)
  {
    var r := UnsetEntry(items, k);
    UnsetEntryUnique(items, k);
    if other != k {
      if HasKey(items, other) {
        var i :| 0 <= i < |items| && items[i].0 == other;
        LookupAt(items, i);
        assert items[i] in r;
        var j :| 0 <= j < |r| && r[j] == items[i];
        LookupAt(r, j);
      } else {
        forall j | 0 <= j < |r| ensures r[j].0 != other {
          assert r[j] in items;
        }
      }
    }
  }

  /** Two orders of the same entries: what a PHP sort (which keeps each key with its value) produces. */
  predicate IsPermutation(a: Entries, b: Entries) {
    multiset(a) == multiset(b)
  }

  lemma {:induction false} UniqueMultiplicity(items: Entries, e: (Key, Value))
    requires UniqueKeys(items)
    ensures multiset(items)[e] <= 1
    decreases |items|
  {
    if |items| > 0 {
      var front := items[..|items| - 1];
      assert items == front + [items[|items| - 1]];
      assert UniqueKeys(front) by {
        forall a, b | 0 <= a < b < |front| ensures front[a].0 != front[b].0 {
          assert front[a] == items[a] && front[b] == items[b];
        }
      }
      UniqueMultiplicity(front, e);
      if items[|items| - 1] == e {
        forall j | 0 <= j < |front| ensures front[j] != e {
          assert items[j].0 != items[|items| - 1].0;
        }
        assert e !in front;
      }
    }
  }

  /** In a reordering of an array with unique keys, no entry occurs twice. */
  lemma PermutationDistinctEntries(a: Entries, b: Entries, i: nat, j: nat)
    requires UniqueKeys(a) && IsPermutation(a, b) && i < j < |b|
    ensures b[i] != b[j]
  {
    UniqueMultiplicity(a, b[i]);
    assert b == b[..j] + b[j..];
    assert b[i] == b[..j][i] && b[j] == b[j..][0];
    assert multiset(b)[b[i]] == multiset(b[..j])[b[i]] + multiset(b[j..])[b[i]];
  }

  /** Reordering an array never makes a key occur twice. */
  lemma PermutationKeepsUniqueKeys(a: Entries, b: Entries)
    requires UniqueKeys(a) && IsPermutation(a, b)
    ensures UniqueKeys(b)
  {
    forall i, j | 0 <= i < j < |b| ensures b[i].0 != b[j].0 {
      PermutationDistinctEntries(a, b, i, j);
      assert b[i] in multiset(a) && b[j] in multiset(a);
      var x :| 0 <= x < |a| && a[x] == b[i];
      var y :| 0 <= y < |a| && a[y] == b[j];
      assert x < y || y < x;
    }
  }
}
