/**
 * The array operations the source uses on comment lists, as functions on
 * sequences: `filter`, `find`/`findIndex` by key, the
 * "keep the first occurrence of each id" filter, and a stable sort by a
 * numeric key, newest (largest) first.
 */
module Lists {
  import opened Wrappers

  /** `xs.filter(p)`. */
  function Filter<T>(xs: seq<T>, p: T -> bool): (r: seq<T>)
    ensures |r| <= |xs|
    ensures forall x :: x in r ==> x in xs && p(x)
    ensures forall x :: x in xs && p(x) ==> x in r
    ensures multiset(r) <= multiset(xs)
  {
    if xs == [] then []
    else
      assert xs == [xs[0]] + xs[1..];
      (if p(xs[0]) then [xs[0]] else []) + Filter(xs[1..], p)
  }

  /** Filtering a list whose every element passes changes nothing. */
  lemma {:induction false} FilterAll<T>(xs: seq<T>, p: T -> bool)
    requires forall x :: x in xs ==> p(x)
    ensures Filter(xs, p) == xs
  {
    if xs != [] {
      assert xs == [xs[0]] + xs[1..];
      FilterAll(xs[1..], p);
    }
  }

  /** Filtering distributes over concatenation, so relative order is kept. */
  lemma {:induction false} FilterAppend<T>(xs: seq<T>, ys: seq<T>, p: T -> bool)
    ensures Filter(xs + ys, p) == Filter(xs, p) + Filter(ys, p)
  {
    if xs == [] {
      assert xs + ys == ys;
    } else {
      assert (xs + ys)[1..] == xs[1..] + ys;
      FilterAppend(xs[1..], ys, p);
    }
  }

  /** Filtering keeps no element when none passes. */
  lemma {:induction false} FilterNone<T>(xs: seq<T>, p: T -> bool)
    requires forall x :: x in xs ==> !p(x)
    ensures Filter(xs, p) == []
  {
    if xs != [] {
      assert xs == [xs[0]] + xs[1..];
      FilterNone(xs[1..], p);
    }
  }

  /** `xs.findIndex(x => key(x) === k)`, with None for -1. */
  function IndexOfKey<T>(xs: seq<T>, key: T -> string, k: string): (r: Option<nat>)
    ensures r.Some? ==> r.value < |xs| && key(xs[r.value]) == k
    ensures r.Some? ==> forall j :: 0 <= j < r.value ==> key(xs[j]) != k
    ensures r.None? <==> forall j :: 0 <= j < |xs| ==> key(xs[j]) != k
  {
    if xs == [] then None
    else if key(xs[0]) == k then Some(0)
    else
      match IndexOfKey(xs[1..], key, k)
      case None => None
      case Some(i) => Some(i + 1)
  }

  /** The element `xs.find(x => key(x) === k)` returns. */
  function FirstWithKey<T>(xs: seq<T>, key: T -> string, k: string): Option<T> {
    match IndexOfKey(xs, key, k)
    case None => None
    case Some(i) => Some(xs[i])
  }

  /** No two elements share a key. */
  predicate UniqueKeys<T>(xs: seq<T>, key: T -> string) {
    forall i, j :: 0 <= i < j < |xs| ==> key(xs[i]) != key(xs[j])
  }

  /** The tail of a list of unique keys has unique keys, none of them the head's. */
  lemma UniqueKeysTail<T>(xs: seq<T>, key: T -> string)
    requires xs != [] && UniqueKeys(xs, key)
    ensures UniqueKeys(xs[1..], key)
    ensures forall y :: y in xs[1..] ==> key(y) != key(xs[0])
  {
    var t := xs[1..];
    forall i, j | 0 <= i < j < |t| ensures key(t[i]) != key(t[j]) {
      assert t[i] == xs[i + 1] && t[j] == xs[j + 1];
    }
    forall y | y in t ensures key(y) != key(xs[0]) {
      var j :| 0 <= j < |t| && t[j] == y;
      assert xs[j + 1] == y;
    }
  }

  /** Dropping elements never makes two of them share a key. */
  lemma {:induction false} FilterUniqueKeys<T>(xs: seq<T>, p: T -> bool, key: T -> string)
    requires UniqueKeys(xs, key)
    ensures UniqueKeys(Filter(xs, p), key)
  {
    if xs != [] {
      UniqueKeysTail(xs, key);
      FilterUniqueKeys(xs[1..], p, key);
      var rest := Filter(xs[1..], p);
      if p(xs[0]) {
        UniqueKeysCons(xs[0], rest, key);
        assert Filter(xs, p) == [xs[0]] + rest;
      } else {
        assert Filter(xs, p) == rest;
      }
    }
  }

  /** The set of keys carried by the elements of `xs`. */
  function Keys<T(==)>(xs: seq<T>, key: T -> string): set<string> {
    set x | x in xs :: key(x)
  }

  lemma KeysAppendOne<T>(xs: seq<T>, x: T, key: T -> string)
    ensures Keys(xs + [x], key) == Keys(xs, key) + {key(x)}
  {
    assert x in xs + [x];
    forall y | y in xs ensures y in xs + [x] { }
  }

  /**
   * The first `n` elements of `xs` passed through
   * `xs.filter((x, i, self) => i === self.findIndex(y => key(y) === key(x)))`.
   */
  function DedupePrefix<T>(xs: seq<T>, key: T -> string, n: nat): (r: seq<T>)
    requires n <= |xs|
    ensures |r| <= n
  {
    if n == 0 then []
    else
      DedupePrefix(xs, key, n - 1)
      + (if IndexOfKey(xs, key, key(xs[n - 1])) == Some(n - 1) then [xs[n - 1]] else [])
  }

  /**
   * The first-occurrence filter over the whole list: it leaves no two elements with one
   * key, loses no key, and always keeps the earliest carrier of each key.
   */
  function Dedupe<T>(xs: seq<T>, key: T -> string): (r: seq<T>)
    ensures UniqueKeys(r, key)
    ensures Keys(r, key) == Keys(xs, key)
    ensures forall y :: y in r ==> FirstWithKey(xs, key, key(y)) == Some(y)
  {
    DedupePrefixSpec(xs, key, |xs|);
    assert xs[..|xs|] == xs;
    DedupePrefix(xs, key, |xs|)
  }

  /** An element that is not the first carrier of its key has an earlier carrier. */
  lemma KeySeenBefore<T>(xs: seq<T>, key: T -> string, n: nat)
    requires 0 < n <= |xs| && IndexOfKey(xs, key, key(xs[n - 1])) != Some(n - 1)
    ensures key(xs[n - 1]) in Keys(xs[..n - 1], key)
  {
    var i := IndexOfKeyBefore(xs, key, n);
    assert xs[..n - 1][i] == xs[i];
    InKeys(xs[..n - 1], key, i, key(xs[n - 1]));
  }

  /** When `xs[n - 1]` is not the first carrier of its key, the first carrier comes earlier. */
  lemma IndexOfKeyBefore<T>(xs: seq<T>, key: T -> string, n: nat) returns (i: nat)
    requires 0 < n <= |xs| && IndexOfKey(xs, key, key(xs[n - 1])) != Some(n - 1)
    ensures i < n - 1 && key(xs[i]) == key(xs[n - 1])
  {
    var r := IndexOfKey(xs, key, key(xs[n - 1]));
    assert r.Some? by {
      assert key(xs[n - 1]) == key(xs[n - 1]);
    }
    i := r.value;
    assert i <= n - 1;
  }

  /** A key carried at some index is among the keys. */
  lemma InKeys<T>(xs: seq<T>, key: T -> string, i: nat, k: string)
    requires i < |xs| && key(xs[i]) == k
    ensures k in Keys(xs, key)
  {
    assert xs[i] in xs;
  }

  /** The first carrier of a key has no earlier carrier. */
  lemma KeyNotSeenBefore<T>(xs: seq<T>, key: T -> string, n: nat)
    requires 0 < n <= |xs| && IndexOfKey(xs, key, key(xs[n - 1])) == Some(n - 1)
    ensures key(xs[n - 1]) !in Keys(xs[..n - 1], key)
  {
    forall y | y in xs[..n - 1] ensures key(y) != key(xs[n - 1]) {
      var j :| 0 <= j < n - 1 && xs[..n - 1][j] == y;
      assert xs[j] == y;
    }
  }

  /** The filtered prefix carries exactly the keys of the prefix. */
  lemma {:induction false} DedupePrefixKeys<T>(xs: seq<T>, key: T -> string, n: nat)
    requires n <= |xs|
    ensures Keys(DedupePrefix(xs, key, n), key) == Keys(xs[..n], key)
  {
    if n > 0 {
      DedupePrefixKeys(xs, key, n - 1);
      if IndexOfKey(xs, key, key(xs[n - 1])) == Some(n - 1) {
        DedupeKeysFirst(xs, key, n);
      } else {
        DedupeKeysRepeat(xs, key, n);
      }
    }
  }

  /** The step of `DedupePrefixKeys` when `xs[n - 1]` is the first carrier of its key. */
  lemma DedupeKeysFirst<T>(xs: seq<T>, key: T -> string, n: nat)
    requires 0 < n <= |xs| && IndexOfKey(xs, key, key(xs[n - 1])) == Some(n - 1)
    requires Keys(DedupePrefix(xs, key, n - 1), key) == Keys(xs[..n - 1], key)
    ensures Keys(DedupePrefix(xs, key, n), key) == Keys(xs[..n], key)
  {
    var x := xs[n - 1];
    assert xs[..n] == xs[..n - 1] + [x];
    KeysAppendOne(xs[..n - 1], x, key);
    KeysAppendOne(DedupePrefix(xs, key, n - 1), x, key);
  }

  /** The step of `DedupePrefixKeys` when an earlier element already carries the key of `xs[n - 1]`. */
  lemma DedupeKeysRepeat<T>(xs: seq<T>, key: T -> string, n: nat)
    requires 0 < n <= |xs| && IndexOfKey(xs, key, key(xs[n - 1])) != Some(n - 1)
    requires Keys(DedupePrefix(xs, key, n - 1), key) == Keys(xs[..n - 1], key)
    ensures Keys(DedupePrefix(xs, key, n), key) == Keys(xs[..n], key)
  {
    var x := xs[n - 1];
    assert xs[..n] == xs[..n - 1] + [x];
    KeysAppendOne(xs[..n - 1], x, key);
    KeySeenBefore(xs, key, n);
    assert DedupePrefix(xs, key, n) == DedupePrefix(xs, key, n - 1);
  }

  /** Every element the filter keeps is the first carrier of its key. */
  lemma {:induction false} DedupePrefixFirst<T>(xs: seq<T>, key: T -> string, n: nat)
    requires n <= |xs|
    ensures forall y :: y in DedupePrefix(xs, key, n) ==> FirstWithKey(xs, key, key(y)) == Some(y)
  {
    if n > 0 {
      DedupePrefixFirst(xs, key, n - 1);
    }
  }

  /** The filtered prefix has no two elements with one key. */
  lemma {:induction false} DedupePrefixUnique<T>(xs: seq<T>, key: T -> string, n: nat)
    requires n <= |xs|
    ensures UniqueKeys(DedupePrefix(xs, key, n), key)
  {
    if n > 0 {
      DedupePrefixUnique(xs, key, n - 1);
      if IndexOfKey(xs, key, key(xs[n - 1])) == Some(n - 1) {
        DedupePrefixKeys(xs, key, n - 1);
        KeyNotSeenBefore(xs, key, n);
        DedupeUniqueFirst(xs, key, n);
      } else {
        assert DedupePrefix(xs, key, n) == DedupePrefix(xs, key, n - 1);
      }
    }
  }

  /** Appending the first carrier of a key the filtered prefix lacks keeps its keys unique. */
  lemma DedupeUniqueFirst<T>(xs: seq<T>, key: T -> string, n: nat)
    requires 0 < n <= |xs| && IndexOfKey(xs, key, key(xs[n - 1])) == Some(n - 1)
    requires UniqueKeys(DedupePrefix(xs, key, n - 1), key)
    requires key(xs[n - 1]) !in Keys(DedupePrefix(xs, key, n - 1), key)
    ensures UniqueKeys(DedupePrefix(xs, key, n), key)
  {
    var prev := DedupePrefix(xs, key, n - 1);
    var x := xs[n - 1];
    forall i | 0 <= i < |prev| ensures key(prev[i]) != key(x) {
      assert prev[i] in prev;
    }
    UniqueKeysSnoc(prev, x, key);
  }

  /** A new last element whose key the list lacks keeps the keys unique. */
  lemma UniqueKeysSnoc<T>(xs: seq<T>, x: T, key: T -> string)
    requires UniqueKeys(xs, key)
    requires forall i :: 0 <= i < |xs| ==> key(xs[i]) != key(x)
    ensures UniqueKeys(xs + [x], key)
  {
    var r := xs + [x];
    forall i, j | 0 <= i < j < |r| ensures key(r[i]) != key(r[j]) {
      assert r[i] == xs[i];
      if j < |xs| {
        assert r[j] == xs[j];
      }
    }
  }

  /** The filtered prefix keeps every key of the prefix exactly once, each time on its first carrier. */
  lemma DedupePrefixSpec<T>(xs: seq<T>, key: T -> string, n: nat)
    requires n <= |xs|
    ensures Keys(DedupePrefix(xs, key, n), key) == Keys(xs[..n], key)
    ensures UniqueKeys(DedupePrefix(xs, key, n), key)
    ensures forall y :: y in DedupePrefix(xs, key, n) ==> FirstWithKey(xs, key, key(y)) == Some(y)
  {
    DedupePrefixKeys(xs, key, n);
    DedupePrefixUnique(xs, key, n);
    DedupePrefixFirst(xs, key, n);
  }

  /** In `a + b`, the first element carrying a key that `a` has comes from `a`. */
  lemma {:induction false} FirstWithKeyAppend<T>(a: seq<T>, b: seq<T>, key: T -> string, k: string)
    requires k in Keys(a, key)
    ensures FirstWithKey(a + b, key, k) == FirstWithKey(a, key, k)
  {
    var y :| y in a && key(y) == k;
    var j :| 0 <= j < |a| && a[j] == y;
    var i := IndexOfKey(a, key, k).value;
    var ab := a + b;
    assert ab[i] == a[i];
    var r := IndexOfKey(ab, key, k);
    assert r.Some? && r.value <= i;
    assert key(a[r.value]) == key(ab[r.value]);
  }

  /** The keys of `xs` are non-increasing from front to back. */
  predicate SortedDesc<T>(xs: seq<T>, key: T -> int) {
    forall i, j :: 0 <= i < j < |xs| ==> key(xs[i]) >= key(xs[j])
  }

  /** Puts `x` in front of the first element whose key is not larger than its own. */
  function InsertDesc<T>(x: T, xs: seq<T>, key: T -> int): (r: seq<T>)
    requires SortedDesc(xs, key)
    ensures SortedDesc(r, key)
    ensures multiset(r) == multiset(xs) + multiset{x}
    ensures |r| == |xs| + 1
  {
    if xs == [] || key(xs[0]) <= key(x) then
      SortedDescBound(xs, key, key(x));
      SortedDescCons(x, xs, key);
      [x] + xs
    else
      var rest := InsertDesc(x, xs[1..], key);
      InsertDescStep(x, xs, rest, key);
      [xs[0]] + rest
  }

  /** Every key of a newest-first list is at most a bound its head respects. */
  lemma SortedDescBound<T>(xs: seq<T>, key: T -> int, bound: int)
    requires SortedDesc(xs, key) && (xs == [] || key(xs[0]) <= bound)
    ensures forall k :: 0 <= k < |xs| ==> key(xs[k]) <= bound
  {
  }

  /** A head no smaller than every key of a newest-first list keeps it newest first. */
  lemma SortedDescCons<T>(a: T, rest: seq<T>, key: T -> int)
    requires SortedDesc(rest, key)
    requires forall k :: 0 <= k < |rest| ==> key(rest[k]) <= key(a)
    ensures SortedDesc([a] + rest, key)
  {
    var r := [a] + rest;
    forall i, j | 0 <= i < j < |r| ensures key(r[i]) >= key(r[j]) {
      assert r[j] == rest[j - 1];
      if i > 0 {
        assert r[i] == rest[i - 1];
      }
    }
  }

  /** The recursive case of `InsertDesc`: the old head stays in front of the insertion into the tail. */
  lemma InsertDescStep<T>(x: T, xs: seq<T>, rest: seq<T>, key: T -> int)
    requires xs != [] && SortedDesc(xs, key) && key(x) < key(xs[0])
    requires SortedDesc(rest, key) && multiset(rest) == multiset(xs[1..]) + multiset{x}
    ensures SortedDesc([xs[0]] + rest, key)
    ensures multiset([xs[0]] + rest) == multiset(xs) + multiset{x}
  {
    assert xs == [xs[0]] + xs[1..];
    forall k | 0 <= k < |xs[1..]| ensures key(xs[1..][k]) <= key(xs[0]) {
      assert xs[1..][k] == xs[k + 1];
    }
    BoundAfterInsert(rest, xs[1..], x, key, key(xs[0]));
    SortedDescCons(xs[0], rest, key);
  }

  /** Adding one element within a bound to elements within it leaves them all within it. */
  lemma BoundAfterInsert<T>(rest: seq<T>, tail: seq<T>, x: T, key: T -> int, bound: int)
    requires multiset(rest) == multiset(tail) + multiset{x}
    requires key(x) <= bound && forall k :: 0 <= k < |tail| ==> key(tail[k]) <= bound
    ensures forall k :: 0 <= k < |rest| ==> key(rest[k]) <= bound
  {
    forall k | 0 <= k < |rest| ensures key(rest[k]) <= bound {
      assert rest[k] in multiset(rest);
      if rest[k] != x {
        assert rest[k] in multiset(tail);
        var j :| 0 <= j < |tail| && tail[j] == rest[k];
      }
    }
  }

  /** Every element of an insertion result is the inserted one or came from the list. */
  lemma InsertDescMembers<T>(x: T, xs: seq<T>, key: T -> int)
    requires SortedDesc(xs, key)
    ensures forall y :: y in InsertDesc(x, xs, key) ==> y == x || y in xs
  {
    var r := InsertDesc(x, xs, key);
    forall y | y in r ensures y == x || y in xs {
      assert y in multiset(r);
    }
  }

  /** `xs.sort((a, b) => key(b) - key(a))`: a stable sort, largest key first. */
  function SortDesc<T>(xs: seq<T>, key: T -> int): (r: seq<T>)
    ensures SortedDesc(r, key)
    ensures multiset(r) == multiset(xs)
    ensures |r| == |xs|
  {
    if xs == [] then []
    else
      assert xs == [xs[0]] + xs[1..];
      InsertDesc(xs[0], SortDesc(xs[1..], key), key)
  }

  /** Sorting keeps exactly the elements it was given. */
  lemma SortDescMembers<T>(xs: seq<T>, key: T -> int)
    ensures forall y :: y in SortDesc(xs, key) <==> y in xs
  {
    var r := SortDesc(xs, key);
    forall y ensures y in r <==> y in xs {
      assert y in r <==> y in multiset(r);
      assert y in xs <==> y in multiset(xs);
    }
  }

  /** The keys of a concatenation are the keys of its parts. */
  lemma KeysAppend<T>(a: seq<T>, b: seq<T>, key: T -> string)
    ensures Keys(a + b, key) == Keys(a, key) + Keys(b, key)
  {
    forall y | y in a + b ensures y in a || y in b { }
    forall y | y in a || y in b ensures y in a + b { }
  }

  /** A new head whose key the rest lacks keeps the keys unique. */
  lemma UniqueKeysCons<T>(a: T, rest: seq<T>, id: T -> string)
    requires UniqueKeys(rest, id)
    requires forall y :: y in rest ==> id(y) != id(a)
    ensures UniqueKeys([a] + rest, id)
  {
    var r := [a] + rest;
    forall i, j | 0 <= i < j < |r| ensures id(r[i]) != id(r[j]) {
      assert r[j] == rest[j - 1];
      if i == 0 {
        assert rest[j - 1] in rest;
      } else {
        assert r[i] == rest[i - 1];
      }
    }
  }

  /** Inserting an element of a fresh key into a list of unique keys keeps them unique. */
  lemma {:induction false} InsertDescUniqueKeys<T>(x: T, xs: seq<T>, key: T -> int, id: T -> string)
    requires SortedDesc(xs, key) && UniqueKeys(xs, id)
    requires forall y :: y in xs ==> id(y) != id(x)
    ensures UniqueKeys(InsertDesc(x, xs, key), id)
  {
    if xs == [] || key(xs[0]) <= key(x) {
      UniqueKeysCons(x, xs, id);
    } else {
      var t := xs[1..];
      UniqueKeysTail(xs, id);
      forall y | y in t ensures id(y) != id(x) {
        var j :| 0 <= j < |t| && t[j] == y;
        assert xs[j + 1] == y;
      }
      SortedDescTail(xs, key);
      InsertDescUniqueKeys(x, t, key, id);
      var rest := InsertDesc(x, t, key);
      InsertDescMembers(x, t, key);
      assert xs[0] in xs;
      UniqueKeysCons(xs[0], rest, id);
      assert InsertDesc(x, xs, key) == [xs[0]] + rest;
    }
  }

  lemma SortedDescTail<T>(xs: seq<T>, key: T -> int)
    requires xs != [] && SortedDesc(xs, key)
    ensures SortedDesc(xs[1..], key)
  {
    var t := xs[1..];
    forall i, j | 0 <= i < j < |t| ensures key(t[i]) >= key(t[j]) {
      assert t[i] == xs[i + 1] && t[j] == xs[j + 1];
    }
  }

  /** Sorting never makes two elements share a key. */
  lemma {:induction false} SortDescUniqueKeys<T>(xs: seq<T>, key: T -> int, id: T -> string)
    requires UniqueKeys(xs, id)
    ensures UniqueKeys(SortDesc(xs, key), id)
  {
    if xs != [] {
      assert xs == [xs[0]] + xs[1..];
      forall i, j | 0 <= i < j < |xs[1..]| ensures id(xs[1..][i]) != id(xs[1..][j]) {
        assert xs[1..][i] == xs[i + 1] && xs[1..][j] == xs[j + 1];
      }
      SortDescUniqueKeys(xs[1..], key, id);
      var sorted := SortDesc(xs[1..], key);
      forall y | y in sorted ensures id(y) != id(xs[0]) {
        assert y in multiset(sorted);
        assert y in multiset(xs[1..]);
        var j :| 0 <= j < |xs[1..]| && xs[1..][j] == y;
        assert xs[j + 1] == y;
      }
      InsertDescUniqueKeys(xs[0], sorted, key, id);
    }
  }

  /** Sorting a list that is already newest first changes nothing: the sort is stable on sorted input. */
  lemma {:induction false} SortDescSorted<T>(xs: seq<T>, key: T -> int)
    requires SortedDesc(xs, key)
    ensures SortDesc(xs, key) == xs
  {
    if xs != [] {
      assert xs == [xs[0]] + xs[1..];
      SortDescSorted(xs[1..], key);
      assert xs[1..] == [] || key(xs[1..][0]) <= key(xs[0]);
    }
  }

  /** Appending one element only adds a first index for its own key, and only when the key was absent. */
  lemma {:induction false} IndexOfKeyAppendOne<T>(xs: seq<T>, x: T, key: T -> string, k: string)
    ensures IndexOfKey(xs + [x], key, k) ==
      match IndexOfKey(xs, key, k)
      case Some(i) => Some(i)
      case None => if key(x) == k then Some(|xs|) else None
  {
    if xs != [] {
      assert (xs + [x])[1..] == xs[1..] + [x];
      IndexOfKeyAppendOne(xs[1..], x, key, k);
    }
  }
}
