// The list operations the repositories and components share, each stated by what it
// does to the list: `FindIndex` by a key, replace-or-append, `RemoveAll`, `Remove` of
// the first equal element, and order-preserving filtering.
module ListStore {

  /** `List.FindIndex(e => key(e) == k)`: the first index whose key is `k`, or -1. */
  function FindIndexBy<T, K(==)>(s: seq<T>, key: T -> K, k: K): (r: int)
    ensures -1 <= r < |s|
    ensures r == -1 <==> forall i :: 0 <= i < |s| ==> key(s[i]) != k
    ensures r >= 0 ==> key(s[r]) == k && forall i :: 0 <= i < r ==> key(s[i]) != k
    decreases |s|
  {
    if s == [] then -1
    else if key(s[0]) == k then 0
    else
      var j := FindIndexBy(s[1..], key, k);
      assert forall i :: 1 <= i < |s| ==> s[i] == s[1..][i - 1];
      if j == -1 then -1 else j + 1
  }

  /** Some element has key `k`. */
  predicate HasKey<T, K(==)>(s: seq<T>, key: T -> K, k: K) {
    exists i :: 0 <= i < |s| && key(s[i]) == k
  }

  /** No two elements share a key. */
  predicate UniqueKeys<T, K(==)>(s: seq<T>, key: T -> K) {
    forall i, j :: 0 <= i < j < |s| ==> key(s[i]) != key(s[j])
  }

  /** The replace-by-key-or-append step of every `AddOrUpdate`: the first element with the
      same key is overwritten in place, otherwise `x` goes at the end. */
  function ReplaceOrAppend<T, K(==)>(s: seq<T>, key: T -> K, x: T): (r: seq<T>)
    ensures HasKey(s, key, key(x)) ==> |r| == |s|
    ensures HasKey(s, key, key(x)) ==> r[FindIndexBy(s, key, key(x))] == x
    ensures HasKey(s, key, key(x)) ==>
      forall i :: 0 <= i < |s| && i != FindIndexBy(s, key, key(x)) ==> r[i] == s[i]
    ensures !HasKey(s, key, key(x)) ==> r == s + [x]
  {
    var i := FindIndexBy(s, key, key(x));
    if i >= 0 then s[i := x] else s + [x]
  }

  /** Replace-or-append keeps the keys unique. */
  lemma ReplaceOrAppendUnique<T, K>(s: seq<T>, key: T -> K, x: T)
    requires UniqueKeys(s, key)
    ensures UniqueKeys(ReplaceOrAppend(s, key, x), key)
  {
    var r := ReplaceOrAppend(s, key, x);
    if !HasKey(s, key, key(x)) {
      forall i, j | 0 <= i < j < |r| ensures key(r[i]) != key(r[j]) {
        if j == |s| {
          assert key(s[i]) != key(x);
        }
      }
    }
  }

  /** After replace-or-append on unique keys, a lookup by `x`'s key finds `x`; keys other
      than `x`'s find what they found before. */
  lemma ReplaceOrAppendLookup<T, K>(s: seq<T>, key: T -> K, x: T)
    requires UniqueKeys(s, key)
    ensures var r := ReplaceOrAppend(s, key, x);
      var i := FindIndexBy(r, key, key(x));
      i >= 0 && r[i] == x
    ensures forall k :: k != key(x) ==> FindIndexBy(ReplaceOrAppend(s, key, x), key, k) == FindIndexBy(s, key, k)
  {
    var r := ReplaceOrAppend(s, key, x);
    ReplaceOrAppendUnique(s, key, x);
    var i := FindIndexBy(r, key, key(x));
    if HasKey(s, key, key(x)) {
      var p := FindIndexBy(s, key, key(x));
      assert key(r[p]) == key(x);
      assert i == p;
    } else {
      assert key(r[|s|]) == key(x);
    }
    forall k | k != key(x)
      ensures FindIndexBy(r, key, k) == FindIndexBy(s, key, k)
    {
      var a := FindIndexBy(r, key, k);
      var b := FindIndexBy(s, key, k);
      if b >= 0 {
        assert key(r[b]) == k;
      }
      if a >= 0 && a < |s| {
        assert key(s[a]) == k;
      }
    }
  }

  /** `r` is `s` with some elements left out: its elements occur in `s` in the same order. */
  predicate Subsequence<T(==)>(r: seq<T>, s: seq<T>)
    decreases |s|
  {
    if r == [] then true
    else if s == [] then false
    else (r[0] == s[0] && Subsequence(r[1..], s[1..])) || Subsequence(r, s[1..])
  }

  /** `List.FindAll` / `Where(...).ToList()`: the elements satisfying `p`, in list order,
      each as often as it occurs in the list. */
  function Filter<T(==)>(s: seq<T>, p: T -> bool): (r: seq<T>)
    ensures |r| <= |s|
    ensures forall i :: 0 <= i < |r| ==> p(r[i]) && r[i] in s
    ensures forall i :: 0 <= i < |s| && p(s[i]) ==> s[i] in r
    ensures Subsequence(r, s)
    decreases |s|
  {
    if s == [] then []
    else
      var rest := Filter(s[1..], p);
      assert forall i :: 1 <= i < |s| ==> s[i] == s[1..][i - 1];
      assert s == [s[0]] + s[1..];
      if p(s[0]) then
        assert ([s[0]] + rest)[1..] == rest;
        [s[0]] + rest
      else rest
  }

  /** Filtering works element by element: it distributes over concatenation. */
  lemma {:induction false} FilterConcat<T>(a: seq<T>, b: seq<T>, p: T -> bool)
    ensures Filter(a + b, p) == Filter(a, p) + Filter(b, p)
    decreases |a|
  {
    if a == [] {
      assert a + b == b;
    } else {
      assert (a + b)[1..] == a[1..] + b;
      FilterConcat(a[1..], b, p);
    }
  }

  /** Each element satisfying `p` is kept as often as it occurs; the others are dropped. */
  lemma {:induction false} FilterCounts<T>(s: seq<T>, p: T -> bool, x: T)
    ensures multiset(Filter(s, p))[x] == if p(x) then multiset(s)[x] else 0
    decreases |s|
  {
    if s != [] {
      FilterCounts(s[1..], p, x);
      assert s == [s[0]] + s[1..];
    }
  }

  /** A one-element list is kept exactly when its element satisfies `p`. */
  lemma FilterSingleton<T>(x: T, p: T -> bool)
    ensures Filter([x], p) == if p(x) then [x] else []
  {
    assert [x][1..] == [];
  }

  /** Filtering keeps everything exactly when every element satisfies `p`. */
  lemma {:induction false} FilterAll<T>(s: seq<T>, p: T -> bool)
    requires forall i :: 0 <= i < |s| ==> p(s[i])
    ensures Filter(s, p) == s
    decreases |s|
  {
    if s != [] {
      FilterAll(s[1..], p);
    }
  }

  /** A filter drops something exactly when some element fails `p`. */
  lemma {:induction false} FilterShorter<T>(s: seq<T>, p: T -> bool)
    ensures |Filter(s, p)| < |s| <==> exists i :: 0 <= i < |s| && !p(s[i])
    decreases |s|
  {
    if s != [] {
      FilterShorter(s[1..], p);
      if exists i :: 0 <= i < |s[1..]| && !p(s[1..][i]) {
        var i :| 0 <= i < |s[1..]| && !p(s[1..][i]);
        assert !p(s[i + 1]);
      }
      if exists i :: 0 <= i < |s| && !p(s[i]) {
        var i :| 0 <= i < |s| && !p(s[i]);
        if i > 0 {
          assert !p(s[1..][i - 1]);
        }
      }
    }
  }

  /** A filter and its complement split the list: together they hold every element, the
      same number of times. */
  lemma {:induction false} FilterPartition<T>(s: seq<T>, p: T -> bool, q: T -> bool)
    requires forall x :: q(x) == !p(x)
    ensures multiset(Filter(s, p)) + multiset(Filter(s, q)) == multiset(s)
    ensures |Filter(s, p)| + |Filter(s, q)| == |s|
    decreases |s|
  {
    if s != [] {
      FilterPartition(s[1..], p, q);
      assert s == [s[0]] + s[1..];
    }
  }

  /** `List.RemoveAll(e => key(e) == k)`: every element with key `k` is dropped and the
      others keep their order. */
  function RemoveAllBy<T(==), K(==)>(s: seq<T>, key: T -> K, k: K): (r: seq<T>)
    ensures forall i :: 0 <= i < |r| ==> key(r[i]) != k && r[i] in s
    ensures forall i :: 0 <= i < |s| && key(s[i]) != k ==> s[i] in r
    ensures |r| < |s| <==> HasKey(s, key, k)
  {
    FilterShorter(s, x => key(x) != k);
    Filter(s, x => key(x) != k)
  }

  /** Removing a key no element has changes nothing. */
  lemma RemoveAllByAbsent<T, K>(s: seq<T>, key: T -> K, k: K)
    requires forall i :: 0 <= i < |s| ==> key(s[i]) != k
    ensures RemoveAllBy(s, key, k) == s
  {
    var p := x => key(x) != k;
    FilterAll(s, p);
  }

  /** Removal works element by element from the front, so it distributes over a split of
      the list. */
  lemma {:induction false} RemoveAllBySplit<T, K>(a: seq<T>, b: seq<T>, key: T -> K, k: K)
    ensures RemoveAllBy(a + b, key, k) == RemoveAllBy(a, key, k) + RemoveAllBy(b, key, k)
    decreases |a|
  {
    if a != [] {
      assert (a + b)[1..] == a[1..] + b;
      RemoveAllBySplit(a[1..], b, key, k);
    } else {
      assert a + b == b;
    }
  }

  /** Removing twice is removing once. */
  lemma RemoveAllByTwice<T, K>(a: seq<T>, key: T -> K, k: K)
    ensures RemoveAllBy(RemoveAllBy(a, key, k), key, k) == RemoveAllBy(a, key, k)
  {
    var p := x => key(x) != k;
    FilterAll(RemoveAllBy(a, key, k), p);
  }

  /** `List.RemoveAt(i)`. */
  function RemoveIndex<T>(s: seq<T>, i: int): seq<T>
    requires 0 <= i < |s|
  {
    s[..i] + s[i + 1..]
  }

  /** Index of the first element equal to `x`, or -1. */
  function IndexOfElem<T(==)>(s: seq<T>, x: T): (r: int)
    ensures -1 <= r < |s|
    ensures r == -1 <==> x !in s
    ensures r >= 0 ==> s[r] == x && x !in s[..r]
    decreases |s|
  {
    if s == [] then -1
    else if s[0] == x then 0
    else
      var j := IndexOfElem(s[1..], x);
      assert s == [s[0]] + s[1..];
      assert j >= 0 ==> s[..j + 1] == [s[0]] + s[1..][..j];
      if j == -1 then -1 else j + 1
  }

  /** `List.Remove(x)`: drops the first element equal to `x`; the list is unchanged when
      there is none. */
  function RemoveFirst<T(==)>(s: seq<T>, x: T): (r: seq<T>)
    ensures x !in s ==> r == s
    ensures x in s ==> r == s[..IndexOfElem(s, x)] + s[IndexOfElem(s, x) + 1..]
    ensures x in s ==> |r| == |s| - 1 && multiset(r) + multiset{x} == multiset(s)
  {
    var i := IndexOfElem(s, x);
    if i == -1 then s
    else
      assert s == s[..i] + [s[i]] + s[i + 1..];
      s[..i] + s[i + 1..]
  }

  /** Removing an element just appended, when the list did not hold it, gives the list
      back. */
  lemma RemoveFirstAppended<T>(s: seq<T>, x: T)
    requires x !in s
    ensures RemoveFirst(s + [x], x) == s
  {
    var t := s + [x];
    assert forall j :: 0 <= j < |s| ==> t[j] == s[j];
    assert t[..|s|] == s;
  }

  /** No element appears twice. */
  predicate Distinct<T(==)>(s: seq<T>) {
    forall i, j :: 0 <= i < j < |s| ==> s[i] != s[j]
  }

  /** Dropping one index of a list without repeats leaves no repeats. */
  lemma DropIndexDistinct<T>(s: seq<T>, k: int)
    requires Distinct(s) && 0 <= k < |s|
    ensures Distinct(s[..k] + s[k + 1..])
  {
    var r := s[..k] + s[k + 1..];
    forall a, b | 0 <= a < b < |r| ensures r[a] != r[b] {
      var a' := if a < k then a else a + 1;
      var b' := if b < k then b else b + 1;
      assert r[a] == s[a'] && r[b] == s[b'] && a' < b';
    }
  }

  /** Dropping one index of a list without repeats leaves exactly the other elements. */
  lemma DropIndexMembers<T>(s: seq<T>, k: int)
    requires Distinct(s) && 0 <= k < |s|
    ensures forall y :: y in s[..k] + s[k + 1..] <==> y in s && y != s[k]
  {
    var r := s[..k] + s[k + 1..];
    forall y | y in s && y != s[k] ensures y in r {
      var j :| 0 <= j < |s| && s[j] == y;
      if j < k { assert r[j] == y; } else { assert r[j - 1] == y; }
    }
    forall y | y in r ensures y in s && y != s[k] {
      var j :| 0 <= j < |r| && r[j] == y;
      if j < k { assert s[j] == y; } else { assert s[j + 1] == y; }
    }
  }

  /** On a list without repeats, `RemoveFirst(s, x)` holds exactly the elements of `s`
      other than `x`, still without repeats. */
  lemma RemoveFirstDistinct<T>(s: seq<T>, x: T)
    requires Distinct(s)
    ensures Distinct(RemoveFirst(s, x))
    ensures forall y :: y in RemoveFirst(s, x) <==> y in s && y != x
  {
    if x in s {
      var k := IndexOfElem(s, x);
      DropIndexDistinct(s, k);
      DropIndexMembers(s, k);
    }
  }

  /** Appending an element not yet present keeps a list without repeats. */
  lemma AppendDistinct<T>(s: seq<T>, x: T)
    requires Distinct(s) && x !in s
    ensures Distinct(s + [x])
  {
  }

  // ---------------------------------------------------------------- ID lists by key

  /** `if (!index.ContainsKey(k)) index[k] = new List<int>(); index[k].Add(id);` */
  function AppendAt<K>(index: map<K, seq<int>>, k: K, id: int): (r: map<K, seq<int>>)
    ensures r.Keys == index.Keys + {k}
    ensures r[k] == (if k in index then index[k] else []) + [id]
    ensures forall j :: j in index && j != k ==> r[j] == index[j]
  {
    index[k := (if k in index then index[k] else []) + [id]]
  }

  /** `index[k]?.Remove(id)` on a key that is present. */
  function RemoveAt<K>(index: map<K, seq<int>>, k: K, id: int): (r: map<K, seq<int>>)
    requires k in index
    ensures r.Keys == index.Keys && r[k] == RemoveFirst(index[k], id)
    ensures forall j :: j in index && j != k ==> r[j] == index[j]
  {
    index[k := RemoveFirst(index[k], id)]
  }

  /** Appending an ID a key's list lacks and removing it again restores the index, except
      that a list created by the append stays, empty. */
  lemma AppendThenRemoveAt<K>(index: map<K, seq<int>>, k: K, id: int)
    requires k in index ==> id !in index[k]
    ensures RemoveAt(AppendAt(index, k, id), k, id) == (if k in index then index else index[k := []])
  {
    if k in index {
      RemoveFirstAppended(index[k], id);
      var a := AppendAt(index, k, id);
      assert RemoveAt(a, k, id) == index;
    } else {
      var e: seq<int> := [];
      RemoveFirstAppended(e, id);
      var a := AppendAt(index, k, id);
      assert RemoveAt(a, k, id) == index[k := []];
    }
  }
}
