/** `Array.prototype.filter` and `filter(...).length`, with the facts the pages rely on. */
module Lists {
  import opened Wrappers

  /** The elements of `s` satisfying `p`, in their original order. */
  function Filter<T>(s: seq<T>, p: T -> bool): (r: seq<T>)
    ensures |r| <= |s|
    ensures forall k | 0 <= k < |r| :: r[k] in s && p(r[k])
    ensures forall k | 0 <= k < |s| :: p(s[k]) ==> s[k] in r
  {
    if |s| == 0 then [] else Filter(s[..|s| - 1], p) + (if p(s[|s| - 1]) then [s[|s| - 1]] else [])
  }

  /** A prefix one longer is the prefix followed by the next element. */
  lemma TakeSnoc<T>(s: seq<T>, k: nat)
    requires k < |s|
    ensures s[..k + 1] == s[..k] + [s[k]]
  {
  }

  /** Filtering distributes over concatenation, so the result keeps the input's order. */
  lemma {:induction false} FilterAppend<T>(a: seq<T>, b: seq<T>, p: T -> bool)
    ensures Filter(a + b, p) == Filter(a, p) + Filter(b, p)
    decreases |b|
  {
    if |b| > 0 {
      var b' := b[..|b| - 1];
      assert (a + b)[..|a + b| - 1] == a + b';
      FilterAppend(a, b', p);
    } else {
      assert a + b == a;
    }
  }

  /**
   * An element between two runs is kept exactly when it passes, and then it
   * sits between what is kept of the run before it and of the run after it.
   */
  lemma FilterAround<T>(a: seq<T>, x: T, b: seq<T>, p: T -> bool)
    ensures Filter(a + [x] + b, p) == Filter(a, p) + (if p(x) then [x] else []) + Filter(b, p)
  {
    FilterAppend(a + [x], b, p);
    FilterAppend(a, [x], p);
    assert [x][..0] == [];
  }

  /** When every element passes, filtering changes nothing. */
  lemma {:induction false} FilterAll<T>(s: seq<T>, p: T -> bool)
    requires forall k | 0 <= k < |s| :: p(s[k])
    ensures Filter(s, p) == s
  {
    if |s| > 0 {
      FilterAll(s[..|s| - 1], p);
    }
  }

  /** When no element passes, nothing is left. */
  lemma {:induction false} FilterNone<T>(s: seq<T>, p: T -> bool)
    requires forall k | 0 <= k < |s| :: !p(s[k])
    ensures Filter(s, p) == []
  {
    if |s| > 0 {
      FilterNone(s[..|s| - 1], p);
    }
  }

  /** The conjunction of two predicates. */
  function Both<T>(p: T -> bool, q: T -> bool): T -> bool
  {
    x => p(x) && q(x)
  }

  /** The disjunction of two predicates. */
  function Either<T>(p: T -> bool, q: T -> bool): T -> bool
  {
    x => p(x) || q(x)
  }

  /** Two filter passes are one pass with the conjunction. */
  lemma {:induction false} FilterFilter<T>(s: seq<T>, p: T -> bool, q: T -> bool)
    ensures Filter(Filter(s, p), q) == Filter(s, Both(p, q))
  {
    if |s| > 0 {
      var init := s[..|s| - 1];
      var last := s[|s| - 1];
      FilterFilter(init, p, q);
      FilterAppend(Filter(init, p), if p(last) then [last] else [], q);
    }
  }

  /** Filtering with pointwise-equal predicates gives the same list. */
  lemma {:induction false} FilterCongruent<T>(s: seq<T>, p: T -> bool, q: T -> bool)
    requires forall k | 0 <= k < |s| :: p(s[k]) == q(s[k])
    ensures Filter(s, p) == Filter(s, q)
  {
    if |s| > 0 {
      FilterCongruent(s[..|s| - 1], p, q);
    }
  }

  /** `s.filter(p).length`. */
  function Count<T>(s: seq<T>, p: T -> bool): (n: nat)
    ensures n <= |s|
  {
    |Filter(s, p)|
  }

  /** Counts of predicates no element satisfies together add up to at most the length. */
  lemma {:induction false} CountDisjoint<T>(s: seq<T>, p: T -> bool, q: T -> bool)
    requires forall k | 0 <= k < |s| :: !(p(s[k]) && q(s[k]))
    ensures Count(s, p) + Count(s, q) == Count(s, Either(p, q))
  {
    if |s| > 0 {
      CountDisjoint(s[..|s| - 1], p, q);
    }
  }

  /** Removing the elements whose key equals `key`: `s.filter(x => key(x) !== k)`. */
  function RemoveWhere<T, K(==)>(s: seq<T>, key: T -> K, k: K): (r: seq<T>)
    ensures forall j | 0 <= j < |r| :: r[j] in s && key(r[j]) != k
    ensures forall j | 0 <= j < |s| :: key(s[j]) != k ==> s[j] in r
  {
    Filter(s, x => key(x) != k)
  }

  /** `s.map(x => key(x) === k ? f(x) : x)`: the elements with key `k` are rewritten in place. */
  function MapWhere<T, K(==)>(s: seq<T>, key: T -> K, k: K, f: T -> T): (r: seq<T>)
    ensures |r| == |s|
    ensures forall j | 0 <= j < |s| :: r[j] == (if key(s[j]) == k then f(s[j]) else s[j])
  {
    seq(|s|, j requires 0 <= j < |s| => if key(s[j]) == k then f(s[j]) else s[j])
  }

  /** `s.findIndex(p)`, with `None` for -1: the first position whose element satisfies `p`. */
  function Find<T>(s: seq<T>, p: T -> bool): (r: Option<nat>)
    ensures r.Some? ==> r.value < |s| && p(s[r.value]) && forall j | 0 <= j < r.value :: !p(s[j])
    ensures r.None? ==> forall j | 0 <= j < |s| :: !p(s[j])
  {
    if |s| == 0 then None
    else if p(s[0]) then Some(0)
    else match Find(s[1..], p)
      case None => None
      case Some(j) => Some(j + 1)
  }

  // ---------------------------------------------------------------- counts by key

  /** No element occurs twice. */
  predicate Distinct<K(==)>(ks: seq<K>)
  {
    forall i, j | 0 <= i < j < |ks| :: ks[i] != ks[j]
  }

  /** How many entries of `ks` equal `v`. */
  function Hits<K(==)>(ks: seq<K>, v: K): nat
  {
    if |ks| == 0 then 0 else (if ks[0] == v then 1 else 0) + Hits(ks[1..], v)
  }

  /** In a list without repeats a value is hit once if listed and never otherwise. */
  lemma {:induction false} HitsDistinct<K>(ks: seq<K>, v: K)
    requires Distinct(ks)
    ensures Hits(ks, v) == if v in ks then 1 else 0
  {
    if |ks| > 0 {
      assert Distinct(ks[1..]);
      HitsDistinct(ks[1..], v);
      if ks[0] == v {
        assert v !in ks[1..];
      } else {
        assert v in ks <==> v in ks[1..];
      }
    }
  }

  /** `s.filter(x => key(x) === k).length`. */
  function CountKey<T, K(==)>(s: seq<T>, key: T -> K, k: K): nat
  {
    Count(s, x => key(x) == k)
  }

  /** A count by key is built element by element: nothing for the empty list, one more for each element with the key. */
  lemma CountKeySnoc<T, K>(s: seq<T>, x: T, key: T -> K, k: K)
    ensures CountKey([], key, k) == 0
    ensures CountKey(s + [x], key, k) == CountKey(s, key, k) + if key(x) == k then 1 else 0
  {
    assert (s + [x])[..|s|] == s;
    CountSnoc(s + [x], y => key(y) == k);
  }

  /** The counts of several keys added up, as a row of tiles shows them. */
  function SumCounts<T, K(==)>(s: seq<T>, key: T -> K, ks: seq<K>): nat
  {
    if |ks| == 0 then 0 else CountKey(s, key, ks[0]) + SumCounts(s, key, ks[1..])
  }

  /** A count grows by one exactly when the last element passes. */
  lemma CountSnoc<T>(s: seq<T>, p: T -> bool)
    requires |s| > 0
    ensures Count(s, p) == Count(s[..|s| - 1], p) + if p(s[|s| - 1]) then 1 else 0
  {
  }

  /** The last element adds one to the sum for every listed key it has. */
  lemma {:induction false} SumCountsSnoc<T, K>(s: seq<T>, key: T -> K, ks: seq<K>)
    requires |s| > 0
    ensures SumCounts(s, key, ks) == SumCounts(s[..|s| - 1], key, ks) + Hits(ks, key(s[|s| - 1]))
  {
    if |ks| > 0 {
      CountSnoc(s, x => key(x) == ks[0]);
      SumCountsSnoc(s, key, ks[1..]);
    }
  }

  /**
   * Counts of distinct keys never add up to more than the list holds, and
   * to exactly that when every element has one of the keys.
   */
  lemma {:induction false} SumCountsBound<T, K>(s: seq<T>, key: T -> K, ks: seq<K>)
    requires Distinct(ks)
    ensures SumCounts(s, key, ks) <= |s|
    ensures (forall j | 0 <= j < |s| :: key(s[j]) in ks) ==> SumCounts(s, key, ks) == |s|
  {
    if |s| == 0 {
      SumCountsEmpty(s, key, ks);
    } else {
      SumCountsBound(s[..|s| - 1], key, ks);
      SumCountsSnoc(s, key, ks);
      HitsDistinct(ks, key(s[|s| - 1]));
    }
  }

  lemma {:induction false} SumCountsEmpty<T, K>(s: seq<T>, key: T -> K, ks: seq<K>)
    requires |s| == 0
    ensures SumCounts(s, key, ks) == 0
  {
    if |ks| > 0 {
      SumCountsEmpty(s, key, ks[1..]);
    }
  }
}
