/**
 * The two array helpers the chord code takes from its utility library:
 * `sortBy` (a stable sort on a numeric key) and `uniqBy` (keep the first
 * element of every key), with `uniq` as `uniqBy` on the element itself.
 */
module Collections {

  predicate SortedBy<T>(xs: seq<T>, key: T -> int) {
    forall i, j :: 0 <= i < j < |xs| ==> key(xs[i]) <= key(xs[j])
  }

  predicate StrictlySortedBy<T>(xs: seq<T>, key: T -> int) {
    forall i, j :: 0 <= i < j < |xs| ==> key(xs[i]) < key(xs[j])
  }

  /** `x` placed before the first element whose key is not smaller, so that it stays ahead of equal keys. */
  function InsertBy<T>(x: T, xs: seq<T>, key: T -> int): seq<T>
    decreases |xs|
  {
    if xs == [] || key(x) <= key(xs[0]) then [x] + xs
    else [xs[0]] + InsertBy(x, xs[1..], key)
  }

  /** Inserting adds `x` and nothing else. */
  lemma {:induction false} InsertBySpec<T>(x: T, xs: seq<T>, key: T -> int)
    decreases |xs|
    ensures multiset(InsertBy(x, xs, key)) == multiset(xs) + multiset{x}
    ensures forall k :: 0 <= k < |InsertBy(x, xs, key)| ==> InsertBy(x, xs, key)[k] == x || InsertBy(x, xs, key)[k] in xs
  {
    if xs != [] && key(x) > key(xs[0]) {
      var rest := InsertBy(x, xs[1..], key);
      InsertBySpec(x, xs[1..], key);
      assert xs == [xs[0]] + xs[1..];
      assert InsertBy(x, xs, key) == [xs[0]] + rest;
      forall k | 1 <= k < |rest| + 1
        ensures ([xs[0]] + rest)[k] == x || ([xs[0]] + rest)[k] in xs
      {
        assert ([xs[0]] + rest)[k] == rest[k - 1];
      }
    }
  }

  lemma {:induction false} InsertBySorted<T>(x: T, xs: seq<T>, key: T -> int)
    requires SortedBy(xs, key)
    decreases |xs|
    ensures SortedBy(InsertBy(x, xs, key), key)
  {
    if xs != [] && key(x) > key(xs[0]) {
      var rest := InsertBy(x, xs[1..], key);
      InsertBySorted(x, xs[1..], key);
      InsertBySpec(x, xs[1..], key);
      assert xs == [xs[0]] + xs[1..];
      forall k | 0 <= k < |rest|
        ensures key(xs[0]) <= key(rest[k])
      {
        if rest[k] != x {
          var m :| 0 <= m < |xs[1..]| && xs[1..][m] == rest[k];
          assert xs[m + 1] == rest[k];
        }
      }
      var r := [xs[0]] + rest;
      assert InsertBy(x, xs, key) == r;
    }
  }

  /** `sortBy(xs, key)`: ascending by key; of two equal keys the earlier element stays first. */
  function SortBy<T>(xs: seq<T>, key: T -> int): seq<T>
    decreases |xs|
  {
    if xs == [] then [] else InsertBy(xs[0], SortBy(xs[1..], key), key)
  }

  /** `sortBy` gives a sorted permutation of its input. */
  lemma {:induction false} SortBySpec<T>(xs: seq<T>, key: T -> int)
    decreases |xs|
    ensures SortedBy(SortBy(xs, key), key)
    ensures multiset(SortBy(xs, key)) == multiset(xs)
  {
    if xs != [] {
      SortBySpec(xs[1..], key);
      InsertBySorted(xs[0], SortBy(xs[1..], key), key);
      InsertBySpec(xs[0], SortBy(xs[1..], key), key);
      assert xs == [xs[0]] + xs[1..];
    }
  }

  /** `uniqBy(xs, key)`, skipping the keys in `seen`: the first element of every key, in order. */
  function UniqByFrom<T, K(==)>(xs: seq<T>, key: T -> K, seen: set<K>): seq<T>
    decreases |xs|
  {
    if xs == [] then []
    else if key(xs[0]) in seen then UniqByFrom(xs[1..], key, seen)
    else [xs[0]] + UniqByFrom(xs[1..], key, seen + {key(xs[0])})
  }

  function UniqBy<T, K(==)>(xs: seq<T>, key: T -> K): (r: seq<T>) {
    UniqByFrom(xs, key, {})
  }

  // ---------------------------------------------------------------------------
  // Properties of `uniqBy`

  /** Every kept element comes from the input and has a key not seen before. */
  lemma {:induction false} UniqByFromMembers<T, K>(xs: seq<T>, key: T -> K, seen: set<K>)
    decreases |xs|
    ensures |UniqByFrom(xs, key, seen)| <= |xs|
    ensures forall i :: 0 <= i < |UniqByFrom(xs, key, seen)| ==>
      UniqByFrom(xs, key, seen)[i] in xs && key(UniqByFrom(xs, key, seen)[i]) !in seen
  {
    if xs != [] {
      if key(xs[0]) in seen {
        UniqByFromMembers(xs[1..], key, seen);
      } else {
        var rest := UniqByFrom(xs[1..], key, seen + {key(xs[0])});
        UniqByFromMembers(xs[1..], key, seen + {key(xs[0])});
        assert UniqByFrom(xs, key, seen) == [xs[0]] + rest;
        forall i | 1 <= i < |rest| + 1
          ensures ([xs[0]] + rest)[i] in xs
        {
          assert ([xs[0]] + rest)[i] == rest[i - 1];
        }
      }
    }
  }

  /** No two kept elements share a key. */
  lemma {:induction false} UniqByFromDistinct<T, K>(xs: seq<T>, key: T -> K, seen: set<K>)
    decreases |xs|
    ensures forall i, j :: 0 <= i < j < |UniqByFrom(xs, key, seen)| ==>
      key(UniqByFrom(xs, key, seen)[i]) != key(UniqByFrom(xs, key, seen)[j])
  {
    if xs != [] {
      if key(xs[0]) in seen {
        UniqByFromDistinct(xs[1..], key, seen);
      } else {
        var rest := UniqByFrom(xs[1..], key, seen + {key(xs[0])});
        UniqByFromDistinct(xs[1..], key, seen + {key(xs[0])});
        UniqByFromMembers(xs[1..], key, seen + {key(xs[0])});
        assert UniqByFrom(xs, key, seen) == [xs[0]] + rest;
      }
    }
  }

  /** The first element of every key not already seen is kept. */
  lemma {:induction false} UniqByFromKeepsFirst<T, K>(xs: seq<T>, key: T -> K, seen: set<K>, j: nat)
    requires j < |xs| && key(xs[j]) !in seen
    requires forall i :: 0 <= i < j ==> key(xs[i]) != key(xs[j])
    decreases |xs|
    ensures xs[j] in UniqByFrom(xs, key, seen)
  {
    if j > 0 {
      var seen' := if key(xs[0]) in seen then seen else seen + {key(xs[0])};
      UniqByFromKeepsFirst(xs[1..], key, seen', j - 1);
    }
  }

  /** Every key of the input is a key of the output, unless it was already seen. */
  lemma {:induction false} UniqByFromKeys<T, K>(xs: seq<T>, key: T -> K, seen: set<K>, j: nat)
    requires j < |xs| && key(xs[j]) !in seen
    decreases |xs|
    ensures exists i :: 0 <= i < |UniqByFrom(xs, key, seen)| && key(UniqByFrom(xs, key, seen)[i]) == key(xs[j])
  {
    var r := UniqByFrom(xs, key, seen);
    if key(xs[0]) !in seen {
      assert r[0] == xs[0];
      if j > 0 && key(xs[j]) != key(xs[0]) {
        UniqByFromKeys(xs[1..], key, seen + {key(xs[0])}, j - 1);
        var i :| 0 <= i < |UniqByFrom(xs[1..], key, seen + {key(xs[0])})| &&
          key(UniqByFrom(xs[1..], key, seen + {key(xs[0])})[i]) == key(xs[j]);
        assert r[i + 1] == UniqByFrom(xs[1..], key, seen + {key(xs[0])})[i];
      } else {
        assert key(r[0]) == key(xs[j]);
      }
    } else {
      UniqByFromKeys(xs[1..], key, seen, j - 1);
    }
  }

  /**
   * `r` is `xs` thinned out in order: `idx` gives, for every element of `r`,
   * its index in `xs`; the indices increase, and no element of `xs` before
   * that index has the same key.
   */
  ghost predicate KeptInOrder<T, K>(xs: seq<T>, key: T -> K, r: seq<T>, idx: seq<nat>) {
    |idx| == |r| &&
    (forall i :: 0 <= i < |idx| ==> idx[i] < |xs| && xs[idx[i]] == r[i]) &&
    (forall i, j :: 0 <= i < j < |idx| ==> idx[i] < idx[j]) &&
    (forall i, k :: 0 <= i < |idx| && 0 <= k < idx[i] ==> key(xs[k]) != key(r[i]))
  }

  function Shifted(idx: seq<nat>): (r: seq<nat>)
    ensures |r| == |idx| && forall i :: 0 <= i < |idx| ==> r[i] == idx[i] + 1
  {
    seq(|idx|, i requires 0 <= i < |idx| => idx[i] + 1)
  }

  /** The indices in `xs` of the elements `UniqByFrom` keeps. */
  ghost function UniqIndicesFrom<T, K>(xs: seq<T>, key: T -> K, seen: set<K>): seq<nat>
    decreases |xs|
  {
    if xs == [] then []
    else if key(xs[0]) in seen then Shifted(UniqIndicesFrom(xs[1..], key, seen))
    else [0] + Shifted(UniqIndicesFrom(xs[1..], key, seen + {key(xs[0])}))
  }

  /** Keeping an element in front of a list kept in order from the tail keeps the whole in order. */
  lemma {:induction false} KeptInOrderCons<T, K>(xs: seq<T>, key: T -> K, rest: seq<T>, tidx: seq<nat>)
    requires |xs| >= 1 && KeptInOrder(xs[1..], key, rest, tidx)
    requires forall i :: 0 <= i < |rest| ==> key(rest[i]) != key(xs[0])
    ensures KeptInOrder(xs, key, [xs[0]] + rest, [0] + Shifted(tidx))
  {
    var r := [xs[0]] + rest;
    var idx := [0] + Shifted(tidx);
    forall i | 0 <= i < |idx|
      ensures idx[i] < |xs| && xs[idx[i]] == r[i]
    {
      if i > 0 {
        assert idx[i] == tidx[i - 1] + 1 && r[i] == rest[i - 1];
        assert xs[1..][tidx[i - 1]] == rest[i - 1];
      }
    }
    forall i, k | 0 <= i < |idx| && 0 <= k < idx[i]
      ensures key(xs[k]) != key(r[i])
    {
      assert i > 0 && r[i] == rest[i - 1];
      if k > 0 {
        assert xs[k] == xs[1..][k - 1] && k - 1 < tidx[i - 1];
      }
    }
  }

  /** Skipping the front element keeps a list kept in order from the tail in order, when its key differs from all kept keys. */
  lemma {:induction false} KeptInOrderSkip<T, K>(xs: seq<T>, key: T -> K, rest: seq<T>, tidx: seq<nat>)
    requires |xs| >= 1 && KeptInOrder(xs[1..], key, rest, tidx)
    requires forall i :: 0 <= i < |rest| ==> key(rest[i]) != key(xs[0])
    ensures KeptInOrder(xs, key, rest, Shifted(tidx))
  {
    var idx := Shifted(tidx);
    forall i | 0 <= i < |idx|
      ensures idx[i] < |xs| && xs[idx[i]] == rest[i]
    {
      assert xs[1..][tidx[i]] == rest[i];
    }
    forall i, k | 0 <= i < |idx| && 0 <= k < idx[i]
      ensures key(xs[k]) != key(rest[i])
    {
      if k > 0 {
        assert xs[k] == xs[1..][k - 1] && k - 1 < tidx[i];
      }
    }
  }

  /** `UniqByFrom` keeps its elements in input order, each the first of its key. */
  lemma {:induction false} UniqIndicesFromSpec<T, K>(xs: seq<T>, key: T -> K, seen: set<K>)
    decreases |xs|
    ensures KeptInOrder(xs, key, UniqByFrom(xs, key, seen), UniqIndicesFrom(xs, key, seen))
  {
    if xs != [] {
      if key(xs[0]) in seen {
        var rest := UniqByFrom(xs[1..], key, seen);
        UniqIndicesFromSpec(xs[1..], key, seen);
        UniqByFromMembers(xs[1..], key, seen);
        KeptInOrderSkip(xs, key, rest, UniqIndicesFrom(xs[1..], key, seen));
      } else {
        var seen' := seen + {key(xs[0])};
        var rest := UniqByFrom(xs[1..], key, seen');
        UniqIndicesFromSpec(xs[1..], key, seen');
        UniqByFromMembers(xs[1..], key, seen');
        KeptInOrderCons(xs, key, rest, UniqIndicesFrom(xs[1..], key, seen'));
      }
    }
  }

  /**
   * `uniqBy` keeps exactly the first element of every key: the kept keys are
   * distinct, every kept element comes from the input, every first
   * occurrence is kept, and every key of the input survives.
   */
  lemma {:induction false} UniqByKeepsFirst<T, K>(xs: seq<T>, key: T -> K)
    ensures forall i, j :: 0 <= i < j < |UniqBy(xs, key)| ==> key(UniqBy(xs, key)[i]) != key(UniqBy(xs, key)[j])
    ensures forall x :: x in UniqBy(xs, key) ==> x in xs
    ensures forall j :: 0 <= j < |xs| && (forall i :: 0 <= i < j ==> key(xs[i]) != key(xs[j])) ==> xs[j] in UniqBy(xs, key)
    ensures forall j :: 0 <= j < |xs| ==> exists i :: 0 <= i < |UniqBy(xs, key)| && key(UniqBy(xs, key)[i]) == key(xs[j])
  {
    UniqByFromDistinct(xs, key, {});
    UniqByFromMembers(xs, key, {});
    forall j | 0 <= j < |xs| && (forall i :: 0 <= i < j ==> key(xs[i]) != key(xs[j]))
      ensures xs[j] in UniqBy(xs, key)
    {
      UniqByFromKeepsFirst(xs, key, {}, j);
    }
    forall j | 0 <= j < |xs|
      ensures exists i :: 0 <= i < |UniqBy(xs, key)| && key(UniqBy(xs, key)[i]) == key(xs[j])
    {
      UniqByFromKeys(xs, key, {}, j);
    }
  }

  /** `uniqBy` keeps its elements in input order, each the first of its key. */
  lemma {:induction false} UniqByInOrder<T, K>(xs: seq<T>, key: T -> K)
    ensures exists idx :: KeptInOrder(xs, key, UniqBy(xs, key), idx)
  {
    UniqIndicesFromSpec(xs, key, {});
    assert KeptInOrder(xs, key, UniqBy(xs, key), UniqIndicesFrom(xs, key, {}));
  }

  /** Keeping the first of every key from a list sorted by that key leaves it strictly sorted. */
  lemma {:induction false} UniqByFromOfSorted<T>(xs: seq<T>, key: T -> int, seen: set<int>)
    requires SortedBy(xs, key)
    decreases |xs|
    ensures StrictlySortedBy(UniqByFrom(xs, key, seen), key)
  {
    if xs != [] {
      assert SortedBy(xs[1..], key);
      if key(xs[0]) in seen {
        UniqByFromOfSorted(xs[1..], key, seen);
      } else {
        var seen' := seen + {key(xs[0])};
        var rest := UniqByFrom(xs[1..], key, seen');
        UniqByFromOfSorted(xs[1..], key, seen');
        UniqByFromMembers(xs[1..], key, seen');
        forall k | 0 <= k < |rest|
          ensures key(xs[0]) < key(rest[k])
        {
          assert rest[k] in xs[1..];
          assert key(rest[k]) != key(xs[0]);
        }
        assert UniqByFrom(xs, key, seen) == [xs[0]] + rest;
      }
    }
  }

  lemma {:induction false} UniqByOfSorted<T>(xs: seq<T>, key: T -> int)
    requires SortedBy(xs, key)
    ensures StrictlySortedBy(UniqBy(xs, key), key)
  {
    UniqByFromOfSorted(xs, key, {});
  }
}
