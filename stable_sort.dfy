/** Python's `list.sort(key=...)` for a string key: a stable sort, here
    defined by inserting each element in turn after every element whose key
    is not greater than its own. */
module StableSort {
  import opened Strings

  /** Each key is at most the next one. */
  predicate Sorted<T>(key: T -> string, s: seq<T>)
    decreases |s|
  {
    |s| <= 1 || (LessEq(key(s[0]), key(s[1])) && Sorted(key, s[1..]))
  }

  /** Sorted by neighbours means sorted by every pair. */
  lemma {:induction false} SortedPairwise<T>(key: T -> string, s: seq<T>, i: int, j: int)
    requires Sorted(key, s) && 0 <= i < j < |s|
    ensures LessEq(key(s[i]), key(s[j]))
    decreases |s|
  {
    if i > 0 {
      SortedPairwise(key, s[1..], i - 1, j - 1);
    } else if j > 1 {
      SortedPairwise(key, s[1..], 0, j - 1);
      LessEqTransitive(key(s[0]), key(s[1]), key(s[j]));
    }
  }

  /** Puts `x` after every leading element whose key is not greater. */
  function Insert<T>(key: T -> string, x: T, s: seq<T>): (r: seq<T>)
    ensures |r| == |s| + 1
    decreases |s|
  {
    if s == [] then [x]
    else if LessEq(key(s[0]), key(x)) then [s[0]] + Insert(key, x, s[1..])
    else [x] + s
  }

  /** `sorted(s, key=key)` */
  function SortBy<T>(key: T -> string, s: seq<T>): (r: seq<T>)
    ensures |r| == |s|
    decreases |s|
  {
    if s == [] then [] else Insert(key, s[|s| - 1], SortBy(key, s[..|s| - 1]))
  }

  // -----------------------------------------------------------------------
  // A permutation

  lemma {:induction false} InsertPermutes<T>(key: T -> string, x: T, s: seq<T>)
    ensures multiset(Insert(key, x, s)) == multiset(s) + multiset{x}
    decreases |s|
  {
    if s != [] && LessEq(key(s[0]), key(x)) {
      InsertPermutes(key, x, s[1..]);
      assert s == [s[0]] + s[1..];
    }
  }

  /** The sort rearranges its input and nothing more. */
  lemma {:induction false} SortByPermutes<T>(key: T -> string, s: seq<T>)
    ensures multiset(SortBy(key, s)) == multiset(s)
    decreases |s|
  {
    if s != [] {
      var prefix := s[..|s| - 1];
      SortByPermutes(key, prefix);
      InsertPermutes(key, s[|s| - 1], SortBy(key, prefix));
      assert s == prefix + [s[|s| - 1]];
    }
  }

  // -----------------------------------------------------------------------
  // Ordered

  lemma InsertHead<T>(key: T -> string, x: T, s: seq<T>)
    ensures var r := Insert(key, x, s); r[0] == x || (s != [] && r[0] == s[0])
  {
  }

  lemma {:induction false} InsertSorted<T>(key: T -> string, x: T, s: seq<T>)
    requires Sorted(key, s)
    ensures Sorted(key, Insert(key, x, s))
    decreases |s|
  {
    if s == [] {
      assert Insert(key, x, s) == [x];
    } else if LessEq(key(s[0]), key(x)) {
      var rest := Insert(key, x, s[1..]);
      InsertSorted(key, x, s[1..]);
      InsertHead(key, x, s[1..]);
      assert Insert(key, x, s) == [s[0]] + rest;
      assert ([s[0]] + rest)[1..] == rest;
    } else {
      LessEqTotal(key(x), key(s[0]));
      assert Insert(key, x, s) == [x] + s;
      assert ([x] + s)[1..] == s;
    }
  }

  /** The sort orders by the key. */
  lemma {:induction false} SortByIsSorted<T>(key: T -> string, s: seq<T>)
    ensures Sorted(key, SortBy(key, s))
    decreases |s|
  {
    if s != [] {
      SortByIsSorted(key, s[..|s| - 1]);
      InsertSorted(key, s[|s| - 1], SortBy(key, s[..|s| - 1]));
    }
  }

  // -----------------------------------------------------------------------
  // Stable

  /** The elements whose key is `v`, in order. */
  function WithKey<T>(key: T -> string, v: string, s: seq<T>): (r: seq<T>)
    decreases |s|
  {
    if s == [] then []
    else (if key(s[0]) == v then [s[0]] else []) + WithKey(key, v, s[1..])
  }

  lemma WithKeySingle<T>(key: T -> string, v: string, x: T)
    ensures WithKey(key, v, [x]) == if key(x) == v then [x] else []
  {
    assert [x][1..] == [];
  }

  lemma WithKeyCons<T>(key: T -> string, v: string, x: T, s: seq<T>)
    ensures WithKey(key, v, [x] + s) == (if key(x) == v then [x] else []) + WithKey(key, v, s)
  {
    assert ([x] + s)[0] == x && ([x] + s)[1..] == s;
  }

  lemma {:induction false} WithKeyAppend<T>(key: T -> string, v: string, a: seq<T>, b: seq<T>)
    ensures WithKey(key, v, a + b) == WithKey(key, v, a) + WithKey(key, v, b)
    decreases |a|
  {
    if a == [] {
      assert a + b == b;
    } else {
      WithKeyAppend(key, v, a[1..], b);
      WithKeyCons(key, v, a[0], a[1..] + b);
      WithKeyCons(key, v, a[0], a[1..]);
      assert [a[0]] + (a[1..] + b) == a + b;
      assert [a[0]] + a[1..] == a;
    }
  }

  /** In a sorted sequence whose first key is above the key of `x`, no
      element has the key of `x`. */
  lemma {:induction false} NoneWithKeyAbove<T>(key: T -> string, x: T, s: seq<T>)
    requires Sorted(key, s) && s != [] && !LessEq(key(s[0]), key(x))
    ensures WithKey(key, key(x), s) == []
    decreases |s|
  {
    if key(s[0]) == key(x) {
      LessEqReflexive(key(x));
    }
    if |s| > 1 {
      if LessEq(key(s[1]), key(x)) {
        LessEqTransitive(key(s[0]), key(s[1]), key(x));
      }
      NoneWithKeyAbove(key, x, s[1..]);
    }
  }

  /** Inserting `x` puts it after every element with the same key. */
  lemma {:induction false} InsertStable<T>(key: T -> string, x: T, s: seq<T>, v: string)
    requires Sorted(key, s)
    ensures WithKey(key, v, Insert(key, x, s)) == WithKey(key, v, s) + WithKey(key, v, [x])
    decreases |s|, 1
  {
    if s == [] {
      WithKeySingle(key, v, x);
      assert Insert(key, x, s) == [x];
    } else if LessEq(key(s[0]), key(x)) {
      InsertStablePast(key, x, s, v);
    } else {
      InsertStableFront(key, x, s, v);
    }
  }

  lemma {:induction false} InsertStablePast<T>(key: T -> string, x: T, s: seq<T>, v: string)
    requires s != [] && LessEq(key(s[0]), key(x)) && Sorted(key, s[1..])
    ensures WithKey(key, v, Insert(key, x, s)) == WithKey(key, v, s) + WithKey(key, v, [x])
    decreases |s|, 0
  {
    var rest := Insert(key, x, s[1..]);
    var head := if key(s[0]) == v then [s[0]] else [];
    var tail, last := WithKey(key, v, s[1..]), WithKey(key, v, [x]);
    assert WithKey(key, v, Insert(key, x, s)) == head + WithKey(key, v, rest) by {
      assert Insert(key, x, s) == [s[0]] + rest;
      WithKeyCons(key, v, s[0], rest);
    }
    assert WithKey(key, v, rest) == tail + last by {
      InsertStable(key, x, s[1..], v);
    }
    assert WithKey(key, v, s) == head + tail by {
      WithKeyCons(key, v, s[0], s[1..]);
      assert [s[0]] + s[1..] == s;
    }
    assert head + (tail + last) == (head + tail) + last;
  }

  lemma InsertStableFront<T>(key: T -> string, x: T, s: seq<T>, v: string)
    requires Sorted(key, s) && s != [] && !LessEq(key(s[0]), key(x))
    ensures WithKey(key, v, Insert(key, x, s)) == WithKey(key, v, s) + WithKey(key, v, [x])
  {
    WithKeySingle(key, v, x);
    assert Insert(key, x, s) == [x] + s;
    WithKeyCons(key, v, x, s);
    if key(x) == v {
      NoneWithKeyAbove(key, x, s);
    }
  }

  /** The sort is stable: the elements sharing any one key keep their
      relative order. */
  lemma {:induction false} SortByStable<T>(key: T -> string, s: seq<T>, v: string)
    ensures WithKey(key, v, SortBy(key, s)) == WithKey(key, v, s)
    decreases |s|
  {
    if s != [] {
      var prefix := s[..|s| - 1];
      SortByStable(key, prefix, v);
      SortByIsSorted(key, prefix);
      InsertStable(key, s[|s| - 1], SortBy(key, prefix), v);
      WithKeyAppend(key, v, prefix, [s[|s| - 1]]);
      assert prefix + [s[|s| - 1]] == s;
    }
  }
}
