/** Stable sorting from the largest key down, ties in their original order. */
module StableSorting {
  function Insert<T>(x: T, ys: seq<T>, key: T -> int): seq<T> {
    if ys == [] || key(x) >= key(ys[0]) then [x] + ys
    else [ys[0]] + Insert(x, ys[1..], key)
  }

  function StableSort<T>(xs: seq<T>, key: T -> int): seq<T> {
    if xs == [] then [] else Insert(xs[0], StableSort(xs[1..], key), key)
  }

  ghost predicate Descending<T>(xs: seq<T>, key: T -> int) {
    forall i, j :: 0 <= i < j < |xs| ==> key(xs[i]) >= key(xs[j])
  }

  /** The elements with one key, in order. */
  ghost function WithKey<T>(xs: seq<T>, key: T -> int, k: int): seq<T> {
    if xs == [] then []
    else (if key(xs[0]) == k then [xs[0]] else []) + WithKey(xs[1..], key, k)
  }

  ghost predicate FirstMax<T>(xs: seq<T>, key: T -> int, b: nat) {
    && b < |xs|
    && (forall i :: 0 <= i < b ==> key(xs[i]) < key(xs[b]))
    && (forall i :: b < i < |xs| ==> key(xs[i]) <= key(xs[b]))
  }

  function Without<T>(xs: seq<T>, b: nat): seq<T>
    requires b < |xs|
  {
    xs[..b] + xs[b + 1..]
  }

  lemma {:induction false} InsertPermutes<T>(x: T, ys: seq<T>, key: T -> int)
    ensures multiset(Insert(x, ys, key)) == multiset{x} + multiset(ys)
  {
    if ys != [] && key(x) < key(ys[0]) {
      InsertPermutes(x, ys[1..], key);
      assert ys == [ys[0]] + ys[1..];
    }
  }

  lemma {:induction false} InsertDescends<T>(x: T, ys: seq<T>, key: T -> int)
    requires Descending(ys, key)
    ensures Descending(Insert(x, ys, key), key)
  {
    if ys != [] && key(x) < key(ys[0]) {
      InsertDescends(x, ys[1..], key);
      InsertPermutes(x, ys[1..], key);
      var t := Insert(x, ys[1..], key);
      forall i | 0 <= i < |t| ensures key(t[i]) <= key(ys[0]) {
        assert t[i] in multiset(t);
        assert t[i] == x || t[i] in ys[1..];
      }
    }
  }

  /** The result is in order and has exactly the given elements. */
  lemma {:induction false} SortFacts<T>(xs: seq<T>, key: T -> int)
    ensures var r := StableSort(xs, key); Descending(r, key) && multiset(r) == multiset(xs) && |r| == |xs|
  {
    if xs != [] {
      SortFacts(xs[1..], key);
      InsertPermutes(xs[0], StableSort(xs[1..], key), key);
      InsertDescends(xs[0], StableSort(xs[1..], key), key);
      assert xs == [xs[0]] + xs[1..];
    }
    assert |multiset(StableSort(xs, key))| == |StableSort(xs, key)|;
  }

  lemma {:induction false} InsertStable<T>(x: T, ys: seq<T>, key: T -> int, k: int)
    requires Descending(ys, key)
    ensures WithKey(Insert(x, ys, key), key, k) == (if key(x) == k then [x] else []) + WithKey(ys, key, k)
  {
    var r := Insert(x, ys, key);
    if ys == [] || key(x) >= key(ys[0]) {
      assert r[1..] == ys;
    } else {
      InsertStable(x, ys[1..], key, k);
      assert r[1..] == Insert(x, ys[1..], key);
      assert key(x) == k ==> key(ys[0]) != k;
    }
  }

  /** Elements with equal keys keep their order. */
  lemma {:induction false} SortStable<T>(xs: seq<T>, key: T -> int, k: int)
    ensures WithKey(StableSort(xs, key), key, k) == WithKey(xs, key, k)
  {
    if xs != [] {
      SortStable(xs[1..], key, k);
      SortFacts(xs[1..], key);
      InsertStable(xs[0], StableSort(xs[1..], key), key, k);
    }
  }

  /** The first of the largest elements leads the sorted list; the rest sort as if it had not been there. */
  lemma {:induction false} FirstMaxLeads<T>(xs: seq<T>, key: T -> int, b: nat)
    requires FirstMax(xs, key, b)
    ensures StableSort(xs, key) == [xs[b]] + StableSort(Without(xs, b), key)
  {
    if b == 0 {
      SortFacts(xs[1..], key);
      var s := StableSort(xs[1..], key);
      if s != [] {
        assert s[0] in multiset(s);
        assert s[0] in xs[1..];
      }
      assert Without(xs, 0) == xs[1..];
    } else {
      FirstMaxLeads(xs[1..], key, b - 1);
      assert Without(xs, b) == [xs[0]] + Without(xs[1..], b - 1);
    }
  }

  ghost predicate NoRepeats<T>(xs: seq<T>) {
    forall i, j :: 0 <= i < j < |xs| ==> xs[i] != xs[j]
  }

  lemma {:induction false} NoRepeatsCounts<T>(xs: seq<T>, v: T)
    requires NoRepeats(xs)
    ensures multiset(xs)[v] <= 1
  {
    if xs != [] {
      NoRepeatsCounts(xs[1..], v);
      assert xs == [xs[0]] + xs[1..];
      if v == xs[0] { assert v !in xs[1..]; }
    }
  }

  /** A rearrangement of a list without repeats has none either. */
  lemma RearrangedNoRepeats<T>(xs: seq<T>, ys: seq<T>)
    requires NoRepeats(xs) && multiset(ys) == multiset(xs)
    ensures NoRepeats(ys)
  {
    forall i, j | 0 <= i < j < |ys| ensures ys[i] != ys[j] {
      var front := ys[..j];
      assert ys == front + [ys[j]] + ys[j + 1..];
      NoRepeatsCounts(xs, ys[j]);
      assert front[i] == ys[i];
      assert ys[j] in front ==> multiset(front)[ys[j]] >= 1;
    }
  }
}
