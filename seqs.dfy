/** Order-preserving filtering and Python's stable `sorted(..., key=...)`
    over string keys. */
module Seqs {
  import opened Text

  function Filter<T>(xs: seq<T>, p: T -> bool): (r: seq<T>)
    ensures |r| <= |xs|
    ensures forall i :: 0 <= i < |r| ==> r[i] in xs
    ensures forall i :: 0 <= i < |xs| && p(xs[i]) ==> xs[i] in r
    ensures multiset(r) <= multiset(xs)
    ensures forall i :: 0 <= i < |r| ==> p(r[i])
  {
    if xs == [] then []
    else
      assert xs == [xs[0]] + xs[1..];
      (if p(xs[0]) then [xs[0]] else []) + Filter(xs[1..], p)
  }

  /** Filtering works block by block, so it keeps the input order. */
  lemma {:induction false} FilterConcat<T>(a: seq<T>, b: seq<T>, p: T -> bool)
    ensures Filter(a + b, p) == Filter(a, p) + Filter(b, p)
    decreases |a|
  {
    if a == [] {
      assert a + b == b;
    } else {
      assert (a + b)[1..] == a[1..] + b;
      FilterConcat(a[1..], b, p);
    }
  }

  /** One more step of a loop that filters `xs` from left to right. */
  lemma FilterStep<T>(xs: seq<T>, k: nat, p: T -> bool)
    requires k < |xs|
    ensures Filter(xs[..k + 1], p) == Filter(xs[..k], p) + (if p(xs[k]) then [xs[k]] else [])
  {
    assert xs[..k + 1] == xs[..k] + [xs[k]];
    FilterConcat(xs[..k], [xs[k]], p);
    assert [xs[k]][1..] == [];
  }

  /** A filter that keeps everything is the identity. */
  lemma {:induction false} FilterAll<T>(xs: seq<T>, p: T -> bool)
    requires forall i :: 0 <= i < |xs| ==> p(xs[i])
    ensures Filter(xs, p) == xs
    decreases |xs|
  {
    if xs != [] {
      FilterAll(xs[1..], p);
    }
  }

  ghost predicate SortedBy<T>(xs: seq<T>, key: T -> string) {
    forall i, j :: 0 <= i < j < |xs| ==> LexLe(key(xs[i]), key(xs[j]))
  }

  /** Inserts `x` after every element whose key is not greater than its own,
      which keeps equal keys in arrival order. */
  function InsertBy<T>(x: T, xs: seq<T>, key: T -> string): seq<T>
  {
    if xs == [] || !LexLe(key(xs[0]), key(x)) then [x] + xs
    else [xs[0]] + InsertBy(x, xs[1..], key)
  }

  lemma {:induction false} InsertByPerm<T>(x: T, xs: seq<T>, key: T -> string)
    ensures multiset(InsertBy(x, xs, key)) == multiset(xs) + multiset{x}
    ensures |InsertBy(x, xs, key)| == |xs| + 1
    decreases |xs|
  {
    if xs != [] && LexLe(key(xs[0]), key(x)) {
      InsertByPerm(x, xs[1..], key);
      assert xs == [xs[0]] + xs[1..];
    }
  }

  /** A lower bound of `x` and of every element bounds the insertion. */
  lemma InsertByBound<T>(b: string, x: T, xs: seq<T>, key: T -> string)
    requires LexLe(b, key(x)) && forall j :: 0 <= j < |xs| ==> LexLe(b, key(xs[j]))
    ensures forall j :: 0 <= j < |InsertBy(x, xs, key)| ==> LexLe(b, key(InsertBy(x, xs, key)[j]))
  {
    var r := InsertBy(x, xs, key);
    InsertByPerm(x, xs, key);
    forall j | 0 <= j < |r| ensures LexLe(b, key(r[j])) {
      assert r[j] in multiset(xs) + multiset{x};
      if r[j] != x {
        assert r[j] in xs;
      }
    }
  }

  lemma {:induction false} InsertBySorted<T>(x: T, xs: seq<T>, key: T -> string)
    requires SortedBy(xs, key)
    ensures SortedBy(InsertBy(x, xs, key), key)
    decreases |xs|
  {
    if xs == [] {
    } else if !LexLe(key(xs[0]), key(x)) {
      LexLeTotal(key(xs[0]), key(x));
      forall j | 0 <= j < |xs| ensures LexLe(key(x), key(xs[j])) {
        if j > 0 { LexLeTransitive(key(x), key(xs[0]), key(xs[j])); }
      }
    } else {
      InsertBySorted(x, xs[1..], key);
      InsertByBound(key(xs[0]), x, xs[1..], key);
    }
  }

  /** Python's stable `sorted(xs, key=key)`. */
  function SortBy<T>(xs: seq<T>, key: T -> string): (r: seq<T>)
    ensures SortedBy(r, key)
    ensures multiset(r) == multiset(xs)
    ensures |r| == |xs|
    decreases |xs|
  {
    if xs == [] then []
    else
      var r' := SortBy(xs[..|xs| - 1], key);
      InsertBySorted(xs[|xs| - 1], r', key);
      InsertByPerm(xs[|xs| - 1], r', key);
      assert xs == xs[..|xs| - 1] + [xs[|xs| - 1]];
      InsertBy(xs[|xs| - 1], r', key)
  }

  /** The test "has key `k`" as a filter predicate. */
  function HasKey<T>(key: T -> string, k: string): T -> bool {
    e => key(e) == k
  }

  lemma ConcatAssoc<T>(a: seq<T>, b: seq<T>, c: seq<T>)
    ensures a + (b + c) == (a + b) + c
  {
  }

  /** Filtering a sequence with a first element. */
  lemma FilterCons<T>(x: T, xs: seq<T>, p: T -> bool)
    ensures Filter([x] + xs, p) == (if p(x) then [x] else []) + Filter(xs, p)
  {
    assert ([x] + xs)[0] == x && ([x] + xs)[1..] == xs;
  }

  /** Inserting into a sorted sequence puts `x` after every element with
      the same key, and moves no element past another. */
  lemma {:induction false} InsertByStable<T>(x: T, xs: seq<T>, key: T -> string, k: string)
    requires SortedBy(xs, key)
    ensures var p := HasKey(key, k); Filter(InsertBy(x, xs, key), p) == Filter(xs, p) + (if p(x) then [x] else [])
    decreases |xs|, 1
  {
    if xs == [] {
      FilterCons(x, [], HasKey(key, k));
      assert [x] + [] == [x];
    } else if !LexLe(key(xs[0]), key(x)) {
      InsertFrontStable(x, xs, key, k);
    } else {
      InsertAfterStable(x, xs, key, k);
    }
  }

  /** `x` goes after `xs[0]`, so the filter starts as that of `xs`. */
  lemma {:induction false} InsertAfterStable<T>(x: T, xs: seq<T>, key: T -> string, k: string)
    requires SortedBy(xs, key) && xs != [] && LexLe(key(xs[0]), key(x))
    ensures var p := HasKey(key, k); Filter(InsertBy(x, xs, key), p) == Filter(xs, p) + (if p(x) then [x] else [])
    decreases |xs|, 0
  {
    var p := HasKey(key, k);
    var r := InsertBy(x, xs[1..], key);
    assert InsertBy(x, xs, key) == [xs[0]] + r;
    FilterCons(xs[0], r, p);
    InsertByStable(x, xs[1..], key, k);
    ConcatAssoc(if p(xs[0]) then [xs[0]] else [], Filter(xs[1..], p), if p(x) then [x] else []);
  }

  /** `x` goes in front only of keys greater than its own, so no element
      with its key follows it. */
  lemma InsertFrontStable<T>(x: T, xs: seq<T>, key: T -> string, k: string)
    requires SortedBy(xs, key) && xs != [] && !LexLe(key(xs[0]), key(x))
    ensures var p := HasKey(key, k); Filter(InsertBy(x, xs, key), p) == Filter(xs, p) + (if p(x) then [x] else [])
  {
    var p := HasKey(key, k);
    assert InsertBy(x, xs, key) == [x] + xs;
    FilterCons(x, xs, p);
    if p(x) {
      forall i | 0 <= i < |xs| ensures !p(xs[i]) {
        if p(xs[i]) {
          if i == 0 {
            LexLeTotal(key(x), key(x));
          }
          assert false;
        }
      }
      FilterNone(xs, p);
    }
  }

  /** A filter that keeps nothing gives the empty sequence. */
  lemma {:induction false} FilterNone<T>(xs: seq<T>, p: T -> bool)
    requires forall i :: 0 <= i < |xs| ==> !p(xs[i])
    ensures Filter(xs, p) == []
    decreases |xs|
  {
    if xs != [] {
      FilterNone(xs[1..], p);
    }
  }

  /** `SortBy` is stable: the elements that share a key come out in the
      order in which they went in. */
  lemma {:induction false} SortByStable<T>(xs: seq<T>, key: T -> string, k: string)
    ensures Filter(SortBy(xs, key), HasKey(key, k)) == Filter(xs, HasKey(key, k))
    decreases |xs|
  {
    if xs != [] {
      var init, last := xs[..|xs| - 1], xs[|xs| - 1];
      assert SortBy(xs, key) == InsertBy(last, SortBy(init, key), key);
      SortByStable(init, key, k);
      InsertByStable(last, SortBy(init, key), key, k);
      FilterStep(xs, |xs| - 1, HasKey(key, k));
      assert xs[..|xs|] == xs;
    }
  }
}
