/** The card catalog: categories of card names, with card ids assigned densely in
    category-major order, so that category i owns the ids Base(i) .. Base(i) + count(i) - 1. */
module Catalog {
  import opened Sorting

  /** The first card id of category i: the number of cards in the categories before it. */
  function Base(counts: seq<int>, i: nat): (b: int)
    requires i <= |counts|
    ensures NonNegative(counts) ==> b >= 0
  {
    if i == 0 then 0 else Base(counts, i - 1) + counts[i - 1]
  }

  function Total(counts: seq<int>): (t: int)
    ensures Positive(counts) ==> t >= |counts|
  {
    BaseAtLeastAll(counts);
    Base(counts, |counts|)
  }

  lemma {:induction false} BaseAtLeastAll(counts: seq<int>)
    ensures Positive(counts) ==> Base(counts, |counts|) >= |counts|
  {
    if Positive(counts) {
      BaseAtLeast(counts, |counts|);
    }
  }

  predicate NonNegative(counts: seq<int>)
  {
    forall i :: 0 <= i < |counts| ==> counts[i] >= 0
  }

  predicate Positive(counts: seq<int>)
  {
    forall i :: 0 <= i < |counts| ==> counts[i] > 0
  }

  /** What `start_game` asserts before dealing: at least one category, and more cards than
      categories, so that the deck left after taking the solution is not empty. */
  predicate Dealable(counts: seq<int>)
  {
    |counts| > 0 && Total(counts) - |counts| > 0
  }

  /** Card `card` is one of category i's ids. */
  predicate InCategory(counts: seq<int>, i: nat, card: int)
    requires i < |counts|
  {
    Base(counts, i) <= card < Base(counts, i) + counts[i]
  }

  /** Position i of `s` holds a card of category i, for every category. */
  predicate OnePerCategory(counts: seq<int>, s: seq<int>)
  {
    |s| == |counts| && forall i :: 0 <= i < |s| ==> InCategory(counts, i, s[i])
  }

  lemma {:induction false} BaseMonotone(counts: seq<int>, i: nat, j: nat)
    requires NonNegative(counts) && i <= j <= |counts|
    ensures Base(counts, i) <= Base(counts, j)
    decreases j
  {
    if i < j {
      BaseMonotone(counts, i, j - 1);
    }
  }

  /** With no empty category there are at least as many cards as categories. */
  lemma {:induction false} BaseAtLeast(counts: seq<int>, i: nat)
    requires Positive(counts) && i <= |counts|
    ensures Base(counts, i) >= i
  {
    if i > 0 {
      BaseAtLeast(counts, i - 1);
    }
  }

  /** The categories' id ranges are disjoint and ascending, so one card per category in category
      order is a strictly increasing sequence (in particular, its cards are distinct). */
  lemma {:induction false} OnePerCategorySorted(counts: seq<int>, s: seq<int>)
    requires NonNegative(counts) && OnePerCategory(counts, s)
    ensures StrictlySorted(s)
  {
    forall i, j | 0 <= i < j < |s|
      ensures s[i] < s[j]
    {
      BaseMonotone(counts, i + 1, j);
    }
  }

  /** A card belongs to at most one category. */
  lemma {:induction false} CategoryUnique(counts: seq<int>, i: nat, j: nat, card: int)
    requires NonNegative(counts) && i < |counts| && j < |counts|
    requires InCategory(counts, i, card) && InCategory(counts, j, card)
    ensures i == j
  {
    if i < j {
      BaseMonotone(counts, i + 1, j);
    } else if j < i {
      BaseMonotone(counts, j + 1, i);
    }
  }

  // ---------------------------------------------------------------------------------------
  // Catalogs of names.

  function Counts<T>(cats: seq<seq<T>>): (counts: seq<int>)
    ensures |counts| == |cats| && NonNegative(counts)
    ensures forall i :: 0 <= i < |cats| ==> counts[i] == |cats[i]|
  {
    seq(|cats|, i requires 0 <= i < |cats| => |cats[i]|)
  }

  /** All entries in category-major order. */
  function Flatten<T>(xss: seq<seq<T>>): seq<T>
  {
    if xss == [] then [] else Flatten(xss[..|xss| - 1]) + xss[|xss| - 1]
  }

  lemma {:induction false} FlattenAppend<T>(xss: seq<seq<T>>, ys: seq<seq<T>>)
    ensures Flatten(xss + ys) == Flatten(xss) + Flatten(ys)
    decreases |ys|
  {
    if ys != [] {
      var n := |ys| - 1;
      assert (xss + ys)[..|xss + ys| - 1] == xss + ys[..n];
      assert (xss + ys)[|xss + ys| - 1] == ys[n];
      FlattenAppend(xss, ys[..n]);
      calc {
        Flatten(xss + ys);
        Flatten(xss + ys[..n]) + ys[n];
        Flatten(xss) + Flatten(ys[..n]) + ys[n];
        Flatten(xss) + Flatten(ys);
      }
    } else {
      assert xss + ys == xss;
    }
  }

  lemma {:induction false} FlattenSnoc<T>(xss: seq<seq<T>>, xs: seq<T>)
    ensures Flatten(xss + [xs]) == Flatten(xss) + xs
  {
    assert (xss + [xs])[..|xss|] == xss;
  }

  /** Taking one more category appends its entries. */
  lemma {:induction false} FlattenNext<T>(cats: seq<seq<T>>, i: nat)
    requires i < |cats|
    ensures Flatten(cats[..i + 1]) == Flatten(cats[..i]) + cats[i]
    ensures Counts(cats[..i + 1]) == Counts(cats[..i]) + [|cats[i]|]
  {
    assert cats[..i + 1] == cats[..i] + [cats[i]];
    FlattenSnoc(cats[..i], cats[i]);
  }

  /** No category holds more entries than the whole catalog. */
  lemma {:induction false} CategoryWithin<T>(cats: seq<seq<T>>, i: nat)
    requires i < |cats|
    ensures |cats[i]| <= |Flatten(cats)|
    ensures |Flatten(cats[..i + 1])| <= |Flatten(cats)|
  {
    assert cats == cats[..i + 1] + cats[i + 1..];
    FlattenAppend(cats[..i + 1], cats[i + 1..]);
    FlattenNext(cats, i);
  }

  /** There are Total card ids. */
  lemma {:induction false} FlattenLength<T>(cats: seq<seq<T>>)
    ensures |Flatten(cats)| == Total(Counts(cats))
  {
    if cats != [] {
      var n := |cats| - 1;
      var pre := cats[..n];
      FlattenLength(pre);
      assert Counts(pre) == Counts(cats)[..n];
      BasePrefix(Counts(cats), n, n);
    }
  }

  /** Card id Base(i) + j names entry j of category i. */
  lemma {:induction false} FlattenAt<T>(cats: seq<seq<T>>, i: nat, j: nat)
    requires i < |cats| && j < |cats[i]|
    ensures 0 <= Base(Counts(cats), i) + j < |Flatten(cats)|
    ensures Flatten(cats)[Base(Counts(cats), i) + j] == cats[i][j]
  {
    var n := |cats| - 1;
    var pre := cats[..n];
    assert Counts(pre) == Counts(cats)[..n];
    assert Flatten(cats) == Flatten(pre) + cats[n];
    FlattenLength(pre);
    if i < n {
      FlattenAt(pre, i, j);
      BasePrefix(Counts(cats), n, i);
    } else {
      BasePrefix(Counts(cats), n, n);
    }
  }

  /** Bases depend only on the counts before them. */
  lemma {:induction false} BasePrefix(counts: seq<int>, m: nat, k: nat)
    requires k <= m <= |counts|
    ensures Base(counts[..m], k) == Base(counts, k)
  {
    if k > 0 {
      BasePrefix(counts, m, k - 1);
    }
  }

  /** The card ids lo, lo+1, ..., lo+k-1. */
  function Span(lo: int, k: nat): (r: seq<int>)
    ensures |r| == k && forall i :: 0 <= i < k ==> r[i] == lo + i
  {
    if k == 0 then [] else Span(lo, k - 1) + [lo + k - 1]
  }

  lemma {:induction false} SpanSplit(lo: int, a: nat, b: nat)
    ensures Span(lo, a + b) == Span(lo, a) + Span(lo + a, b)
  {
  }
}
