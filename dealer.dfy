/** The dealer (`start_game`): one solution card drawn per category, every other card into the
    deck, the deck and the player order shuffled in place, the deck dealt round-robin, each hand
    sorted, and a personalised Start frame sent to each player. Random numbers come from supplied
    sequences of draws, so every property holds for every random stream. */
module Dealer {
  import opened Wire
  import opened Frames
  import opened Sorting
  import opened Catalog
  import opened Rules
  import opened Lobby
  import opened Start

  // ---------------------------------------------------------------------------------------
  // Solution and deck.

  /** `solution[i] = base_idx + rand() % num_cards[i]`, one draw per category. */
  function Solution(counts: seq<int>, draws: seq<nat>): (s: seq<int>)
    requires Positive(counts) && |draws| >= |counts|
    ensures |s| == |counts|
  {
    seq(|counts|, i requires 0 <= i < |counts| => Base(counts, i) + draws[i] % counts[i])
  }

  /** Whatever the draws, the solution holds one card of each category. */
  lemma {:induction false} SolutionOnePerCategory(counts: seq<int>, draws: seq<nat>)
    requires Positive(counts) && |draws| >= |counts|
    ensures OnePerCategory(counts, Solution(counts, draws))
    ensures StrictlySorted(Solution(counts, draws))
  {
    var s := Solution(counts, draws);
    forall i | 0 <= i < |s|
      ensures InCategory(counts, i, s[i])
    {
      assert 0 <= draws[i] % counts[i] < counts[i];
    }
    OnePerCategorySorted(counts, s);
  }

  /** The cards lo .. lo+k-1 other than s, in ascending order: what the inner loop puts in the deck. */
  function CategoryRest(lo: int, k: nat, s: int): seq<int>
  {
    if k == 0 then [] else CategoryRest(lo, k - 1, s) + (if lo + k - 1 == s then [] else [lo + k - 1])
  }

  lemma {:induction false} CategoryRestMiss(lo: int, k: nat, s: int)
    requires !(lo <= s < lo + k)
    ensures CategoryRest(lo, k, s) == Span(lo, k)
  {
    if k > 0 {
      CategoryRestMiss(lo, k - 1, s);
    }
  }

  /** A category's rest and its solution card together are the category's cards. */
  lemma {:induction false} CategoryRestParts(lo: int, k: nat, s: int)
    requires lo <= s < lo + k
    ensures |CategoryRest(lo, k, s)| == k - 1
    ensures multiset(CategoryRest(lo, k, s)) + multiset{s} == multiset(Span(lo, k))
  {
    var top := lo + k - 1;
    assert Span(lo, k) == Span(lo, k - 1) + [top];
    if s == top {
      CategoryRestMiss(lo, k - 1, s);
      assert CategoryRest(lo, k, s) == Span(lo, k - 1);
    } else {
      CategoryRestParts(lo, k - 1, s);
      assert CategoryRest(lo, k, s) == CategoryRest(lo, k - 1, s) + [top];
    }
  }

  /** The deck after the first i categories. */
  function DeckOf(counts: seq<int>, sol: seq<int>, i: nat): seq<int>
    requires NonNegative(counts) && i <= |counts| == |sol|
  {
    if i == 0 then [] else DeckOf(counts, sol, i - 1) + CategoryRest(Base(counts, i - 1), counts[i - 1], sol[i - 1])
  }

  /** The deck and the solution together hold every card id below Base(i) exactly once, and the
      deck has Base(i) - i cards. */
  lemma {:induction false} DeckPartition(counts: seq<int>, sol: seq<int>, i: nat)
    requires Positive(counts) && OnePerCategory(counts, sol) && i <= |counts|
    ensures multiset(DeckOf(counts, sol, i)) + multiset(sol[..i]) == multiset(Span(0, Base(counts, i)))
    ensures |DeckOf(counts, sol, i)| == Base(counts, i) - i
  {
    if i > 0 {
      assert sol[..i] == sol[..i - 1] + [sol[i - 1]];
      DeckPartition(counts, sol, i - 1);
      assert InCategory(counts, i - 1, sol[i - 1]);
      PartitionStep(DeckOf(counts, sol, i - 1), sol[..i - 1], Base(counts, i - 1), counts[i - 1], sol[i - 1],
        DeckOf(counts, sol, i), sol[..i], Base(counts, i));
    }
  }

  /** One category's step of the partition. */
  lemma {:induction false} PartitionStep(d: seq<int>, pre: seq<int>, b: nat, k: nat, x: int, deck: seq<int>, solPre: seq<int>, n: nat)
    requires multiset(d) + multiset(pre) == multiset(Span(0, b))
    requires b <= x < b + k && n == b + k
    requires deck == d + CategoryRest(b, k, x) && solPre == pre + [x]
    ensures multiset(deck) + multiset(solPre) == multiset(Span(0, n))
    ensures |deck| == |d| + k - 1
  {
    var rest := CategoryRest(b, k, x);
    CategoryRestParts(b, k, x);
    SpanSplitAt(0, b, k, n);
    Combine(d, pre, Span(0, b), rest, x, Span(b, k), Span(0, n), deck, solPre);
  }

  /** SpanSplit, stated for a total written as a single term. */
  lemma {:induction false} SpanSplitAt(lo: int, a: nat, b: nat, n: nat)
    requires n == a + b
    ensures Span(lo, n) == Span(lo, a) + Span(lo + a, b)
  {
    SpanSplit(lo, a, b);
  }

  /** Multiset bookkeeping over opaque pieces: two partitions side by side make one. */
  lemma {:induction false} Combine(d: seq<int>, pre: seq<int>, s1: seq<int>, rest: seq<int>, x: int, s2: seq<int>,
                total: seq<int>, deck: seq<int>, solPre: seq<int>)
    requires multiset(d) + multiset(pre) == multiset(s1)
    requires multiset(rest) + multiset{x} == multiset(s2)
    requires total == s1 + s2 && deck == d + rest && solPre == pre + [x]
    ensures multiset(deck) + multiset(solPre) == multiset(total)
  {
  }

  lemma {:induction false} SpanCount(lo: int, k: nat, c: int)
    ensures multiset(Span(lo, k))[c] == if lo <= c < lo + k then 1 else 0
  {
    var sp := Span(lo, k);
    assert StrictlySorted(sp);
    DistinctCount(sp, c);
    if lo <= c < lo + k {
      assert sp[c - lo] == c;
    }
  }

  lemma {:induction false} DistinctCount(s: seq<int>, c: int)
    requires StrictlySorted(s)
    ensures multiset(s)[c] == if c in s then 1 else 0
  {
    if s != [] {
      var t := s[..|s| - 1];
      assert s == t + [s[|s| - 1]];
      assert StrictlySorted(t);
      DistinctCount(t, c);
      assert c == s[|s| - 1] ==> c !in t;
    }
  }

  /** The deck contains every card that is not in the solution exactly once, and nothing else;
      it has total - C cards (the `assert` after the loop). */
  lemma {:induction false} DeckExactlyOnce(counts: seq<int>, draws: seq<nat>, c: int)
    requires Positive(counts) && |draws| >= |counts|
    ensures var sol := Solution(counts, draws);
      var deck := DeckOf(counts, sol, |counts|);
      |deck| == Total(counts) - |counts|
      && multiset(deck)[c] == if 0 <= c < Total(counts) && c !in sol then 1 else 0
  {
    var sol := Solution(counts, draws);
    SolutionOnePerCategory(counts, draws);
    DeckPartition(counts, sol, |counts|);
    assert sol[..|counts|] == sol;
    SpanCount(0, Total(counts), c);
    DistinctCount(sol, c);
    if c in sol {
      var i :| 0 <= i < |sol| && sol[i] == c;
      assert InCategory(counts, i, c);
      BaseMonotone(counts, i + 1, |counts|);
      assert 0 <= Base(counts, i);
    }
  }

  /** The first loop of `start_game`: draw each category's solution card and put the category's
      other cards in the deck, in ascending order. */
  method BuildDeck(counts: seq<int>, draws: seq<nat>) returns (solution: seq<int>, deck: seq<int>)
    requires Positive(counts) && |draws| >= |counts|
    ensures solution == Solution(counts, draws)
    ensures deck == DeckOf(counts, solution, |counts|)
  {
    ghost var sol := Solution(counts, draws);
    solution, deck := [], [];
    var baseIdx := 0;
    for i := 0 to |counts|
      invariant baseIdx == Base(counts, i) && solution == sol[..i]
      invariant deck == DeckOf(counts, sol, i)
    {
      var s := baseIdx + draws[i] % counts[i];
      DeckStep(counts, draws, i);
      solution := solution + [s];
      for j := 0 to counts[i]
        invariant deck == DeckOf(counts, sol, i) + CategoryRest(baseIdx, j, s)
      {
        RestStep(baseIdx, j, s);
        if baseIdx + j == s {
          continue;
        }
        deck := deck + [baseIdx + j];
      }
      baseIdx := baseIdx + counts[i];
    }
    assert solution == sol;
  }

  lemma {:induction false} RestStep(lo: int, j: nat, s: int)
    ensures CategoryRest(lo, j + 1, s) == CategoryRest(lo, j, s) + (if lo + j == s then [] else [lo + j])
  {
  }

  /** One turn of the first loop: category i's solution card and its rest of the deck. */
  lemma {:induction false} DeckStep(counts: seq<int>, draws: seq<nat>, i: nat)
    requires Positive(counts) && |draws| >= |counts| && i < |counts|
    ensures var sol := Solution(counts, draws);
      sol[i] == Base(counts, i) + draws[i] % counts[i]
      && sol[..i + 1] == sol[..i] + [sol[i]]
      && Base(counts, i + 1) == Base(counts, i) + counts[i]
      && DeckOf(counts, sol, i + 1) == DeckOf(counts, sol, i) + CategoryRest(Base(counts, i), counts[i], sol[i])
  {
  }

  // ---------------------------------------------------------------------------------------
  // The Fisher-Yates shuffle.

  /** `shuffle`'s exchange through `tmp`: position j gets what was at i and i what was at j. */
  function Swap<T>(s: seq<T>, j: nat, i: nat): (r: seq<T>)
    requires j < |s| && i < |s|
    ensures |r| == |s| && r[j] == s[i] && r[i] == s[j]
    ensures forall k :: 0 <= k < |s| && k != i && k != j ==> r[k] == s[k]
  {
    s[j := s[i]][i := s[j]]
  }

  lemma {:induction false} SwapPermutation<T>(s: seq<T>, j: nat, i: nat)
    requires j < |s| && i < |s|
    ensures multiset(Swap(s, j, i)) == multiset(s)
  {
    if i != j {
      var t := s[j := s[i]];
      assert multiset(t) == multiset(s) - multiset{s[j]} + multiset{s[i]};
    }
  }

  /** The array after the first k rounds of `shuffle`: round i exchanges positions
      `rand() % (i + 1)` and i. */
  function Shuffled<T>(s: seq<T>, draws: seq<nat>, k: nat): (r: seq<T>)
    requires k <= |s| && k <= |draws|
    ensures |r| == |s|
  {
    if k == 0 then s else Swap(Shuffled(s, draws, k - 1), draws[k - 1] % k, k - 1)
  }

  /** Whatever the random values, the shuffle only rearranges the array. */
  lemma {:induction false} ShuffledPermutation<T>(s: seq<T>, draws: seq<nat>, k: nat)
    requires k <= |s| && k <= |draws|
    ensures multiset(Shuffled(s, draws, k)) == multiset(s)
  {
    if k > 0 {
      var t := Shuffled(s, draws, k - 1);
      ShuffledPermutation(s, draws, k - 1);
      SwapPermutation(t, draws[k - 1] % k, k - 1);
      assert Shuffled(s, draws, k) == Swap(t, draws[k - 1] % k, k - 1);
    }
  }

  /** The first k rounds only touch the first k positions. */
  lemma {:induction false} ShuffledPrefixOnly<T>(s: seq<T>, draws: seq<nat>, k: nat)
    requires k <= |s| && k <= |draws|
    ensures Shuffled(s, draws, k)[k..] == s[k..]
  {
    if k > 0 {
      ShuffledPrefixOnly(s, draws, k - 1);
      var t := Shuffled(s, draws, k - 1);
      var j := draws[k - 1] % k;
      ModBelow(draws[k - 1], k);
      assert Shuffled(s, draws, k) == Swap(t, j, k - 1);
      SwapKeepsSuffix(t, j, k - 1);
      assert t[k..] == t[k - 1..][1..] && s[k..] == s[k - 1..][1..];
    }
  }

  lemma {:induction false} ModBelow(x: nat, k: nat)
    requires k > 0
    ensures x % k < k
  {
  }

  lemma {:induction false} SwapKeepsSuffix<T>(t: seq<T>, j: nat, i: nat)
    requires j <= i < |t|
    ensures Swap(t, j, i)[i + 1..] == t[i + 1..]
  {
  }

  /** `shuffle`, in place on the array. */
  method Shuffle<T>(a: array<T>, draws: seq<nat>)
    requires a.Length <= |draws|
    modifies a
    ensures a[..] == Shuffled(old(a[..]), draws, a.Length)
    ensures multiset(a[..]) == multiset(old(a[..]))
  {
    for i := 0 to a.Length
      invariant a[..] == Shuffled(old(a[..]), draws, i)
    {
      var idx := draws[i] % (i + 1);
      var tmp := a[idx];
      a[idx] := a[i];
      a[i] := tmp;
    }
    ShuffledPermutation(old(a[..]), draws, a.Length);
  }

  // ---------------------------------------------------------------------------------------
  // The round-robin deal.

  /** The cards player p holds once the first k cards of the deck are dealt: card i goes to
      player i mod n. */
  function Hand(deck: seq<int>, n: nat, p: nat, k: nat): seq<int>
    requires n > 0 && k <= |deck|
  {
    if k == 0 then [] else Hand(deck, n, p, k - 1) + (if (k - 1) % n == p then [deck[k - 1]] else [])
  }

  /** All n hands after dealing the first k cards. */
  function Dealt(deck: seq<int>, n: nat, k: nat): (hands: seq<seq<int>>)
    requires n > 0 && k <= |deck|
    ensures |hands| == n
  {
    seq(n, p requires 0 <= p < n => Hand(deck, n, p, k))
  }

  lemma {:induction false} MulMono(a: int, n: nat)
    requires a >= 1
    ensures a * n >= n
  {
    assert a * n == (a - 1) * n + n;
  }

  /** Quotient and remainder are unique. */
  lemma {:induction false} DivMod(x: nat, n: nat, q: nat, r: nat)
    requires n > 0 && r < n && x == q * n + r
    ensures x / n == q && x % n == r
  {
    var q0, r0 := x / n, x % n;
    assert q0 * n + r0 == q * n + r;
    if q0 > q {
      assert (q0 - q) * n == r - r0;
      MulMono(q0 - q, n);
    } else if q > q0 {
      assert (q - q0) * n == r0 - r;
      MulMono(q - q0, n);
    }
  }

  lemma {:induction false} DivMono(i: nat, j: nat, n: nat)
    requires n > 0 && i <= j
    ensures i / n <= j / n
  {
    var qi, qj := i / n, j / n;
    if qi > qj {
      assert qi * n + i % n == i && qj * n + j % n == j;
      assert (qi - qj) * n <= j % n - i % n;
      MulMono(qi - qj, n);
    }
  }

  /** `deal_idx++; deal_idx %= num_players` keeps `deal_idx` equal to i mod n. */
  lemma {:induction false} ModNext(i: nat, n: nat)
    requires n > 0
    ensures (i % n + 1) % n == (i + 1) % n
  {
    var q, r := i / n, i % n;
    assert i == q * n + r;
    if r == n - 1 {
      assert i + 1 == (q + 1) * n + 0;
      DivMod(i + 1, n, q + 1, 0);
      DivMod(r + 1, n, 1, 0);
    } else {
      DivMod(i + 1, n, q, r + 1);
      DivMod(r + 1, n, 0, r + 1);
    }
  }

  /** Counting one more card: the remainder wraps to 0 and the quotient goes up, or the remainder
      goes up. */
  lemma {:induction false} DivStep(k: nat, n: nat)
    requires n > 0 && k > 0
    ensures var (q, r) := ((k - 1) / n, (k - 1) % n);
      (r == n - 1 && k / n == q + 1 && k % n == 0) || (r < n - 1 && k / n == q && k % n == r + 1)
  {
    var q, r := (k - 1) / n, (k - 1) % n;
    if r == n - 1 {
      DivMod(k, n, q + 1, 0);
    } else {
      DivMod(k, n, q, r + 1);
    }
  }

  /** The hand-size formula across one dealt card, on the quotients and remainders alone. */
  lemma {:induction false} SizeStep(n: nat, p: nat, q: nat, r: nat, q2: nat, r2: nat)
    requires p < n && r < n
    requires (r == n - 1 && q2 == q + 1 && r2 == 0) || (r < n - 1 && q2 == q && r2 == r + 1)
    ensures q + (if p < r then 1 else 0) + (if r == p then 1 else 0) == q2 + (if p < r2 then 1 else 0)
  {
  }

  /** Player p holds k/n cards, one more when p < k mod n. */
  lemma {:induction false} HandSize(deck: seq<int>, n: nat, p: nat, k: nat)
    requires n > 0 && p < n && k <= |deck|
    ensures |Hand(deck, n, p, k)| == k / n + (if p < k % n then 1 else 0)
  {
    if k > 0 {
      HandSize(deck, n, p, k - 1);
      DivStep(k, n);
      SizeStep(n, p, (k - 1) / n, (k - 1) % n, k / n, k % n);
    }
  }

  /** Hand sizes differ by at most one, and none exceeds the `deck_len / num_players + 1` slots
      allocated for it. */
  lemma {:induction false} HandsBalanced(deck: seq<int>, n: nat, p: nat, p': nat)
    requires n > 0 && p < n && p' < n
    ensures var (a, b) := (|Hand(deck, n, p, |deck|)|, |Hand(deck, n, p', |deck|)|);
      -1 <= a - b <= 1 && a <= |deck| / n + 1
  {
    HandSize(deck, n, p, |deck|);
    HandSize(deck, n, p', |deck|);
  }

  /** The j-th card of player p's hand is deck card j*n + p. */
  lemma {:induction false} HandAt(deck: seq<int>, n: nat, p: nat, k: nat, j: nat)
    requires n > 0 && p < n && k <= |deck| && j < |Hand(deck, n, p, k)|
    ensures j * n + p < k && Hand(deck, n, p, k)[j] == deck[j * n + p]
  {
    var h := Hand(deck, n, p, k - 1);
    HandSize(deck, n, p, k - 1);
    if j < |h| {
      HandAt(deck, n, p, k - 1, j);
    } else {
      var q, r := (k - 1) / n, (k - 1) % n;
      assert k - 1 == q * n + r;
      assert r == p && j == q;
    }
  }

  /** All the cards the hands hold, counted with multiplicity. */
  function Pooled(hands: seq<seq<int>>): multiset<int>
  {
    if hands == [] then multiset{} else Pooled(hands[..|hands| - 1]) + multiset(hands[|hands| - 1])
  }

  /** The number of cards the hands hold. */
  function TotalSize(hands: seq<seq<int>>): nat
  {
    if hands == [] then 0 else TotalSize(hands[..|hands| - 1]) + |hands[|hands| - 1]|
  }

  lemma {:induction false} PooledSize(hands: seq<seq<int>>)
    ensures |Pooled(hands)| == TotalSize(hands)
  {
    if hands != [] {
      PooledSize(hands[..|hands| - 1]);
    }
  }

  /** Appending a card to one hand adds it to the pool. */
  lemma {:induction false} PooledAdd(hands: seq<seq<int>>, p: nat, x: int)
    requires p < |hands|
    ensures Pooled(hands[p := hands[p] + [x]]) == Pooled(hands) + multiset{x}
  {
    var m := |hands| - 1;
    var h' := hands[p := hands[p] + [x]];
    PooledLast(h');
    PooledLast(hands);
    if p == m {
      assert h'[..m] == hands[..m];
      assert h'[m] == hands[m] + [x];
      SnocMultiset(hands[m], x);
    } else {
      assert h'[..m] == hands[..m][p := hands[p] + [x]];
      PooledAdd(hands[..m], p, x);
      assert h'[m] == hands[m];
    }
  }

  lemma {:induction false} PooledLast(hs: seq<seq<int>>)
    requires hs != []
    ensures Pooled(hs) == Pooled(hs[..|hs| - 1]) + multiset(hs[|hs| - 1])
  {
  }

  lemma {:induction false} SnocMultiset(b: seq<int>, x: int)
    ensures multiset(b + [x]) == multiset(b) + multiset{x}
  {
  }

  /** Dealing card k goes to hand k mod n. */
  lemma {:induction false} DealtNext(deck: seq<int>, n: nat, k: nat)
    requires n > 0 && k < |deck|
    ensures var d := Dealt(deck, n, k);
      Dealt(deck, n, k + 1) == d[k % n := d[k % n] + [deck[k]]]
  {
    var d := Dealt(deck, n, k);
    var d' := d[k % n := d[k % n] + [deck[k]]];
    forall p | 0 <= p < n
      ensures Dealt(deck, n, k + 1)[p] == d'[p]
    {
      if p != k % n {
        assert Hand(deck, n, p, k + 1) == Hand(deck, n, p, k) + [];
      }
    }
  }

  /** Between them the hands hold the first k cards of the deck, each as often as it occurs there. */
  lemma {:induction false} DealtPooled(deck: seq<int>, n: nat, k: nat)
    requires n > 0 && k <= |deck|
    ensures Pooled(Dealt(deck, n, k)) == multiset(deck[..k])
    ensures TotalSize(Dealt(deck, n, k)) == k
  {
    if k == 0 {
      assert Dealt(deck, n, 0) == EmptyHands(n);
      PooledEmpty(n);
    } else {
      var d, q, x := Dealt(deck, n, k - 1), (k - 1) % n, deck[k - 1];
      assert deck[..k] == deck[..k - 1] + [x];
      DealtPooled(deck, n, k - 1);
      DealtNext(deck, n, k - 1);
      assert Dealt(deck, n, k) == d[q := d[q] + [x]];
      PooledAdd(d, q, x);
    }
    PooledSize(Dealt(deck, n, k));
  }

  /** The hands before the deal. */
  function EmptyHands(n: nat): seq<seq<int>>
  {
    seq(n, p => [])
  }

  lemma {:induction false} PooledEmpty(n: nat)
    ensures Pooled(EmptyHands(n)) == multiset{}
  {
    if n > 0 {
      assert EmptyHands(n)[..n - 1] == EmptyHands(n - 1);
      PooledEmpty(n - 1);
    }
  }

  /** The deal loop: `hand[hand_size++] = deck[i]` for the player at `deal_idx`, which cycles
      through 0 .. n-1. `hand_size` starts at 0. */
  method Deal(deck: seq<int>, n: nat) returns (hands: seq<seq<int>>)
    requires n > 0
    ensures hands == Dealt(deck, n, |deck|)
  {
    hands := EmptyHands(n);
    assert hands == Dealt(deck, n, 0);
    var dealIdx := 0;
    for i := 0 to |deck|
      invariant dealIdx == i % n
      invariant hands == Dealt(deck, n, i)
    {
      HandSize(deck, n, dealIdx, i);
      DivMono(i, |deck|, n);
      assert |hands[dealIdx]| < |deck| / n + 1;
      DealtNext(deck, n, i);
      hands := hands[dealIdx := hands[dealIdx] + [deck[i]]];
      ModNext(i, n);
      dealIdx := dealIdx + 1;
      dealIdx := dealIdx % n;
    }
  }

  // ---------------------------------------------------------------------------------------
  // `start_game` as a whole.

  /** The deck after `shuffle(deck, deck_len, ...)`. The random stream supplies the C solution
      draws first, then one draw per deck card, then one per player. */
  function ShuffledDeck(counts: seq<int>, draws: seq<nat>): (deck: seq<int>)
    requires Positive(counts) && |draws| >= Total(counts)
    ensures |deck| == Total(counts) - |counts|
  {
    var c := |counts|;
    DeckExactlyOnce(counts, draws, 0);
    var deck := DeckOf(counts, Solution(counts, draws), c);
    Shuffled(deck, draws[c..], |deck|)
  }

  /** The seats after `shuffle(players, num_players, ...)`. */
  function Seats(counts: seq<int>, roster: seq<Player>, draws: seq<nat>): (seats: seq<Player>)
    requires Positive(counts) && |draws| >= Total(counts) + |roster|
    ensures |seats| == |roster|
  {
    Shuffled(roster, draws[Total(counts)..], |roster|)
  }

  /** Each hand sorted (the `qsort` before its Start frame is built). */
  function SortAll(hands: seq<seq<int>>): (r: seq<seq<int>>)
    ensures |r| == |hands| && forall i :: 0 <= i < |hands| ==> r[i] == Sort(hands[i])
  {
    seq(|hands|, i requires 0 <= i < |hands| => Sort(hands[i]))
  }

  /** The seats' hands once the shuffled deck is dealt and each hand sorted. */
  function Hands(counts: seq<int>, n: nat, draws: seq<nat>): (hands: seq<seq<int>>)
    requires Positive(counts) && |draws| >= Total(counts) && n > 0
    ensures |hands| == n
  {
    var deck := ShuffledDeck(counts, draws);
    SortAll(Dealt(deck, n, |deck|))
  }

  function Ids(seats: seq<Player>): (ids: seq<int>)
    ensures |ids| == |seats| && forall i :: 0 <= i < |seats| ==> ids[i] == seats[i].id
  {
    seq(|seats|, i requires 0 <= i < |seats| => seats[i].id)
  }

  function PlayerNames(seats: seq<Player>): (names: seq<seq<byte>>)
    ensures |names| == |seats| && forall i :: 0 <= i < |seats| ==> names[i] == seats[i].name
  {
    seq(|seats|, i requires 0 <= i < |seats| => seats[i].name)
  }

  function Sizes(hands: seq<seq<int>>): (sizes: seq<int>)
    ensures |sizes| == |hands| && forall i :: 0 <= i < |hands| ==> sizes[i] == |hands[i]|
  {
    seq(|hands|, i requires 0 <= i < |hands| => |hands[i]|)
  }

  /** What the game starts with: the catalog's counts, the solution, and the seats with their
      sorted hands. */
  datatype Table = Table(counts: seq<int>, solution: seq<int>, seats: seq<Player>, hands: seq<seq<int>>)

  /** The sends of the Start loop from seat i on: each seat the Start frame with its own hand and
      the shared player order, hand sizes and names, until a send that fails makes `abort_game`
      tell everyone "Player disconnected". */
  function StartSends(hands: seq<seq<int>>, ids: seq<int>, sizes: seq<int>, names: seq<seq<byte>>,
                      delivered: seq<bool>, i: nat): seq<Message>
    requires |hands| == |delivered| && i <= |hands|
    decreases |hands| - i
  {
    if i == |hands| then []
    else if !delivered[i] then AbortAll(|hands|, "Player disconnected")
    else
      var m := Message(i, StartFrame(StartPayload(hands[i], ids, sizes, names)));
      [m] + StartSends(hands, ids, sizes, names, delivered, i + 1)
  }

  /** The Start frames to seats 0 .. k-1. */
  function StartsUpTo(hands: seq<seq<int>>, ids: seq<int>, sizes: seq<int>, names: seq<seq<byte>>, k: nat): seq<Message>
    requires k <= |hands|
  {
    if k == 0 then []
    else StartsUpTo(hands, ids, sizes, names, k - 1) + [Message(k - 1, StartFrame(StartPayload(hands[k - 1], ids, sizes, names)))]
  }

  /** While every send so far succeeded, the sends are the Start frames so far followed by the
      rest. */
  lemma {:induction false} StartSendsSplit(hands: seq<seq<int>>, ids: seq<int>, sizes: seq<int>, names: seq<seq<byte>>,
                                           delivered: seq<bool>, i: nat)
    requires |hands| == |delivered| && i <= |hands|
    requires forall j :: 0 <= j < i ==> delivered[j]
    ensures StartSends(hands, ids, sizes, names, delivered, 0)
      == StartsUpTo(hands, ids, sizes, names, i) + StartSends(hands, ids, sizes, names, delivered, i)
  {
    if i > 0 {
      StartSendsSplit(hands, ids, sizes, names, delivered, i - 1);
      var m := Message(i - 1, StartFrame(StartPayload(hands[i - 1], ids, sizes, names)));
      var pre := StartsUpTo(hands, ids, sizes, names, i - 1);
      var post := StartSends(hands, ids, sizes, names, delivered, i);
      assert StartSends(hands, ids, sizes, names, delivered, i - 1) == [m] + post;
      assert pre + ([m] + post) == (pre + [m]) + post;
    }
  }

  /** Sorting keeps each hand's size. */
  lemma {:induction false} SortAllSizes(hands: seq<seq<int>>)
    ensures Sizes(SortAll(hands)) == Sizes(hands)
  {
  }

  /** The players' name lengths added up, as `total_player_name_length` is. */
  method TotalNameLength(seats: array<Player>) returns (total: nat)
    ensures total == NamesLength(PlayerNames(seats[..]))
  {
    total := 0;
    for i := 0 to seats.Length
      invariant total == NamesLength(PlayerNames(seats[..i]))
    {
      assert PlayerNames(seats[..i + 1]) == PlayerNames(seats[..i]) + [seats[i].name];
      NameEntriesSnoc(PlayerNames(seats[..i]), seats[i].name);
      total := total + |seats[i].name|;
    }
    assert seats[..seats.Length] == seats[..];
  }

  /** The first half of `start_game`: draw the solution and build the deck, shuffle the deck and
      the seats in place, add up the name lengths, and deal. */
  method DealTable(counts: seq<int>, roster: seq<Player>, draws: seq<nat>)
    returns (solution: seq<int>, seats: seq<Player>, dealt: seq<seq<int>>, totalNameLength: nat)
    requires Positive(counts) && |roster| > 0 && |draws| >= Total(counts) + |roster|
    ensures solution == Solution(counts, draws) && seats == Seats(counts, roster, draws)
    ensures var deck := ShuffledDeck(counts, draws); dealt == Dealt(deck, |roster|, |deck|)
    ensures totalNameLength == NamesLength(PlayerNames(seats))
  {
    var deck;
    solution, deck := ShuffleDeck(counts, draws);
    seats, totalNameLength := ShuffleSeats(counts, roster, draws);
    dealt := Deal(deck, |roster|);
  }

  /** The solution drawn, and the rest of the deck shuffled in place. */
  method ShuffleDeck(counts: seq<int>, draws: seq<nat>) returns (solution: seq<int>, deck: seq<int>)
    requires Positive(counts) && |draws| >= Total(counts)
    ensures solution == Solution(counts, draws) && deck == ShuffledDeck(counts, draws)
  {
    var deckSeq;
    solution, deckSeq := BuildDeck(counts, draws);
    DeckExactlyOnce(counts, draws, 0);
    var deckLen := |deckSeq|;
    var a := new int[deckLen](i requires 0 <= i < deckLen => deckSeq[i]);
    assert a[..] == deckSeq;
    Shuffle(a, draws[|counts|..]);
    deck := a[..];
  }

  /** The roster shuffled into the seating order with the draws after the deck's, and the players'
      name lengths added up. */
  method ShuffleSeats(counts: seq<int>, roster: seq<Player>, draws: seq<nat>)
    returns (seats: seq<Player>, totalNameLength: nat)
    requires Positive(counts) && |draws| >= Total(counts) + |roster|
    ensures seats == Seats(counts, roster, draws)
    ensures totalNameLength == NamesLength(PlayerNames(seats))
  {
    var n := |roster|;
    var players := new Player[n](i requires 0 <= i < n => roster[i]);
    assert players[..] == roster;
    Shuffle(players, draws[Total(counts)..]);
    totalNameLength := TotalNameLength(players);
    seats := players[..];
  }

  /** The hands sorted one after the other (`qsort` on each player's hand). */
  method SortHands(dealt: seq<seq<int>>) returns (hands: seq<seq<int>>)
    ensures hands == SortAll(dealt)
  {
    hands := [];
    ghost var sorted := SortAll(dealt);
    for i := 0 to |dealt|
      invariant hands == sorted[..i]
    {
      var hand := Sort(dealt[i]);
      PrefixNext(sorted, i);
      hands := hands + [hand];
    }
    assert sorted[..|dealt|] == sorted;
  }

  lemma {:induction false} PrefixNext<T>(s: seq<T>, i: nat)
    requires i < |s|
    ensures s[..i + 1] == s[..i] + [s[i]]
  {
  }

  /** What the Start loop holds after the first i players: all of them connected, and their Start
      frames sent in seat order. */
  predicate Sending(hands: seq<seq<int>>, ids: seq<int>, sizes: seq<int>, names: seq<seq<byte>>,
                    delivered: seq<bool>, i: nat, sent: seq<Message>)
  {
    i <= |hands| && i <= |delivered|
    && (forall j :: 0 <= j < i ==> delivered[j])
    && sent == StartsUpTo(hands, ids, sizes, names, i)
  }

  /** The Start loop stops at the first disconnected player, and everyone is sent the abort. */
  lemma {:induction false} SendingAbort(hands: seq<seq<int>>, ids: seq<int>, sizes: seq<int>, names: seq<seq<byte>>,
                     delivered: seq<bool>, i: nat, sent: seq<Message>)
    requires Sending(hands, ids, sizes, names, delivered, i, sent)
    requires |hands| == |delivered| && i < |hands| && !delivered[i]
    ensures sent + AbortAll(|hands|, "Player disconnected") == StartSends(hands, ids, sizes, names, delivered, 0)
  {
    StartSendsSplit(hands, ids, sizes, names, delivered, i);
  }

  /** After the last player, every Start frame has been sent. */
  lemma {:induction false} SendingDone(hands: seq<seq<int>>, ids: seq<int>, sizes: seq<int>, names: seq<seq<byte>>,
                    delivered: seq<bool>, sent: seq<Message>)
    requires |hands| == |delivered| && Sending(hands, ids, sizes, names, delivered, |hands|, sent)
    ensures sent == StartSends(hands, ids, sizes, names, delivered, 0)
    ensures forall j :: 0 <= j < |delivered| ==> delivered[j]
  {
    StartSendsSplit(hands, ids, sizes, names, delivered, |hands|);
  }

  /** One round of the Start loop for a connected player. */
  lemma {:induction false} SendingNext(hands: seq<seq<int>>, ids: seq<int>, sizes: seq<int>, names: seq<seq<byte>>,
                    delivered: seq<bool>, i: nat, sent: seq<Message>, payload: seq<byte>)
    requires Sending(hands, ids, sizes, names, delivered, i, sent)
    requires i < |hands| && i < |delivered| && delivered[i]
    requires payload == StartPayload(hands[i], ids, sizes, names)
    ensures Sending(hands, ids, sizes, names, delivered, i + 1, sent + [Message(i, StartFrame(payload))])
  {
  }

  /** The Start loop of `start_game`: each player in seat order is sent its Start payload; the first
      send that fails aborts the game for everyone. */
  method SendStarts(hands: seq<seq<int>>, ids: seq<int>, sizes: seq<int>, names: seq<seq<byte>>,
                    delivered: seq<bool>, totalNameLength: nat)
    returns (sent: seq<Message>, started: bool)
    requires |hands| == |ids| == |sizes| == |names| == |delivered| && totalNameLength == NamesLength(names)
    ensures sent == StartSends(hands, ids, sizes, names, delivered, 0)
    ensures started <==> forall i :: 0 <= i < |delivered| ==> delivered[i]
  {
    var n := |hands|;
    sent := [];
    var i := 0;
    while i < n
      invariant Sending(hands, ids, sizes, names, delivered, i, sent)
    {
      var payload := BuildStart(hands[i], ids, sizes, names, totalNameLength);
      if !delivered[i] {
        SendingAbort(hands, ids, sizes, names, delivered, i, sent);
        sent := sent + AbortAll(n, "Player disconnected");
        return sent, false;
      }
      SendingNext(hands, ids, sizes, names, delivered, i, sent, payload);
      sent := sent + [Message(i, StartFrame(payload))];
      i := i + 1;
    }
    SendingDone(hands, ids, sizes, names, delivered, sent);
    return sent, true;
  }

  /** How `start_game` ends: a failed assert, the abort after a failed send, or the game begun. */
  datatype Launch = Crashed | Aborted | Started(table: Table)

  /** `start_game`. It crashes on its asserts when there is no category or no card beyond the
      solution, and otherwise the table is returned when every Start frame was sent. */
  method StartGame(counts: seq<int>, roster: seq<Player>, draws: seq<nat>, delivered: seq<bool>)
    returns (sent: seq<Message>, launch: Launch)
    requires Positive(counts)
    requires |roster| > 0 && |delivered| == |roster| && |draws| >= Total(counts) + |roster|
    ensures launch.Crashed? <==> !Dealable(counts)
    ensures launch.Crashed? ==> sent == []
    ensures var (seats, hands) := (Seats(counts, roster, draws), Hands(counts, |roster|, draws));
      Dealable(counts) ==>
      sent == StartSends(hands, Ids(seats), Sizes(hands), PlayerNames(seats), delivered, 0)
      && (launch.Started? <==> forall i :: 0 <= i < |delivered| ==> delivered[i])
      && (launch.Started? ==> launch.table == Table(counts, Solution(counts, draws), seats, hands))
  {
    if |counts| <= 0 || Total(counts) - |counts| <= 0 {
      return [], Crashed;
    }
    var solution, seats, dealt, totalNameLength := DealTable(counts, roster, draws);
    var hands := SortHands(dealt);
    SortAllSizes(dealt);
    var started;
    sent, started := SendStarts(hands, Ids(seats), Sizes(dealt), PlayerNames(seats), delivered, totalNameLength);
    launch := if started then Started(Table(counts, solution, seats, hands)) else Aborted;
  }

  // ---------------------------------------------------------------------------------------
  // What the deal guarantees.

  /** Sorting each hand keeps the cards the hands hold. */
  lemma {:induction false} PooledSortAll(hands: seq<seq<int>>)
    ensures Pooled(SortAll(hands)) == Pooled(hands)
  {
    if hands != [] {
      var m := |hands| - 1;
      assert SortAll(hands)[..m] == SortAll(hands[..m]);
      PooledSortAll(hands[..m]);
    }
  }

  /** Shuffling keeps the deck's cards. */
  lemma {:induction false} ShuffledDeckPermutation(counts: seq<int>, draws: seq<nat>)
    requires Positive(counts) && |draws| >= Total(counts)
    ensures multiset(ShuffledDeck(counts, draws)) == multiset(DeckOf(counts, Solution(counts, draws), |counts|))
  {
    var c := |counts|;
    var deck0 := DeckOf(counts, Solution(counts, draws), c);
    DeckExactlyOnce(counts, draws, 0);
    ShuffledPermutation(deck0, draws[c..], |deck0|);
  }

  /** Dealing and sorting keep the cards too. */
  lemma {:induction false} HandsPool(counts: seq<int>, n: nat, draws: seq<nat>)
    requires Positive(counts) && |draws| >= Total(counts) && n > 0
    ensures Pooled(Hands(counts, n, draws)) == multiset(ShuffledDeck(counts, draws))
  {
    var deck := ShuffledDeck(counts, draws);
    PooledSortAll(Dealt(deck, n, |deck|));
    DealtPooled(deck, n, |deck|);
    assert deck[..|deck|] == deck;
  }

  /** The deck and the solution split the card ids between them. */
  lemma {:induction false} DeckAndSolution(counts: seq<int>, draws: seq<nat>)
    requires Positive(counts) && |draws| >= |counts|
    ensures multiset(DeckOf(counts, Solution(counts, draws), |counts|)) + multiset(Solution(counts, draws))
      == multiset(Span(0, Total(counts)))
  {
    var sol := Solution(counts, draws);
    SolutionOnePerCategory(counts, draws);
    DeckPartition(counts, sol, |counts|);
    assert sol[..|counts|] == sol;
  }

  /** Every card is either in the solution or in exactly one player's hand, once: the hands and
      the solution together hold each of the Total card ids exactly once. */
  lemma {:induction false} DealCovers(counts: seq<int>, n: nat, draws: seq<nat>)
    requires Positive(counts) && |draws| >= Total(counts) && n > 0
    ensures Pooled(Hands(counts, n, draws)) + multiset(Solution(counts, draws)) == multiset(Span(0, Total(counts)))
  {
    HandsPool(counts, n, draws);
    ShuffledDeckPermutation(counts, draws);
    DeckAndSolution(counts, draws);
  }

  /** Every hand is sorted, and hand sizes differ by at most one. */
  lemma {:induction false} DealBalanced(counts: seq<int>, n: nat, draws: seq<nat>, p: nat, q: nat)
    requires Positive(counts) && |draws| >= Total(counts) && n > 0 && p < n && q < n
    ensures var hands := Hands(counts, n, draws);
      Sorted(hands[p]) && -1 <= |hands[p]| - |hands[q]| <= 1
  {
    var deck := ShuffledDeck(counts, draws);
    var d := Dealt(deck, n, |deck|);
    assert d[p] == Hand(deck, n, p, |deck|) && d[q] == Hand(deck, n, q, |deck|);
    HandsBalanced(deck, n, p, q);
  }

  /** The seating order is a rearrangement of the roster. */
  lemma {:induction false} SeatsPermutation(counts: seq<int>, roster: seq<Player>, draws: seq<nat>)
    requires Positive(counts) && |draws| >= Total(counts) + |roster|
    ensures multiset(Seats(counts, roster, draws)) == multiset(roster)
  {
    ShuffledPermutation(roster, draws[Total(counts)..], |roster|);
  }
}
