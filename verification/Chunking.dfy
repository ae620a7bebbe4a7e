/** Cutting messages into prompt-sized chunks (agents/wa_agent/assign.py). */
module Chunking {

  function Total<T>(ms: seq<T>, cost: T -> nat): nat {
    if ms == [] then 0 else Total(ms[..|ms| - 1], cost) + cost(ms[|ms| - 1])
  }

  /** A chunk one call may carry: one message, however large, or several
      within both limits. */
  predicate Fits<T>(chunk: seq<T>, cost: T -> nat, budget: int, most: int) {
    chunk != [] && (|chunk| == 1 || (Total(chunk, cost) <= budget && |chunk| <= most))
  }

  function Concat<T>(chunks: seq<seq<T>>): seq<T> {
    if chunks == [] then [] else chunks[0] + Concat(chunks[1..])
  }

  /** A way of cutting `ms` into consecutive chunks that fit. */
  predicate IsSplit<T(==)>(chunks: seq<seq<T>>, ms: seq<T>, cost: T -> nat, budget: int, most: int) {
    Concat(chunks) == ms && forall c | c in chunks :: Fits(c, cost, budget, most)
  }

  // ---------------------------------------------------------------------
  // Where a greedy chunk ends, and what the greedy cut costs
  // ---------------------------------------------------------------------

  /** End of the chunk that starts at `s` and already reaches `i`. */
  function End<T>(ms: seq<T>, cost: T -> nat, budget: int, most: int, s: nat, i: nat): (e: nat)
    requires s <= i <= |ms|
    ensures i <= e <= |ms| && (s < |ms| && s == i ==> s < e)
    decreases |ms| - i
  {
    if i == |ms| || (s < i && (Total(ms[s..i], cost) + cost(ms[i]) > budget || i - s >= most)) then i
    else End(ms, cost, budget, most, s, i + 1)
  }

  function Greedy<T>(ms: seq<T>, cost: T -> nat, budget: int, most: int, s: nat): seq<seq<T>>
    requires s <= |ms|
    decreases |ms| - s
  {
    if s == |ms| then [] else
      var e := End(ms, cost, budget, most, s, s);
      [ms[s..e]] + Greedy(ms, cost, budget, most, e)
  }

  lemma {:induction false} TotalSlice<T>(ms: seq<T>, cost: T -> nat, s: nat, j: nat, k: nat)
    requires s <= j <= k <= |ms|
    ensures Total(ms[j..k], cost) <= Total(ms[s..k], cost)
    decreases k
  {
    if j < k {
      TotalSlice(ms, cost, s, j, k - 1);
      TotalStep(ms, cost, s, k - 1);
      TotalStep(ms, cost, j, k - 1);
    }
  }

  lemma TotalStep<T>(ms: seq<T>, cost: T -> nat, s: nat, i: nat)
    requires s <= i < |ms|
    ensures Total(ms[s..i + 1], cost) == Total(ms[s..i], cost) + cost(ms[i])
  {
    var t := ms[s..i + 1];
    assert t[..|t| - 1] == ms[s..i];
  }

  lemma {:induction false} TotalPrefix<T>(ms: seq<T>, cost: T -> nat, s: nat, i: nat, k: nat)
    requires s <= i <= k <= |ms|
    ensures Total(ms[s..i], cost) <= Total(ms[s..k], cost)
    decreases k
  {
    if i < k {
      TotalPrefix(ms, cost, s, i, k - 1);
      TotalStep(ms, cost, s, k - 1);
    }
  }

  /** A greedy chunk reaches at least as far as any chunk that fits. */
  lemma {:induction false} EndReaches<T>(ms: seq<T>, cost: T -> nat, budget: int, most: int, s: nat, i: nat, k: nat)
    requires s <= i <= k <= |ms| && (s < k ==> Fits(ms[s..k], cost, budget, most))
    ensures End(ms, cost, budget, most, s, i) >= k
    decreases k - i
  {
    if i < k {
      TotalStep(ms, cost, s, i);
      TotalPrefix(ms, cost, s, i + 1, k);
      EndReaches(ms, cost, budget, most, s, i + 1, k);
    }
  }

  lemma {:induction false} EndFits<T>(ms: seq<T>, cost: T -> nat, budget: int, most: int, s: nat, i: nat)
    requires s <= i <= |ms| && s < |ms| && (s < i ==> Fits(ms[s..i], cost, budget, most))
    ensures var e := End(ms, cost, budget, most, s, i); Fits(ms[s..e], cost, budget, most)
    decreases |ms| - i
  {
    if i < |ms| && !(s < i && (Total(ms[s..i], cost) + cost(ms[i]) > budget || i - s >= most)) {
      TotalStep(ms, cost, s, i);
      EndFits(ms, cost, budget, most, s, i + 1);
    }
  }

  lemma {:induction false} GreedyIsSplit<T>(ms: seq<T>, cost: T -> nat, budget: int, most: int, s: nat)
    requires s <= |ms|
    ensures IsSplit(Greedy(ms, cost, budget, most, s), ms[s..], cost, budget, most)
    decreases |ms| - s
  {
    if s < |ms| {
      var e := End(ms, cost, budget, most, s, s);
      EndFits(ms, cost, budget, most, s, s);
      GreedyIsSplit(ms, cost, budget, most, e);
      assert ms[s..] == ms[s..e] + ms[e..];
    }
  }

  /** Any part of a chunk that fits, fits. */
  lemma PartFits<T>(ms: seq<T>, cost: T -> nat, budget: int, most: int, s: nat, j: nat, k: nat)
    requires s <= j < k <= |ms| && Fits(ms[s..k], cost, budget, most)
    ensures Fits(ms[j..k], cost, budget, most)
  {
    TotalSlice(ms, cost, s, j, k);
  }

  /** Started no earlier, the greedy cut needs no more chunks. */
  lemma {:induction false} GreedyAhead<T>(ms: seq<T>, cost: T -> nat, budget: int, most: int,
      s: nat, other: seq<seq<T>>, j: nat)
    requires s <= j <= |ms| && IsSplit(other, ms[s..], cost, budget, most)
    ensures |Greedy(ms, cost, budget, most, j)| <= |other|
    decreases |other|
  {
    if j < |ms| {
      assert other != [];
      var first, rest := other[0], other[1..];
      assert first in other && Fits(first, cost, budget, most);
      var k := s + |first|;
      assert ms[s..] == first + Concat(rest);
      assert ms[s..k] == first && ms[k..] == Concat(rest);
      assert forall c | c in rest :: c in other;
      if k <= j {
        GreedyAhead(ms, cost, budget, most, k, rest, j);
      } else {
        PartFits(ms, cost, budget, most, s, j, k);
        EndReaches(ms, cost, budget, most, j, j, k);
        GreedyAhead(ms, cost, budget, most, k, rest, End(ms, cost, budget, most, j, j));
      }
    }
  }

  /** At the limit the chunk is closed; short of it, it goes on. */
  lemma ChunkCloses<T>(ms: seq<T>, cost: T -> nat, budget: int, most: int, s: nat, i: nat)
    requires s < i <= |ms| && End(ms, cost, budget, most, s, i) == End(ms, cost, budget, most, s, s)
    requires i == |ms| || Total(ms[s..i], cost) + cost(ms[i]) > budget || i - s >= most
    ensures Greedy(ms, cost, budget, most, s) == [ms[s..i]] + Greedy(ms, cost, budget, most, i)
  {}

  lemma ChunkGoesOn<T>(ms: seq<T>, cost: T -> nat, budget: int, most: int, s: nat, i: nat)
    requires s <= i < |ms| && !(s < i && (Total(ms[s..i], cost) + cost(ms[i]) > budget || i - s >= most))
    ensures End(ms, cost, budget, most, s, i + 1) == End(ms, cost, budget, most, s, i)
    ensures Total(ms[s..i + 1], cost) == Total(ms[s..i], cost) + cost(ms[i]) && ms[s..i + 1] == ms[s..i] + [ms[i]]
  {
    TotalStep(ms, cost, s, i);
  }

  lemma NoMore<T>(ms: seq<T>, cost: T -> nat, budget: int, most: int)
    ensures Greedy(ms, cost, budget, most, |ms|) == [] && Total([], cost) == 0
  {}

  /** Where a chunk ends before the last message, one more would not fit. */
  lemma {:induction false} EndIsFull<T>(ms: seq<T>, cost: T -> nat, budget: int, most: int, s: nat, i: nat)
    requires s <= i <= |ms| && s < |ms|
    ensures var e := End(ms, cost, budget, most, s, i); e < |ms| ==> !Fits(ms[s..e + 1], cost, budget, most)
    decreases |ms| - i
  {
    if i < |ms| {
      TotalStep(ms, cost, s, i);
      if !(s < i && (Total(ms[s..i], cost) + cost(ms[i]) > budget || i - s >= most)) {
        EndIsFull(ms, cost, budget, most, s, i + 1);
      }
    }
  }

  /** The chunk could not have taken the first message of the next. */
  predicate Full<T>(chunk: seq<T>, next: seq<T>, cost: T -> nat, budget: int, most: int) {
    next != [] && !Fits(chunk + [next[0]], cost, budget, most)
  }

  predicate AllFull<T>(chunks: seq<seq<T>>, cost: T -> nat, budget: int, most: int) {
    forall i, j | 0 <= i < |chunks| && j == i + 1 < |chunks| :: Full(chunks[i], chunks[j], cost, budget, most)
  }

  lemma {:induction false} GreedyIsFull<T>(ms: seq<T>, cost: T -> nat, budget: int, most: int, s: nat)
    requires s <= |ms|
    ensures AllFull(Greedy(ms, cost, budget, most, s), cost, budget, most)
    ensures s < |ms| ==> var g := Greedy(ms, cost, budget, most, s); g != [] && g[0] != [] && g[0][0] == ms[s]
    decreases |ms| - s
  {
    hide Fits;
    if s < |ms| {
      var e := End(ms, cost, budget, most, s, s);
      EndIsFull(ms, cost, budget, most, s, s);
      GreedyIsFull(ms, cost, budget, most, e);
      var rest := Greedy(ms, cost, budget, most, e);
      assert Greedy(ms, cost, budget, most, s) == [ms[s..e]] + rest;
      hide End, Greedy;
      if e < |ms| { assert ms[s..e] + [rest[0][0]] == ms[s..e + 1]; }
      FullCons(ms[s..e], rest, cost, budget, most);
    }
  }

  lemma FullCons<T>(first: seq<T>, rest: seq<seq<T>>, cost: T -> nat, budget: int, most: int)
    requires AllFull(rest, cost, budget, most) && (rest != [] ==> Full(first, rest[0], cost, budget, most))
    ensures AllFull([first] + rest, cost, budget, most)
  {
    hide Full;
    var all := [first] + rest;
    forall i, j | 0 <= i < |all| && j == i + 1 < |all| ensures Full(all[i], all[j], cost, budget, most) {
      if i > 0 { assert Full(rest[i - 1], rest[j - 1], cost, budget, most); }
    }
  }

  /** `chunk_messages`: nothing lost or reordered, every chunk fits and takes all it
      can, and no other cut into chunks that fit has fewer. */
  method ChunkMessages<T(==)>(ms: seq<T>, cost: T -> nat, budget: int, most: int) returns (chunks: seq<seq<T>>)
    ensures IsSplit(chunks, ms, cost, budget, most) && AllFull(chunks, cost, budget, most)
    ensures forall other | IsSplit(other, ms, cost, budget, most) :: |chunks| <= |other|
  {
    hide End, Greedy, Total;
    chunks := [];
    var current: seq<T>, used := [], 0;
    ghost var s := 0;
    NoMore(ms, cost, budget, most);
    for i := 0 to |ms|
      invariant 0 <= s <= i && current == ms[s..i] && used == Total(current, cost) && (i > 0 ==> s < i)
      invariant End(ms, cost, budget, most, s, i) == End(ms, cost, budget, most, s, s)
      invariant chunks + Greedy(ms, cost, budget, most, s) == Greedy(ms, cost, budget, most, 0)
    {
      var m := ms[i];
      if current != [] && (used + cost(m) > budget || |current| >= most) {
        ChunkCloses(ms, cost, budget, most, s, i);
        chunks := chunks + [current];
        current, used := [], 0;
        s := i;
      }
      ChunkGoesOn(ms, cost, budget, most, s, i);
      current := current + [m];
      used := used + cost(m);
    }
    if current != [] {
      ChunkCloses(ms, cost, budget, most, s, |ms|);
      chunks := chunks + [current];
    }
    assert chunks == Greedy(ms, cost, budget, most, 0);
    GreedyIsSplit(ms, cost, budget, most, 0);
    GreedyIsFull(ms, cost, budget, most, 0);
    assert ms[0..] == ms;
    forall other | IsSplit(other, ms, cost, budget, most) ensures |chunks| <= |other| {
      GreedyAhead(ms, cost, budget, most, 0, other, 0);
    }
  }
}
