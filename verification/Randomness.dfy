/**
 Random draws of the SDK (coinSelection.ts). A draw is one 32-bit word divided by 0xffffffff,
 scaled by k and floored. Every theorem quantifies over all draws, so randomness is treated as an
 adversary's choice.
*/
module Randomness {
  import opened Arithmetic
  import opened Seqs

  const MAX_WORD: nat := 0xffff_ffff

  /** Any 32-bit word. */
  type Word = w: nat | w <= MAX_WORD witness 0

  /** A 32-bit word other than the largest one: the draws for which the fraction is below 1. */
  type Draw = w: nat | w < MAX_WORD witness 0

  /**
   `Math.floor(randomFloat() * k)` for the word w. The comment in the source promises a fraction in
   [0, 1); the division by 0xffffffff keeps that promise exactly for the words other than the
   largest, for which the result is k itself.
  */
  function Pick(w: nat, k: nat): (r: nat)
    requires w <= MAX_WORD
    ensures r <= k
    ensures k > 0 ==> (r < k <==> w < MAX_WORD)
  {
    PickBounds(w, k);
    w * k / MAX_WORD
  }

  lemma PickBounds(w: nat, k: nat)
    requires w <= MAX_WORD
    ensures w * k / MAX_WORD <= k
    ensures k > 0 ==> (w * k / MAX_WORD < k <==> w < MAX_WORD)
  {
    if w == MAX_WORD {
      assert w * k == k * MAX_WORD;
    } else if k > 0 {
      assert w * k < MAX_WORD * k by { MulLess(w, MAX_WORD, k); }
      assert w * k / MAX_WORD < k;
    }
  }

  /** Each value of the intended range is produced by some draw, so no value is excluded. */
  lemma EveryValueIsDrawn(j: nat, k: nat) returns (w: Draw)
    requires j < k <= MAX_WORD
    ensures Pick(w, k) == j
  {
    var num := j * MAX_WORD;
    var q := (num + k - 1) / k;
    CeilBounds(num, k, q);
    MulLe(j + 1, k, MAX_WORD);
    MulCancel(q, MAX_WORD, k);
    w := q;
    assert j * MAX_WORD <= w * k < (j + 1) * MAX_WORD;
  }

  /** The in-place Fisher-Yates pass from index i down to 1, as a function of the contents. */
  function Shuffled<T>(s: seq<T>, i: nat, draw: nat -> Draw): (r: seq<T>)
    requires s == [] ==> i == 0
    requires s != [] ==> i < |s|
    ensures |r| == |s|
    decreases i
  {
    if i == 0 then s
    else
      var j := Pick(draw(i), i + 1);
      Shuffled(s[i := s[j]][j := s[i]], i - 1, draw)
  }

  /** The whole pass over s. */
  function Shuffle<T>(s: seq<T>, draw: nat -> Draw): (r: seq<T>)
    ensures |r| == |s|
  {
    Shuffled(s, if s == [] then 0 else |s| - 1, draw)
  }

  lemma {:induction false} ShuffledKeepsElements<T>(s: seq<T>, i: nat, draw: nat -> Draw)
    requires s == [] ==> i == 0
    requires s != [] ==> i < |s|
    ensures multiset(Shuffled(s, i, draw)) == multiset(s)
    decreases i
  {
    if i > 0 {
      var j := Pick(draw(i), i + 1);
      ShuffledKeepsElements(s[i := s[j]][j := s[i]], i - 1, draw);
    }
  }

  lemma ShuffleKeepsElements<T>(s: seq<T>, draw: nat -> Draw)
    ensures multiset(Shuffle(s, draw)) == multiset(s)
  {
    ShuffledKeepsElements(s, if s == [] then 0 else |s| - 1, draw);
  }

  /** The draws below position i decide what is at or below it and nothing else. */
  lemma {:induction false} ShuffledPrefix<T>(s: seq<T>, i: nat, draw: nat -> Draw, other: nat -> Draw)
    requires i < |s| && forall k: nat | k <= i :: draw(k) == other(k)
    ensures Shuffled(s, i, draw) == Shuffled(s, i, other)
    ensures Shuffled(s, i, draw)[i + 1..] == s[i + 1..]
    decreases i
  {
    if i > 0 {
      var j := Pick(draw(i), i + 1);
      var swapped := s[i := s[j]][j := s[i]];
      ShuffledPrefix(swapped, i - 1, draw, other);
      var r := Shuffled(swapped, i - 1, draw);
      forall k | i < k < |s| ensures r[k] == s[k] { assert r[i..][k - i] == swapped[i..][k - i]; }
    }
  }

  /** Any order of the first i + 1 elements can be drawn. */
  lemma {:induction false} OrderIsDrawn<T>(s: seq<T>, p: seq<T>, i: nat) returns (draw: nat -> Draw)
    requires i < |s| == |p| && i < MAX_WORD && s[i + 1..] == p[i + 1..] && multiset(s) == multiset(p)
    ensures Shuffled(s, i, draw) == p
    decreases i
  {
    if i == 0 {
      draw := _ => 0;
      SameFirst(s, p);
    } else {
      var j := PlaceOf(s, p, i);
      var w := EveryValueIsDrawn(j, i + 1);
      var swapped := s[i := s[j]][j := s[i]];
      SwapPlaces(s, p, i, j);
      var rest := OrderIsDrawn(swapped, p, i - 1);
      draw := OneMoreDraw(s, i, j, w, rest);
    }
  }

  lemma SameFirst<T>(s: seq<T>, p: seq<T>)
    requires 0 < |s| == |p| && s[1..] == p[1..] && multiset(s) == multiset(p)
    ensures s == p
  {
    var j := PlaceOf(s, p, 0);
    assert s == [s[0]] + s[1..] && p == [p[0]] + p[1..];
  }

  /** A draw for position i in front of those for the positions below it. */
  lemma OneMoreDraw<T>(s: seq<T>, i: nat, j: nat, w: Draw, rest: nat -> Draw) returns (draw: nat -> Draw)
    requires 0 < i < |s| && j <= i && Pick(w, i + 1) == j
    ensures Shuffled(s, i, draw) == Shuffled(s[i := s[j]][j := s[i]], i - 1, rest)
  {
    draw := (k: nat) => if k == i then w else rest(k);
    ShuffledPrefix(s[i := s[j]][j := s[i]], i - 1, rest, draw);
  }

  lemma SwapPlaces<T>(s: seq<T>, p: seq<T>, i: nat, j: nat)
    requires j <= i < |s| == |p| && s[j] == p[i] && s[i + 1..] == p[i + 1..]
    ensures var swapped := s[i := s[j]][j := s[i]];
      swapped[i..] == p[i..] && multiset(swapped) == multiset(s)
  {
    var swapped := s[i := s[j]][j := s[i]];
    forall k | i < k < |s| ensures swapped[k] == p[k] { assert s[i + 1..][k - i - 1] == p[i + 1..][k - i - 1]; }
  }

  lemma PlaceOf<T>(s: seq<T>, p: seq<T>, i: nat) returns (j: nat)
    requires i < |s| == |p| && s[i + 1..] == p[i + 1..] && multiset(s) == multiset(p)
    ensures j <= i && s[j] == p[i]
  {
    var front, rest := s[..i + 1], s[i + 1..];
    assert s == front + rest && p == p[..i + 1] + rest;
    assert multiset(front) == multiset(s) - multiset(rest) == multiset(p[..i + 1]);
    assert p[..i + 1][i] == p[i] && p[i] in multiset(front);
    j :| 0 <= j < |front| && front[j] == p[i];
  }

  /** Every order of a list is the result of some draws: shuffling excludes none. */
  lemma EveryOrderIsDrawn<T>(s: seq<T>, p: seq<T>) returns (draw: nat -> Draw)
    requires multiset(s) == multiset(p) && |s| <= MAX_WORD
    ensures Shuffle(s, draw) == p
  {
    assert |s| == |multiset(s)| == |p|;
    if s == [] {
      draw := _ => 0;
    } else {
      draw := OrderIsDrawn(s, p, |s| - 1);
    }
  }

  /** `shuffle`: swaps in place, highest index first. */
  method ShuffleInPlace<T>(a: array<T>, draw: nat -> Draw)
    modifies a
    ensures a[..] == Shuffle(old(a[..]), draw)
    ensures multiset(a[..]) == multiset(old(a[..]))
  {
    ghost var was := a[..];
    if a.Length > 0 {
      var i := a.Length - 1;
      while i > 0
        invariant 0 <= i < a.Length
        invariant Shuffled(a[..], i, draw) == Shuffle(was, draw)
      {
        ghost var s := a[..];
        var j := Pick(draw(i), i + 1);
        a[i], a[j] := a[j], a[i];
        assert a[..] == s[i := s[j]][j := s[i]];
        i := i - 1;
      }
    }
    ShuffleKeepsElements(was, draw);
  }

  // The shuffle under every word, on an array that grows when it is written past its end

  /** The two assignments of a swap; an element read past the end is missing. */
  function GrowingSwap<T>(s: seq<Option<T>>, i: nat, j: nat): (r: seq<Option<T>>)
    requires i < |s| && j <= |s|
    ensures |r| >= |s|
  {
    if j < |s| then s[i := s[j]][j := s[i]] else s[i := None] + [s[i]]
  }

  function WordShuffled<T>(s: seq<Option<T>>, i: nat, word: nat -> Word): seq<Option<T>>
    requires s == [] ==> i == 0
    requires s != [] ==> i < |s|
    decreases i
  {
    if i == 0 then s else WordShuffled(GrowingSwap(s, i, Pick(word(i), i + 1)), i - 1, word)
  }

  lemma InsideSwap<T>(s: seq<Option<T>>, i: nat, j: nat)
    requires i < |s| && j < |s|
    ensures |GrowingSwap(s, i, j)| == |s| && multiset(GrowingSwap(s, i, j)) == multiset(s)
  {}

  lemma {:induction false} InnerStepsKeepElements<T>(s: seq<Option<T>>, i: nat, word: nat -> Word)
    requires i + 1 < |s|
    ensures multiset(WordShuffled(s, i, word)) == multiset(s)
    decreases i
  {
    hide GrowingSwap;
    if i > 0 {
      hide WordShuffled;
      var j := Pick(word(i), i + 1);
      InsideSwap(s, i, j);
      StepOf(s, i, word);
      InnerStepsKeepElements(GrowingSwap(s, i, j), i - 1, word);
    }
  }

  lemma StepOf<T>(s: seq<Option<T>>, i: nat, word: nat -> Word)
    requires 0 < i < |s|
    ensures WordShuffled(s, i, word) == WordShuffled(GrowingSwap(s, i, Pick(word(i), i + 1)), i - 1, word)
  {}

  /**
   Shuffling leaves a hole in the array exactly when the first word drawn is 0xffffffff: the swap then reads past the
   end. For every later draw the word is harmless.
  */
  lemma HoleExactlyAtTheLargestWord<T>(s: seq<Option<T>>, word: nat -> Word)
    requires |s| >= 2 && forall k | 0 <= k < |s| :: s[k].Some?
    ensures None in WordShuffled(s, |s| - 1, word) <==> word(|s| - 1) == MAX_WORD
    ensures multiset(WordShuffled(s, |s| - 1, word))
         == multiset(s) + if word(|s| - 1) == MAX_WORD then multiset{None} else multiset{}
  {
    hide WordShuffled, GrowingSwap, Pick;
    var i := |s| - 1;
    var j := Pick(word(i), i + 1);
    FirstStep(s, i, j);
    StepOf(s, i, word);
    InnerStepsKeepElements(GrowingSwap(s, i, j), i - 1, word);
    OneHole(s, WordShuffled(s, i, word), j == |s|);
  }

  lemma OneHole<T>(s: seq<Option<T>>, r: seq<Option<T>>, hole: bool)
    requires forall k | 0 <= k < |s| :: s[k].Some?
    requires multiset(r) == multiset(s) + if hole then multiset{None} else multiset{}
    ensures None in r <==> hole
  {
    HoleCounts(r);
    HoleCounts(s);
  }

  lemma HoleCounts<T>(s: seq<Option<T>>)
    ensures None in s <==> multiset(s)[None] > 0
  {}

  lemma FirstStep<T>(s: seq<Option<T>>, i: nat, j: nat)
    requires i == |s| - 1 && j <= |s|
    ensures multiset(GrowingSwap(s, i, j)) == multiset(s) + if j == |s| then multiset{None} else multiset{}
  {
    if j < |s| {
      InsideSwap(s, i, j);
    } else {
      var front, last := s[..i], s[i];
      assert s == front + [last];
      assert s[i := None] == front + [None];
      GrownElements(front, last);
    }
  }

  lemma GrownElements<T>(front: seq<Option<T>>, last: Option<T>)
    ensures multiset((front + [None]) + [last]) == multiset(front + [last]) + multiset{None}
  {}
}
