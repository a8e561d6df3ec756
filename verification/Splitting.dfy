/** Cutting one shard's payment or change into outputs (`generateSplitsForShard`). */
module Splitting {
  import opened Arithmetic
  import opened Seqs
  import opened Randomness

  /** One draw for the number of outputs and one per output for its percentage. */
  datatype SplitDraws = SplitDraws(count: Draw, percent: nat -> Draw)

  /** Division of the source's integers: towards zero. */
  function TruncDiv(a: int, b: int): int
    requires b > 0
  {
    if a >= 0 then a / b else -((-a) / b)
  }

  function Chunk(maxSafeDraw: int, dust: int, draw: Draw): int {
    var chunk := TruncDiv(maxSafeDraw * (Pick(draw, 50) + 25), 100);
    if chunk < dust then dust else chunk
  }

  /** Outputs i, i + 1, ..., n - 1 of the n planned ones, when `remaining` is still to be cut. */
  function SplitFrom(remaining: int, n: nat, i: nat, dust: int, percent: nat -> Draw): seq<int>
    requires i < n
    decreases n - i
  {
    var maxSafeDraw := remaining - dust * (n - 1 - i);
    if i == n - 1 || maxSafeDraw <= dust then [remaining]
    else
      var chunk := Chunk(maxSafeDraw, dust, percent(i));
      [chunk] + SplitFrom(remaining - chunk, n, i + 1, dust, percent)
  }

  /** The whole cut, for any word drawn for the number of outputs. */
  function WordSplits(pool: int, maxOutputs: int, dust: int, count: Word, percent: nat -> Draw): seq<int> {
    if pool <= 0 then []
    else if pool < dust * 2 || maxOutputs <= 1 then [pool]
    else SplitFrom(pool, Pick(count, maxOutputs) + 1, 0, dust, percent)
  }

  function Splits(pool: int, maxOutputs: int, dust: int, d: SplitDraws): seq<int> {
    WordSplits(pool, maxOutputs, dust, d.count, d.percent)
  }

  method GenerateSplitsForShard(pool: int, maxOutputs: int, dust: int, count: Word, percent: nat -> Draw) returns (splits: seq<int>)
    ensures splits == WordSplits(pool, maxOutputs, dust, count, percent)
  {
    if pool <= 0 { return []; }
    if pool < dust * 2 || maxOutputs <= 1 { return [pool]; }
    var numOutputs := Pick(count, maxOutputs) + 1;
    if numOutputs == 1 { return [pool]; }
    splits := [];
    var remaining := pool;
    var i := 0;
    while i < numOutputs - 1
      invariant 0 <= i < numOutputs
      invariant splits + SplitFrom(remaining, numOutputs, i, dust, percent) == WordSplits(pool, maxOutputs, dust, count, percent)
    {
      var maxSafeDraw := remaining - dust * (numOutputs - 1 - i);
      if maxSafeDraw <= dust { break; }
      var chunk := TruncDiv(maxSafeDraw * (Pick(percent(i), 50) + 25), 100);
      if chunk < dust { chunk := dust; }
      ConcatAssociates(splits, [chunk], SplitFrom(remaining - chunk, numOutputs, i + 1, dust, percent));
      splits := splits + [chunk];
      remaining := remaining - chunk;
      i := i + 1;
    }
    splits := splits + [remaining];
  }

  lemma ChunkBounds(maxSafeDraw: int, dust: int, draw: Draw)
    requires 0 <= dust < maxSafeDraw
    ensures dust <= Chunk(maxSafeDraw, dust, draw) <= maxSafeDraw
  {
    var pct := Pick(draw, 50) + 25;
    assert pct <= 74;
    assert maxSafeDraw * pct <= maxSafeDraw * 100 by { MulLe(pct, 100, maxSafeDraw); }
  }

  lemma {:induction false} SplitFromFacts(remaining: int, n: nat, i: nat, dust: int, percent: nat -> Draw)
    requires i < n
    ensures Sum(SplitFrom(remaining, n, i, dust, percent)) == remaining
    ensures 1 <= |SplitFrom(remaining, n, i, dust, percent)| <= n - i
    decreases n - i
  {
    var maxSafeDraw := remaining - dust * (n - 1 - i);
    if !(i == n - 1 || maxSafeDraw <= dust) {
      SplitFromFacts(remaining - Chunk(maxSafeDraw, dust, percent(i)), n, i + 1, dust, percent);
    }
  }

  lemma {:induction false} SplitFromAboveDust(remaining: int, n: nat, i: nat, dust: int, percent: nat -> Draw)
    requires i < n && 0 <= dust <= remaining
    ensures forall x | x in SplitFrom(remaining, n, i, dust, percent) :: x >= dust
    decreases n - i
  {
    var later := n - 1 - i;
    var maxSafeDraw := remaining - dust * later;
    if !(i == n - 1 || maxSafeDraw <= dust) {
      var chunk := Chunk(maxSafeDraw, dust, percent(i));
      ChunkBounds(maxSafeDraw, dust, percent(i));
      assert dust * later >= dust by { MulLe(1, later, dust); }
      SplitFromAboveDust(remaining - chunk, n, i + 1, dust, percent);
    }
  }

  /** Nothing is lost or created, and the cap on the number of outputs holds for every draw. */
  lemma SplitsConserve(pool: int, maxOutputs: int, dust: int, d: SplitDraws)
    ensures Sum(Splits(pool, maxOutputs, dust, d)) == if pool > 0 then pool else 0
    ensures |Splits(pool, maxOutputs, dust, d)| <= if maxOutputs > 1 then maxOutputs else 1
  {
    if pool > 0 && !(pool < dust * 2 || maxOutputs <= 1) {
      SplitFromFacts(pool, Pick(d.count, maxOutputs) + 1, 0, dust, d.percent);
    }
  }

  /** No output falls below the dust threshold unless the whole amount does. */
  lemma SplitsAboveDust(pool: int, maxOutputs: int, dust: int, d: SplitDraws)
    requires dust >= 0
    ensures forall x | x in Splits(pool, maxOutputs, dust, d) :: x >= if pool < dust then pool else dust
    ensures dust > 0 ==> forall x | x in Splits(pool, maxOutputs, dust, d) :: x > 0
  {
    if pool > 0 && !(pool < dust * 2 || maxOutputs <= 1) {
      SplitFromAboveDust(pool, Pick(d.count, maxOutputs) + 1, 0, dust, d.percent);
    }
  }

  // What the cut looks like

  /** Row k of a cut that plans n outputs: what is left for it once every later output keeps the threshold. */
  function Room(s: seq<int>, pool: int, n: nat, dust: int, k: nat): int
    requires k <= |s|
  {
    pool - Sum(s[..k]) - dust * (n - 1 - k)
  }

  /** A piece is a quarter to 74 per cent of the room, or the threshold when that is more. */
  predicate IsPiece(piece: int, room: int, dust: int) {
    && room > dust && piece >= dust
    && (25 * room <= 100 * piece + 99)
    && (piece == dust || 100 * piece <= 74 * room)
  }

  /** Pieces are cut while there is room for more than the threshold, up to n outputs; the last output is the rest. */
  ghost predicate Cut(s: seq<int>, pool: int, n: nat, dust: int) {
    && 1 <= |s| <= n && Sum(s) == pool
    && (forall k: nat | k < |s| - 1 :: IsPiece(s[k], Room(s, pool, n, dust, k), dust))
    && (|s| == n || Room(s, pool, n, dust, |s| - 1) <= dust)
  }

  lemma ChunkIsPiece(room: int, dust: int, draw: Draw)
    requires 0 <= dust < room
    ensures IsPiece(Chunk(room, dust, draw), room, dust)
  {
    var pct := Pick(draw, 50) + 25;
    assert 25 * room <= room * pct <= 74 * room by { MulLe(25, pct, room); MulLe(pct, 74, room); }
  }

  /** Putting one piece in front of a cut of the rest. */
  lemma CutCons(piece: int, rest: seq<int>, pool: int, n: nat, dust: int)
    requires n >= 2 && Cut(rest, pool - piece, n - 1, dust)
    requires IsPiece(piece, pool - dust * (n - 1), dust)
    ensures Cut([piece] + rest, pool, n, dust)
  {
    var s := [piece] + rest;
    SumCons(piece, rest);
    forall k | 1 <= k <= |rest| ensures Room(s, pool, n, dust, k) == Room(rest, pool - piece, n - 1, dust, k - 1) {
      assert s[..k] == [piece] + rest[..k - 1];
      SumCons(piece, rest[..k - 1]);
    }
    forall k: nat | k < |s| - 1 ensures IsPiece(s[k], Room(s, pool, n, dust, k), dust) {
      if k > 0 { assert s[k] == rest[k - 1]; }
    }
  }

  lemma NothingCut(pool: int, n: nat, dust: int)
    requires n >= 1 && (n == 1 || pool - dust * (n - 1) <= dust)
    ensures Cut([pool], pool, n, dust)
  {
    assert [pool][..0] == [] && [pool][1..] == [];
  }

  lemma {:induction false} SplitFromIsCut(remaining: int, n: nat, i: nat, dust: int, percent: nat -> Draw)
    requires i < n && dust >= 0
    ensures Cut(SplitFrom(remaining, n, i, dust, percent), remaining, n - i, dust)
    decreases n - i
  {
    hide Cut, Chunk, IsPiece;
    var room := remaining - dust * (n - 1 - i);
    if i == n - 1 || room <= dust {
      NothingCut(remaining, n - i, dust);
    } else {
      var piece := Chunk(room, dust, percent(i));
      ChunkIsPiece(room, dust, percent(i));
      SplitFromIsCut(remaining - piece, n, i + 1, dust, percent);
      CutCons(piece, SplitFrom(remaining - piece, n, i + 1, dust, percent), remaining, n - i, dust);
    }
  }

  /**
   An amount that is not positive has no output, one below twice the threshold or with a cap of one stays whole, and
   any other is cut into at most as many pieces as were drawn.
  */
  lemma SplitsAreCut(pool: int, maxOutputs: int, dust: int, d: SplitDraws)
    requires dust >= 0
    ensures var s := Splits(pool, maxOutputs, dust, d);
      if pool <= 0 then s == []
      else if pool < 2 * dust || maxOutputs <= 1 then s == [pool]
      else Cut(s, pool, Pick(d.count, maxOutputs) + 1, dust)
  {
    if pool > 0 && !(pool < dust * 2 || maxOutputs <= 1) {
      SplitFromIsCut(pool, Pick(d.count, maxOutputs) + 1, 0, dust, d.percent);
    }
  }

  /** There are two outputs or more exactly when more than one was drawn and the threshold fits into each of them, with room to spare. */
  lemma CutInTwoExactly(pool: int, maxOutputs: int, dust: int, d: SplitDraws)
    requires pool > 0 && maxOutputs > 1 && dust >= 0
    ensures |Splits(pool, maxOutputs, dust, d)| >= 2
       <==> Pick(d.count, maxOutputs) >= 1 && pool > dust * (Pick(d.count, maxOutputs) + 1) && pool >= 2 * dust
  {
    var n := Pick(d.count, maxOutputs) + 1;
    SplitsAreCut(pool, maxOutputs, dust, d);
    var s := Splits(pool, maxOutputs, dust, d);
    if pool >= 2 * dust {
      assert s[..0] == [];
      assert Room(s, pool, n, dust, 0) == pool - dust * (n - 1);
      if |s| >= 2 { assert IsPiece(s[0], Room(s, pool, n, dust, 0), dust); }
    }
  }

  /** Every share from 25 to 74 per cent is drawn. */
  lemma EveryShareIsCut(room: int, dust: int, share: nat) returns (draw: Draw)
    requires 0 <= dust < room && 25 <= share < 75
    ensures Chunk(room, dust, draw) == if room * share / 100 < dust then dust else room * share / 100
  {
    draw := EveryValueIsDrawn(share - 25, 50);
    assert Pick(draw, 50) + 25 == share;
    assert room * share >= 0 by { MulLe(0, share, room); }
  }

  /** With the largest word for the count, a pool of 1000000 is cut in four where three outputs are the cap. */
  lemma LargestWordBreaksTheCap(percent: nat -> Draw)
    ensures |WordSplits(1_000_000, 3, 10_000, MAX_WORD, percent)| == 4
  {
    assert Pick(MAX_WORD, 3) == 3;
    FourOutputs(1_000_000, 0, percent);
  }

  lemma {:induction false} FourOutputs(remaining: int, i: nat, percent: nat -> Draw)
    requires i < 4
    requires remaining >= [1_000_000, 250_000, 62_500, 10_000][i]
    ensures |SplitFrom(remaining, 4, i, 10_000, percent)| == 4 - i
    decreases 4 - i
  {
    if i < 3 {
      var maxSafeDraw := remaining - 10_000 * (3 - i);
      var chunk := Chunk(maxSafeDraw, 10_000, percent(i));
      var pct := Pick(percent(i), 50) + 25;
      assert pct <= 74;
      assert maxSafeDraw * pct <= maxSafeDraw * 74 by { MulLe(pct, 74, maxSafeDraw); }
      FourOutputs(remaining - chunk, i + 1, percent);
    }
  }
}
