/** Removing dead token ids by index, in place, after sorting (verifyShardBalances of index.ts). */
module Splice {
  import opened Seqs
  import opened Protocol

  /** Position of one token id: shard, asset of the shard, index in the asset's list. */
  datatype Dead = Dead(si: nat, ai: nat, ti: nat)

  type Inventory = seq<seq<Asset>>

  /** The comparator of the sort: asset index up, token index down; the shard is not looked at. */
  predicate Before(a: Dead, b: Dead) {
    if a.ai != b.ai then a.ai < b.ai else a.ti >= b.ti
  }

  ghost predicate Sorted(ds: seq<Dead>) {
    forall i, j | 0 <= i < j < |ds| :: Before(ds[i], ds[j])
  }

  function Insert(d: Dead, ds: seq<Dead>): (r: seq<Dead>)
    ensures |r| == |ds| + 1
  {
    if ds == [] || Before(d, ds[0]) then [d] + ds else [ds[0]] + Insert(d, ds[1..])
  }

  function SortDead(ds: seq<Dead>): seq<Dead> {
    if ds == [] then [] else Insert(ds[0], SortDead(ds[1..]))
  }

  lemma SortedCons(d: Dead, rest: seq<Dead>)
    requires Sorted(rest) && forall k | 0 <= k < |rest| :: Before(d, rest[k])
    ensures Sorted([d] + rest) && multiset([d] + rest) == multiset(rest) + multiset{d}
  {}

  lemma {:induction false} InsertFacts(d: Dead, ds: seq<Dead>)
    requires Sorted(ds)
    ensures multiset(Insert(d, ds)) == multiset(ds) + multiset{d}
    ensures Sorted(Insert(d, ds))
  {
    if ds == [] || Before(d, ds[0]) {
    } else {
      InsertFacts(d, ds[1..]);
      FirstElement(ds);
      var rest := Insert(d, ds[1..]);
      forall k | 0 <= k < |rest| ensures Before(ds[0], rest[k]) {
        assert rest[k] in multiset(rest);
        assert rest[k] == d || rest[k] in ds[1..];
      }
      SortedCons(ds[0], rest);
    }
  }

  lemma {:induction false} SortFacts(ds: seq<Dead>)
    ensures multiset(SortDead(ds)) == multiset(ds)
    ensures Sorted(SortDead(ds))
  {
    if ds != [] {
      SortFacts(ds[1..]);
      InsertFacts(ds[0], SortDead(ds[1..]));
      FirstElement(ds);
    }
  }

  /** The ids whose indices are not dead, in their order. */
  function Keep(ids: seq<int>, dead: set<nat>): seq<int> {
    if ids == [] then []
    else
      var n := |ids| - 1;
      Keep(ids[..n], dead) + if n in dead then [] else [ids[n]]
  }

  lemma {:induction false} KeepNone(ids: seq<int>, dead: set<nat>)
    requires forall t | t in dead :: t >= |ids|
    ensures Keep(ids, dead) == ids
  {
    if ids != [] {
      KeepNone(ids[..|ids| - 1], dead);
    }
  }

  lemma {:induction false} KeepIgnores(ids: seq<int>, dead: set<nat>, t: nat)
    requires t >= |ids|
    ensures Keep(ids, dead + {t}) == Keep(ids, dead)
  {
    if ids != [] {
      KeepIgnores(ids[..|ids| - 1], dead, t);
    }
  }

  lemma KeepLast(ids: seq<int>, dead: set<nat>)
    requires ids != []
    ensures var n := |ids| - 1; Keep(ids, dead) == Keep(ids[..n], dead) + if n in dead then [] else [ids[n]]
  {}

  /** Taking out index t first is harmless as long as all other dead indices are smaller. */
  lemma {:induction false} KeepAfterSplice(ids: seq<int>, dead: set<nat>, t: nat)
    requires t < |ids| && forall x | x in dead :: x < t
    ensures Keep(Without(ids, t), dead) == Keep(ids, dead + {t})
    decreases |ids|
  {
    hide Keep;
    var n := |ids| - 1;
    KeepLast(ids, dead + {t});
    if t == n {
      assert Without(ids, t) == ids[..n];
      KeepIgnores(ids[..n], dead, t);
      assert Keep(ids[..n], dead) + [] == Keep(ids[..n], dead);
    } else {
      KeepAfterSplice(ids[..n], dead, t);
      WithoutLast(ids, t);
      KeepLast(Without(ids, t), dead);
    }
  }

  lemma WithoutLast(ids: seq<int>, t: nat)
    requires t < |ids| - 1
    ensures var n := |ids| - 1; var w := Without(ids, t);
      |w| == n && w[..n - 1] == Without(ids[..n], t) && w[n - 1] == ids[n]
  {}

  /** The entry points at a token id of an ERC721 asset. */
  predicate Points(inv: Inventory, d: Dead) {
    && d.si < |inv| && d.ai < |inv[d.si]| && inv[d.si][d.ai].ERC721Asset? && d.ti < |inv[d.si][d.ai].tokenIds|
  }

  function SpliceAt(inv: Inventory, d: Dead): (r: Inventory)
    requires Points(inv, d)
    ensures |r| == |inv|
  {
    var asset := inv[d.si][d.ai];
    inv[d.si := inv[d.si][d.ai := asset.(tokenIds := Without(asset.tokenIds, d.ti))]]
  }

  /** Splices in list order; an entry that no longer points anywhere removes nothing, as in the source. */
  function SpliceAll(inv: Inventory, ds: seq<Dead>): Inventory
    decreases |ds|
  {
    if ds == [] then inv
    else SpliceAll(if Points(inv, ds[0]) then SpliceAt(inv, ds[0]) else inv, ds[1..])
  }

  function DeadAt(ds: seq<Dead>, si: nat, ai: nat): set<nat> {
    set k | 0 <= k < |ds| && ds[k].si == si && ds[k].ai == ai :: ds[k].ti
  }

  function Filtered(asset: Asset, dead: set<nat>): Asset {
    if asset.ERC721Asset? then asset.(tokenIds := Keep(asset.tokenIds, dead)) else asset
  }

  function FilterRow(row: seq<Asset>, ds: seq<Dead>, si: nat): (r: seq<Asset>) {
    seq(|row|, ai requires 0 <= ai < |row| => Filtered(row[ai], DeadAt(ds, si, ai)))
  }

  /** Every asset with the dead ids of its own shard and position filtered out. */
  function FilterAll(inv: Inventory, ds: seq<Dead>): Inventory {
    seq(|inv|, si requires 0 <= si < |inv| => FilterRow(inv[si], ds, si))
  }

  lemma DeadAtHead(ds: seq<Dead>, si: nat, ai: nat)
    requires ds != []
    ensures DeadAt(ds, si, ai)
      == DeadAt(ds[1..], si, ai) + if ds[0].si == si && ds[0].ai == ai then {ds[0].ti} else {}
  {
    forall t | t in DeadAt(ds, si, ai)
      ensures t in DeadAt(ds[1..], si, ai) || (ds[0].si == si && ds[0].ai == ai && t == ds[0].ti)
    {
      var k :| 0 <= k < |ds| && ds[k].si == si && ds[k].ai == ai && ds[k].ti == t;
      if k > 0 { assert ds[1..][k - 1] == ds[k]; }
    }
    forall t | t in DeadAt(ds[1..], si, ai) ensures t in DeadAt(ds, si, ai) {
      var k :| 0 <= k < |ds| - 1 && ds[1..][k].si == si && ds[1..][k].ai == ai && ds[1..][k].ti == t;
      assert ds[k + 1] == ds[1..][k];
    }
  }

  /** Later entries for the same asset have smaller indices, so they still point where they did. */
  lemma SpliceKeepsRest(inv: Inventory, ds: seq<Dead>)
    requires ds != [] && Sorted(ds) && Distinct(ds) && forall d | d in ds :: Points(inv, d)
    ensures forall d | d in ds[1..] :: Points(SpliceAt(inv, ds[0]), d)
    ensures forall t | t in DeadAt(ds[1..], ds[0].si, ds[0].ai) :: t < ds[0].ti
    ensures Sorted(ds[1..]) && Distinct(ds[1..])
  {
    assert ds[0] in ds;
    forall k | 0 < k < |ds| ensures Points(SpliceAt(inv, ds[0]), ds[k])
      ensures ds[k].si == ds[0].si && ds[k].ai == ds[0].ai ==> ds[k].ti < ds[0].ti
    {
      assert ds[k] in ds && Before(ds[0], ds[k]) && ds[k] != ds[0];
    }
    forall d | d in ds[1..] ensures Points(SpliceAt(inv, ds[0]), d) {
      var k :| 0 <= k < |ds| - 1 && ds[1..][k] == d;
      assert ds[k + 1] == d;
    }
    forall t | t in DeadAt(ds[1..], ds[0].si, ds[0].ai) ensures t < ds[0].ti {
      var k :| 0 <= k < |ds| - 1 && ds[1..][k].si == ds[0].si && ds[1..][k].ai == ds[0].ai && ds[1..][k].ti == t;
      assert ds[k + 1] == ds[1..][k];
    }
  }

  /** One splice, seen at one asset. */
  lemma SpliceAtOne(inv: Inventory, ds: seq<Dead>, si: nat, ai: nat)
    requires ds != [] && Sorted(ds) && Distinct(ds) && forall d | d in ds :: Points(inv, d)
    requires si < |inv| && ai < |inv[si]|
    ensures var inv' := SpliceAt(inv, ds[0]);
      && |inv'[si]| == |inv[si]|
      && Filtered(inv'[si][ai], DeadAt(ds[1..], si, ai)) == Filtered(inv[si][ai], DeadAt(ds, si, ai))
  {
    hide Keep;
    assert ds[0] in ds;
    SpliceKeepsRest(inv, ds);
    DeadAtHead(ds, si, ai);
    if ds[0].si == si && ds[0].ai == ai {
      KeepAfterSplice(inv[si][ai].tokenIds, DeadAt(ds[1..], si, ai), ds[0].ti);
    } else {
      assert DeadAt(ds, si, ai) == DeadAt(ds[1..], si, ai);
    }
  }

  lemma SpliceAtRow(inv: Inventory, ds: seq<Dead>, si: nat)
    requires ds != [] && Sorted(ds) && Distinct(ds) && forall d | d in ds :: Points(inv, d)
    requires si < |inv|
    ensures FilterRow(SpliceAt(inv, ds[0])[si], ds[1..], si) == FilterRow(inv[si], ds, si)
  {
    hide DeadAt, Filtered, Sorted;
    assert ds[0] in ds;
    var row, row' := inv[si], SpliceAt(inv, ds[0])[si];
    assert |row| == |row'|;
    forall ai: nat | ai < |row|
      ensures FilterRow(row', ds[1..], si)[ai] == FilterRow(row, ds, si)[ai]
    {
      SpliceAtOne(inv, ds, si, ai);
    }
  }

  /** Splicing a sorted list of distinct entries is filtering, although the sort never looks at the shard. */
  lemma {:induction false} SplicingIsFiltering(inv: Inventory, ds: seq<Dead>)
    requires Sorted(ds) && Distinct(ds) && forall d | d in ds :: Points(inv, d)
    ensures SpliceAll(inv, ds) == FilterAll(inv, ds)
    decreases |ds|
  {
    hide Keep, FilterRow, DeadAt;
    if ds == [] {
      forall si: nat | si < |inv| ensures FilterRow(inv[si], ds, si) == inv[si] {
        NothingDead(inv[si], si);
      }
      assert SpliceAll(inv, ds) == inv == FilterAll(inv, ds);
    } else {
      assert ds[0] in ds;
      SpliceKeepsRest(inv, ds);
      var inv' := SpliceAt(inv, ds[0]);
      SplicingIsFiltering(inv', ds[1..]);
      forall si: nat | si < |inv|
        ensures FilterRow(inv'[si], ds[1..], si) == FilterRow(inv[si], ds, si)
      {
        SpliceAtRow(inv, ds, si);
      }
      assert FilterAll(inv', ds[1..]) == FilterAll(inv, ds);
    }
  }

  lemma NothingDead(row: seq<Asset>, si: nat)
    ensures FilterRow(row, [], si) == row
  {
    forall ai: nat | ai < |row| ensures FilterRow(row, [], si)[ai] == row[ai] {
      if row[ai].ERC721Asset? { KeepNone(row[ai].tokenIds, DeadAt([], si, ai)); }
    }
  }

  lemma DistinctByCount<T>(a: seq<T>, b: seq<T>)
    requires Distinct(a) && multiset(a) == multiset(b)
    ensures Distinct(b)
  {
    forall i, j | 0 <= i < j < |b| ensures b[i] != b[j] {
      if b[i] == b[j] {
        TwiceCounted(b, i, j);
        OnceCounted(a, b[i]);
      }
    }
  }

  lemma TwiceCounted<T>(b: seq<T>, i: nat, j: nat)
    requires i < j < |b| && b[i] == b[j]
    ensures multiset(b)[b[i]] >= 2
  {
    WithoutElements(b, i);
    assert Without(b, i)[j - 1] == b[j];
  }

  lemma {:induction false} OnceCounted<T>(a: seq<T>, x: T)
    requires Distinct(a)
    ensures multiset(a)[x] <= 1
  {
    if a != [] {
      FirstElement(a);
      assert Distinct(a[1..]);
      OnceCounted(a[1..], x);
      if a[0] == x {
        assert x !in a[1..];
      }
    }
  }

  /** Whatever order the entries arrive in, sorting and splicing filters exactly the entries' positions. */
  lemma SortedSplicingFilters(inv: Inventory, ds: seq<Dead>)
    requires Distinct(ds) && forall d | d in ds :: Points(inv, d)
    ensures SpliceAll(inv, SortDead(ds)) == FilterAll(inv, ds)
  {
    hide Keep, SpliceAll, SortDead;
    SortFacts(ds);
    var sorted := SortDead(ds);
    DistinctByCount(ds, sorted);
    forall d | d in sorted ensures Points(inv, d) { assert d in multiset(ds); }
    SplicingIsFiltering(inv, sorted);
    SameFilter(inv, sorted, ds);
  }

  lemma SameFilter(inv: Inventory, a: seq<Dead>, b: seq<Dead>)
    requires multiset(a) == multiset(b)
    ensures FilterAll(inv, a) == FilterAll(inv, b)
  {
    forall si: nat | si < |inv| ensures FilterRow(inv[si], a, si) == FilterRow(inv[si], b, si) {
      forall ai: nat | ai < |inv[si]| ensures DeadAt(a, si, ai) == DeadAt(b, si, ai) {
        SameDead(a, b, si, ai);
        SameDead(b, a, si, ai);
      }
    }
  }

  lemma SameDead(a: seq<Dead>, b: seq<Dead>, si: nat, ai: nat)
    requires multiset(a) == multiset(b)
    ensures DeadAt(a, si, ai) <= DeadAt(b, si, ai)
  {
    forall t | t in DeadAt(a, si, ai) ensures t in DeadAt(b, si, ai) {
      var k :| 0 <= k < |a| && a[k].si == si && a[k].ai == ai && a[k].ti == t;
      assert a[k] in multiset(b);
      var j :| 0 <= j < |b| && b[j] == a[k];
    }
  }

  /** Without the sort, removal by index goes wrong: after index 0 is gone, index 1 is another id. */
  lemma UnsortedSplicingDiffers(other: Address, x: int, y: int, z: int)
    requires y != z
    ensures var inv := [[ERC721Asset(other, 0, [x, y, z])]]; var ds := [Dead(0, 0, 0), Dead(0, 0, 1)];
      && SpliceAll(inv, ds) == [[ERC721Asset(other, 0, [y])]]
      && SpliceAll(inv, SortDead(ds)) == [[ERC721Asset(other, 0, [z])]]
  {
    var inv := [[ERC721Asset(other, 0, [x, y, z])]];
    var a, b := Dead(0, 0, 0), Dead(0, 0, 1);
    assert Without([x, y, z], 0) == [y, z] && Without([y, z], 1) == [y];
    assert Without([x, y, z], 1) == [x, z] && Without([x, z], 0) == [z];
    assert [a, b][1..] == [b] && [b][1..] == [];
    assert SortDead([b]) == Insert(b, SortDead([])) == [b];
    assert [b][1..] == [] && Insert(a, []) == [a];
    assert SortDead([a, b]) == Insert(a, SortDead([b])) == [b] + Insert(a, []) == [b, a];
    OneCell(inv[0][0], a);
    OneCell(inv[0][0], b);
    OneCell(ERC721Asset(other, 0, [y, z]), b);
    OneCell(ERC721Asset(other, 0, [x, z]), a);
    TwoSplices(inv, a, b);
    TwoSplices(inv, b, a);
  }

  lemma OneCell(asset: Asset, d: Dead)
    requires d.si == d.ai == 0 && Points([[asset]], d)
    ensures SpliceAt([[asset]], d) == [[asset.(tokenIds := Without(asset.tokenIds, d.ti))]]
  {
    var spliced := asset.(tokenIds := Without(asset.tokenIds, d.ti));
    assert [asset][0 := spliced] == [spliced];
  }

  lemma TwoSplices(inv: Inventory, a: Dead, b: Dead)
    requires Points(inv, a) && Points(SpliceAt(inv, a), b)
    ensures SpliceAll(inv, [a, b]) == SpliceAt(SpliceAt(inv, a), b)
  {
    var inv' := SpliceAt(inv, a);
    assert [a, b][1..] == [b] && [b][1..] == [];
    assert SpliceAll(inv', [b]) == SpliceAll(SpliceAt(inv', b), []);
    assert SpliceAll(inv, [a, b]) == SpliceAll(inv', [b]);
  }
}
