/** Fusing commands by (shard, asset kind, token, recipient): the last stage of plan building in transaction.ts. */
module Fusion {
  import opened Seqs
  import opened Protocol

  datatype Key = Key(shard: Address, kind: AssetKind, token: Address, to: Address)

  function KeyOf(c: Command): Key {
    Key(c.shard, c.kind, c.token, c.to)
  }

  function KeysOf(cmds: seq<Command>): (keys: seq<Key>)
    ensures |keys| == |cmds|
  {
    seq(|cmds|, i requires 0 <= i < |cmds| => KeyOf(cmds[i]))
  }

  /** Value moved by a command as far as p selects its key; token ids are not amounts. */
  function Weight(p: Key -> bool): Command -> int {
    (c: Command) => if c.kind != ERC721 && p(KeyOf(c)) then c.value else 0
  }

  /** Total fungible value moved by the commands whose keys p selects. */
  function Flow(cmds: seq<Command>, p: Key -> bool): int {
    SumBy(cmds, Weight(p))
  }

  function Only(k: Key): Key -> bool {
    x => x == k
  }

  function Total(cmds: seq<Command>, k: Key): int {
    Flow(cmds, Only(k))
  }

  /** Position of a key among the fused commands, or their number when it is absent. */
  function Find(fused: seq<Command>, k: Key): (j: nat)
    ensures j <= |fused|
    ensures j < |fused| ==> KeyOf(fused[j]) == k
    ensures forall i | 0 <= i < j :: KeyOf(fused[i]) != k
  {
    if fused == [] || KeyOf(fused[0]) == k then 0 else 1 + Find(fused[1..], k)
  }

  function AddCommand(fused: seq<Command>, c: Command): seq<Command> {
    var j := Find(fused, KeyOf(c));
    if j < |fused| then fused[j := c.(value := fused[j].value + c.value)] else fused + [c]
  }

  /** The fungible commands, merged in order of first use. */
  function Merge(cmds: seq<Command>): seq<Command> {
    if cmds == [] then []
    else
      var n := |cmds| - 1;
      if cmds[n].kind == ERC721 then Merge(cmds[..n]) else AddCommand(Merge(cmds[..n]), cmds[n])
  }

  /** The ERC721 commands, untouched and in order. */
  function Nfts(cmds: seq<Command>): seq<Command> {
    if cmds == [] then []
    else
      var n := |cmds| - 1;
      Nfts(cmds[..n]) + if cmds[n].kind == ERC721 then [cmds[n]] else []
  }

  function Fused(cmds: seq<Command>): seq<Command> {
    Nfts(cmds) + Merge(cmds)
  }

  /** Keys of the fungible commands in order of first use. */
  function FirstUses(cmds: seq<Command>): seq<Key> {
    if cmds == [] then []
    else
      var n := |cmds| - 1;
      var keys := FirstUses(cmds[..n]);
      if cmds[n].kind == ERC721 || KeyOf(cmds[n]) in keys then keys else keys + [KeyOf(cmds[n])]
  }

  lemma AddCommandKeys(fused: seq<Command>, c: Command)
    ensures KeysOf(AddCommand(fused, c)) ==
      if KeyOf(c) in KeysOf(fused) then KeysOf(fused) else KeysOf(fused) + [KeyOf(c)]
  {
    var j := Find(fused, KeyOf(c));
    if j < |fused| {
      assert KeysOf(fused)[j] == KeyOf(c);
    } else {
      forall i | 0 <= i < |fused| ensures KeysOf(fused)[i] != KeyOf(c) {}
    }
  }

  lemma AddCommandFlow(fused: seq<Command>, c: Command, p: Key -> bool)
    ensures Flow(AddCommand(fused, c), p) == Flow(fused, p) + Weight(p)(c)
  {
    var j := Find(fused, KeyOf(c));
    if j < |fused| {
      var merged := c.(value := fused[j].value + c.value);
      WithoutSum(fused, j, Weight(p));
      WithoutSum(fused[j := merged], j, Weight(p));
      assert Without(fused[j := merged], j) == Without(fused, j);
      assert KeyOf(merged) == KeyOf(c) == KeyOf(fused[j]);
      assert Weight(p)(merged) == Weight(p)(fused[j]) + Weight(p)(c);
    } else {
      SumByAppend(fused, [c], Weight(p));
      SumBySingle(c, Weight(p));
    }
  }

  lemma FlowSnoc(cmds: seq<Command>, p: Key -> bool)
    requires cmds != []
    ensures var n := |cmds| - 1; Flow(cmds, p) == Flow(cmds[..n], p) + Weight(p)(cmds[n])
  {
    var n := |cmds| - 1;
    assert cmds == cmds[..n] + [cmds[n]];
    SumByAppend(cmds[..n], [cmds[n]], Weight(p));
    SumBySingle(cmds[n], Weight(p));
  }

  lemma {:induction false} MergeKeepsFlow(cmds: seq<Command>, p: Key -> bool)
    ensures Flow(Merge(cmds), p) == Flow(cmds, p)
  {
    if cmds != [] {
      var n := |cmds| - 1;
      MergeKeepsFlow(cmds[..n], p);
      FlowSnoc(cmds, p);
      if cmds[n].kind != ERC721 { AddCommandFlow(Merge(cmds[..n]), cmds[n], p); }
    }
  }

  lemma {:induction false} NftsCarryNoFlow(cmds: seq<Command>, p: Key -> bool)
    ensures Flow(Nfts(cmds), p) == 0
    ensures forall c | c in Nfts(cmds) :: c.kind == ERC721
  {
    if cmds != [] {
      var n := |cmds| - 1;
      NftsCarryNoFlow(cmds[..n], p);
      var last := if cmds[n].kind == ERC721 then [cmds[n]] else [];
      SumByAppend(Nfts(cmds[..n]), last, Weight(p));
      if last != [] { SumBySingle(cmds[n], Weight(p)); }
    }
  }

  /** Fusion keeps every flow: per key, per shard, per recipient, or over any other set of keys. */
  lemma FusionPreservesFlow(cmds: seq<Command>, p: Key -> bool)
    ensures Flow(Fused(cmds), p) == Flow(cmds, p)
  {
    SumByAppend(Nfts(cmds), Merge(cmds), Weight(p));
    MergeKeepsFlow(cmds, p);
    NftsCarryNoFlow(cmds, p);
  }

  /** NFT commands keep their order and their number; any other command leaves no trace among them. */
  lemma {:induction false} NftsAppend(a: seq<Command>, b: seq<Command>)
    ensures Nfts(a + b) == Nfts(a) + Nfts(b)
    ensures (forall c | c in b :: c.kind == ERC721) ==> Nfts(b) == b
    ensures (forall c | c in b :: c.kind != ERC721) ==> Nfts(b) == []
  {
    if b == [] {
      assert a + b == a;
    } else {
      var n := |b| - 1;
      assert (a + b)[..|a| + n] == a + b[..n];
      assert b == b[..n] + [b[n]];
      NftsAppend(a, b[..n]);
      ConcatAssociates(Nfts(a), Nfts(b[..n]), if b[n].kind == ERC721 then [b[n]] else []);
    }
  }

  lemma {:induction false} MergeKeys(cmds: seq<Command>)
    ensures KeysOf(Merge(cmds)) == FirstUses(cmds)
    ensures Distinct(FirstUses(cmds))
    ensures forall c | c in Merge(cmds) :: c.kind != ERC721
  {
    if cmds != [] {
      var n := |cmds| - 1;
      MergeKeys(cmds[..n]);
      if cmds[n].kind != ERC721 { AddCommandKeys(Merge(cmds[..n]), cmds[n]); }
    }
  }

  lemma {:induction false} FlowOfAbsentKey(cmds: seq<Command>, k: Key)
    requires k !in KeysOf(cmds)
    ensures Total(cmds, k) == 0
  {
    if cmds != [] {
      assert KeyOf(cmds[0]) != k by { assert KeysOf(cmds)[0] == KeyOf(cmds[0]); }
      forall x | x in KeysOf(cmds[1..]) ensures x in KeysOf(cmds) {
        var i :| 0 <= i < |cmds| - 1 && KeysOf(cmds[1..])[i] == x;
        assert KeysOf(cmds)[i + 1] == x;
      }
      FlowOfAbsentKey(cmds[1..], k);
    }
  }

  lemma TotalOfDistinct(fused: seq<Command>, j: nat)
    requires j < |fused| && Distinct(KeysOf(fused)) && fused[j].kind != ERC721
    ensures Total(fused, KeyOf(fused[j])) == fused[j].value
  {
    var k := KeyOf(fused[j]);
    WithoutSum(fused, j, Weight(Only(k)));
    var rest := Without(fused, j);
    forall x | x in KeysOf(rest) ensures x != k {
      var i :| 0 <= i < |rest| && KeysOf(rest)[i] == x;
      var at := if i < j then i else i + 1;
      assert rest[i] == fused[at];
      assert KeysOf(fused)[at] == x && KeysOf(fused)[j] == k;
    }
    FlowOfAbsentKey(rest, k);
  }

  /**
   The fused list, described without the algorithm: the ERC721 commands as they were, then one
   command for each fungible key in order of first use, carrying that key's total.
  */
  lemma FusedIsOneCommandPerKey(cmds: seq<Command>)
    ensures var nfts := Nfts(cmds); var keys := FirstUses(cmds); var fused := Fused(cmds);
      && |fused| == |nfts| + |keys| && Distinct(keys)
      && fused[..|nfts|] == nfts
      && (forall j | 0 <= j < |keys| ::
            var k := keys[j];
            fused[|nfts| + j] == Command(k.shard, k.kind, k.token, k.to, Total(cmds, k)))
  {
    hide Nfts, Merge, FirstUses, Total, SumBy;
    MergeKeys(cmds);
    forall j | 0 <= j < |FirstUses(cmds)|
      ensures var k := FirstUses(cmds)[j];
        Fused(cmds)[|Nfts(cmds)| + j] == Command(k.shard, k.kind, k.token, k.to, Total(cmds, k))
    {
      MergedAt(cmds, j);
    }
  }

  lemma MergedAt(cmds: seq<Command>, j: nat)
    requires j < |FirstUses(cmds)|
    ensures |Merge(cmds)| == |FirstUses(cmds)|
    ensures var k := FirstUses(cmds)[j]; Merge(cmds)[j] == Command(k.shard, k.kind, k.token, k.to, Total(cmds, k))
  {
    MergeKeys(cmds);
    var merged := Merge(cmds);
    assert KeysOf(merged)[j] == KeyOf(merged[j]);
    TotalOfDistinct(merged, j);
    MergeKeepsFlow(cmds, Only(KeyOf(merged[j])));
  }

  lemma {:induction false} FirstUsesAreTheKeys(cmds: seq<Command>, k: Key)
    ensures k in FirstUses(cmds) <==> k.kind != ERC721 && k in KeysOf(cmds)
  {
    if cmds != [] {
      var n := |cmds| - 1;
      FirstUsesAreTheKeys(cmds[..n], k);
      assert KeysOf(cmds) == KeysOf(cmds[..n]) + [KeyOf(cmds[n])];
    }
  }

  /** Whatever the order of the input, each key ends up with the same total, and the same keys appear. */
  lemma FusionIgnoresOrder(a: seq<Command>, b: seq<Command>, k: Key)
    requires multiset(a) == multiset(b)
    ensures k in FirstUses(a) <==> k in FirstUses(b)
    ensures Total(Fused(a), k) == Total(Fused(b), k)
  {
    FirstUsesAreTheKeys(a, k);
    FirstUsesAreTheKeys(b, k);
    SameElementsSameKeys(a, b);
    SameElementsSameKeys(b, a);
    FusionPreservesFlow(a, Only(k));
    FusionPreservesFlow(b, Only(k));
    SumByPermutation(a, b, Weight(Only(k)));
  }

  lemma SameElementsSameKeys(a: seq<Command>, b: seq<Command>)
    requires multiset(a) == multiset(b)
    ensures forall k | k in KeysOf(a) :: k in KeysOf(b)
  {
    forall k | k in KeysOf(a) ensures k in KeysOf(b) {
      var i :| 0 <= i < |a| && KeysOf(a)[i] == k;
      assert a[i] in multiset(b);
      var j :| 0 <= j < |b| && b[j] == a[i];
      assert KeysOf(b)[j] == k;
    }
  }

  /** A command object: fusing adds to the value of an existing one in place. */
  class TransferCommand {
    const shard: Address
    const kind: AssetKind
    const token: Address
    const to: Address
    var value: int

    constructor (c: Command)
      ensures View() == c
    {
      shard, kind, token, to, value := c.shard, c.kind, c.token, c.to, c.value;
    }

    /** The map key; it depends on the immutable fields only. */
    function MapKey(): Key {
      Key(shard, kind, token, to)
    }

    function View(): (c: Command)
      reads this
      ensures KeyOf(c) == MapKey()
    {
      Command(shard, kind, token, to, value)
    }
  }

  function Views(s: seq<TransferCommand>): (v: seq<Command>)
    reads s
    ensures |v| == |s|
  {
    seq(|s|, i requires 0 <= i < |s| reads s => s[i].View())
  }

  lemma ViewsSnoc(s: seq<TransferCommand>, x: TransferCommand)
    ensures Views(s + [x]) == Views(s) + [x.View()]
  {}

  /** The map from key to clone agrees with the list of clones in insertion order. */
  ghost predicate Indexed(order: seq<TransferCommand>, index: map<Key, TransferCommand>) {
    && Distinct(order)
    && (forall j | 0 <= j < |order| :: order[j].MapKey() in index && index[order[j].MapKey()] == order[j])
    && (forall k | k in index :: index[k] in order && index[k].MapKey() == k)
  }

  lemma IndexedSnoc(order: seq<TransferCommand>, index: map<Key, TransferCommand>, x: TransferCommand)
    requires Indexed(order, index) && x !in order && x.MapKey() !in index
    ensures Indexed(order + [x], index[x.MapKey() := x])
  {}

  lemma IndexedFind(order: seq<TransferCommand>, index: map<Key, TransferCommand>, k: Key) returns (j: nat)
    requires Indexed(order, index)
    ensures j == Find(Views(order), k) <= |order|
    ensures j < |order| <==> k in index
    ensures k in index ==> order[j] == index[k]
  {
    var v := Views(order);
    j := Find(v, k);
    if j < |order| { assert v[j] == order[j].View(); }
    if k in index {
      var i :| 0 <= i < |order| && order[i] == index[k];
      assert v[i] == order[i].View();
      assert index[order[j].MapKey()] == order[j];
    }
  }

  /** One fungible command: a repeated key adds to its clone in place, a new key gets a clone. */
  method AddTo(order: seq<TransferCommand>, index: map<Key, TransferCommand>, cmd: TransferCommand)
    returns (order': seq<TransferCommand>, index': map<Key, TransferCommand>)
    requires Indexed(order, index) && cmd !in order
    modifies order
    ensures Indexed(order', index')
    ensures Views(order') == AddCommand(old(Views(order)), cmd.View())
    ensures forall c | c in order' :: c in order || (fresh(c) && c.kind == cmd.kind)
  {
    order', index' := order, index;
    var key := cmd.MapKey();
    ghost var before := Views(order);
    ghost var j := IndexedFind(order, index, key);
    if key in index {
      var existing := index[key];
      existing.value := existing.value + cmd.value;
      assert before[j].value + cmd.value == existing.value;
      assert Views(order) == before[j := cmd.View().(value := existing.value)];
    } else {
      var clone := new TransferCommand(cmd.View());
      assert Views(order) == before;
      IndexedSnoc(order, index, clone);
      ViewsSnoc(order, clone);
      order' := order + [clone];
      index' := index[key := clone];
    }
  }

  lemma MergeSnoc(cmds: seq<Command>, i: nat)
    requires i < |cmds|
    ensures Merge(cmds[..i + 1]) == if cmds[i].kind == ERC721 then Merge(cmds[..i]) else AddCommand(Merge(cmds[..i]), cmds[i])
    ensures Nfts(cmds[..i + 1]) == Nfts(cmds[..i]) + if cmds[i].kind == ERC721 then [cmds[i]] else []
  {
    assert cmds[..i + 1][..i] == cmds[..i];
  }

  /** One step of the fusion loop. */
  method FuseStep(nfts: seq<TransferCommand>, order: seq<TransferCommand>, index: map<Key, TransferCommand>, cmd: TransferCommand)
    returns (nfts': seq<TransferCommand>, order': seq<TransferCommand>, index': map<Key, TransferCommand>)
    requires Indexed(order, index) && cmd !in order
    requires forall c | c in nfts :: c !in order && c.kind == ERC721
    requires forall c | c in order :: c.kind != ERC721
    modifies order
    ensures Indexed(order', index')
    ensures Views(order') == if cmd.kind == ERC721 then old(Views(order)) else AddCommand(old(Views(order)), cmd.View())
    ensures Views(nfts') == old(Views(nfts)) + if cmd.kind == ERC721 then [cmd.View()] else []
    ensures forall c | c in order' :: (c in order || fresh(c)) && c.kind != ERC721
    ensures forall c | c in nfts' :: (c in nfts || c == cmd) && c.kind == ERC721
  {
    nfts', order', index' := nfts, order, index;
    if cmd.kind == ERC721 {
      ViewsSnoc(nfts, cmd);
      nfts' := nfts + [cmd];
    } else {
      order', index' := AddTo(order, index, cmd);
      assert Views(nfts) == old(Views(nfts));
    }
  }

  /** Fusion as written: the originals keep their values, the fungible results are clones. */
  method Fuse(commands: seq<TransferCommand>) returns (final: seq<TransferCommand>)
    ensures Views(final) == Fused(Views(commands))
    ensures Views(commands) == old(Views(commands))
    ensures forall c | c in final && c.kind != ERC721 :: fresh(c)
    ensures forall c | c in final && c.kind == ERC721 :: c in commands
  {
    hide Nfts, Merge;
    ghost var all := Views(commands);
    var nfts: seq<TransferCommand>, order: seq<TransferCommand>, index: map<Key, TransferCommand> := [], [], map[];
    NothingFusedYet(all);
    for i := 0 to |commands|
      invariant Views(commands) == all
      invariant Views(nfts) == Nfts(all[..i])
      invariant Views(order) == Merge(all[..i])
      invariant forall c | c in nfts :: c in commands && c.kind == ERC721
      invariant forall c | c in order :: fresh(c) && c.kind != ERC721
      invariant Indexed(order, index)
    {
      var cmd := commands[i];
      assert all[i] == cmd.View();
      MergeSnoc(all, i);
      nfts, order, index := FuseStep(nfts, order, index, cmd);
    }
    assert all[..|commands|] == all;
    final := nfts + order;
    ViewsAppend(nfts, order);
  }

  lemma NothingFusedYet(all: seq<Command>)
    ensures Nfts(all[..0]) == [] && Merge(all[..0]) == []
    ensures Indexed([], map[])
  {}

  lemma ViewsAppend(a: seq<TransferCommand>, b: seq<TransferCommand>)
    ensures Views(a + b) == Views(a) + Views(b)
  {}
}
