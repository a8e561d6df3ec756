/** What the receiver of an announced output records, against what the plan's commands send: packing, parsing and discovery included. */
module AnnouncedAssets {
  import opened Arithmetic
  import opened Seqs
  import opened Protocol
  import opened Fusion
  import opened Plan
  import opened PlanProperties
  import opened AnnouncedAmounts
  import opened Bytes
  import opened Metadata
  import Stealth

  // Kind and token of announcements and commands

  lemma {:induction false} AnnouncesTheAsset(job: Job, outs: seq<Out>)
    ensures forall ann | ann in AnnounceAll(job, [], outs) :: ann.kind == job.kind && ann.token == job.token
  {
    if outs != [] {
      AnnouncesTheAsset(job, outs[..|outs| - 1]);
    }
  }

  lemma RowSendsTheAsset(job: Job, i: nat)
    requires job.Valid() && i < |job.shards|
    ensures forall c | c in RowCommands(job, i) :: c.kind == job.kind && c.token == job.token
  {
    var local := ToCommands(job, i, RowPay(job, i) + RowChange(job, i));
    ShuffleElements(local, job.d.order(i));
  }

  lemma ShuffleElements(cmds: seq<Command>, draw: nat -> Randomness.Draw)
    ensures forall c | c in Randomness.Shuffle(cmds, draw) :: c in cmds
  {
    Randomness.ShuffleKeepsElements(cmds, draw);
    forall c | c in Randomness.Shuffle(cmds, draw) ensures c in cmds { assert c in multiset(cmds); }
  }

  lemma {:induction false} PlanSendsTheAsset(job: Job, n: nat)
    requires job.Valid() && n <= |job.shards|
    ensures forall c | c in CommandsUpTo(job, n) :: c.kind == job.kind && c.token == job.token
  {
    hide RowCommands;
    if n > 0 {
      PlanSendsTheAsset(job, n - 1);
      RowSendsTheAsset(job, n - 1);
    }
  }

  /** Every fused command has the key of some command it was fused from. */
  lemma FusedKeepsKeys(cmds: seq<Command>)
    ensures forall c | c in Fused(cmds) :: exists k | 0 <= k < |cmds| :: KeyOf(cmds[k]) == KeyOf(c)
  {
    hide Nfts, FirstUses, Total, Fused;
    FusedIsOneCommandPerKey(cmds);
    var fused, nfts, keys := Fused(cmds), Nfts(cmds), FirstUses(cmds);
    forall c | c in fused ensures exists k | 0 <= k < |cmds| :: KeyOf(cmds[k]) == KeyOf(c) {
      var j :| 0 <= j < |fused| && fused[j] == c;
      if j < |nfts| {
        assert nfts[j] == fused[..|nfts|][j] == c;
        NftsAre(cmds, c);
      } else {
        assert fused[|nfts| + (j - |nfts|)] == c;
        assert KeyOf(c) == keys[j - |nfts|];
        FirstUsesAreTheKeys(cmds, KeyOf(c));
        var k :| 0 <= k < |cmds| && KeysOf(cmds)[k] == KeyOf(c);
        assert KeyOf(cmds[k]) == KeyOf(c);
      }
    }
  }

  /** Announcements and commands of a plan name one asset: that of the request. */
  lemma PlanNamesOneAsset(job: Job)
    requires job.Valid()
    ensures forall ann | ann in PreparedPlan(job).announcements :: ann.kind == job.kind && ann.token == job.token
    ensures forall c | c in PreparedPlan(job).commands :: c.kind == job.kind && c.token == job.token
  {
    hide Fused, CommandsUpTo, AnnounceAll, AnnouncedOuts;
    var n := |job.shards|;
    AnnouncesTheAsset(job, AnnouncedOuts(job, n));
    PlanSendsTheAsset(job, n);
    FusedKeepsKeys(CommandsUpTo(job, n));
    forall c | c in PreparedPlan(job).commands ensures c.kind == job.kind && c.token == job.token {
      var k :| 0 <= k < |CommandsUpTo(job, n)| && KeyOf(CommandsUpTo(job, n)[k]) == KeyOf(c);
      assert CommandsUpTo(job, n)[k] in CommandsUpTo(job, n);
    }
  }

  // The receiver's side

  /** What `packMetadata` is called with: amount 0 for an NFT, token id 0 for anything else. */
  function InfoOf(ann: Announcement): AssetInfo {
    AssetInfo(ann.kind, Some(ToBytes(ann.token, 20)),
              Some(if ann.kind == ERC721 then 0 else ann.identifier), Some(if ann.kind == ERC721 then ann.identifier else 0))
  }

  /** The asset of a discovered shard. */
  function AssetOf(p: ParsedAsset): Asset {
    match p
    case ParsedNative(balance) => NativeAsset(balance)
    case ParsedERC20(token, balance) => ERC20Asset(FromBytes(token), balance)
    case ParsedERC721(token, id) => ERC721Asset(FromBytes(token), 0, [id])
  }

  /** The asset of a request with an amount or a token id. */
  function AssetFor(job: Job, n: int): Asset {
    match job.kind
    case Native => NativeAsset(n)
    case ERC20 => ERC20Asset(job.token, n)
    case ERC721 => ERC721Asset(job.token, 0, [n])
  }

  /** Announced numbers fit 32 bytes and token addresses 20, or packing throws. */
  ghost predicate Announceable(ann: Announcement) {
    0 <= ann.identifier < Pow256(32) && ann.token < Pow256(20)
  }

  lemma AnnouncedInfo(job: Job, ann: Announcement)
    requires job.Valid() && ann in PreparedPlan(job).announcements && Announceable(ann)
    ensures Packable(InfoOf(ann)) && AssetOf(Meaning(InfoOf(ann))) == AssetFor(job, ann.identifier)
  {
    hide PreparedPlan, ToBytes, FromBytes, Pow256;
    PlanNamesOneAsset(job);
    DecodeEncode(ann.token, 20);
    DivisionIsUnique(ann.token, Pow256(20), 0, ann.token);
    assert Identifier(InfoOf(ann)) == ann.identifier;
  }

  /** The recorded asset against the commands that pay the address: same kind, same token, never more than is sent. */
  ghost predicate RecordsWhatIsSent(job: Job, ann: Announcement, a: Asset)
    requires job.Valid()
  {
    var p := PreparedPlan(job);
    && a == AssetFor(job, ann.identifier)
    && (forall c | c in p.commands :: c.kind == a.Kind() && (a.NativeAsset? || c.token == a.token))
    && (job.kind != ERC721 ==>
          var received := Flow(p.commands, Into(ann.stealth));
          0 < a.balance <= received && (a.balance == received <==> Times(AllOuts(job, |job.shards|), ann.stealth) == 1))
  }

  lemma SentIsRecorded(job: Job, ann: Announcement)
    requires job.Valid() && ann in PreparedPlan(job).announcements
    ensures RecordsWhatIsSent(job, ann, AssetFor(job, ann.identifier))
  {
    hide PreparedPlan, Times, AllOuts, Flow;
    PlanNamesOneAsset(job);
    if job.kind != ERC721 { AnnouncedAmountAgainstReceived(job, ann); }
  }

  /** Whoever parses an announcement of a plan with the secret it was packed under records the asset that the plan sends. */
  lemma ReceiverParsesWhatIsSent(job: Job, ann: Announcement, secret: seq<byte>, c: Cipher)
    requires job.Valid() && ann in PreparedPlan(job).announcements && Announceable(ann)
    requires Ideal(c) && |secret| > 0
    ensures Packable(InfoOf(ann))
    ensures var parsed := Parse(Header(secret[0], InfoOf(ann)), secret, c);
      && parsed.Some? && |parsed.value.assets| == 1
      && RecordsWhatIsSent(job, ann, AssetOf(parsed.value.assets[0]))
  {
    hide PreparedPlan, Header, Parse, Meaning, ToBytes, Pow256, InfoOf, RecordsWhatIsSent;
    AnnouncedInfo(job, ann);
    SentIsRecorded(job, ann);
    var info := InfoOf(ann);
    ParseAfterPack(secret, info, [], seq(IV, _ => 0), c, secret);
    assert Header(secret[0], info) + [] == Header(secret[0], info);
  }

  /** The same through trial decryption: the wallet the address was generated for discovers it with the asset the plan sends. */
  lemma RecipientDiscoversWhatIsSent<P(!new)>(curve: Stealth.Curve<P>, k: Stealth.Keys<P>, cipher: Cipher, ephemeralKey: seq<byte>,
                                              job: Job, ann: Announcement)
    requires job.Valid() && ann in PreparedPlan(job).announcements && Announceable(ann)
    requires Stealth.Laws(curve) && Stealth.ValidKeys(curve, k) && Ideal(cipher)
    requires var st := Stealth.Generate(curve, k.spending, k.viewing, ephemeralKey);
      st.Ok? && st.value.address == ann.stealth
    ensures Packable(InfoOf(ann))
    ensures var st := Stealth.Generate(curve, k.spending, k.viewing, ephemeralKey).value;
      var found := Stealth.TrialDecrypt(curve, k, cipher, st.ephemeral, Header(st.secret[0], InfoOf(ann)));
      && found.Some? && found.value.address == ann.stealth && |found.value.assets| == 1
      && RecordsWhatIsSent(job, ann, AssetOf(found.value.assets[0]))
  {
    hide PreparedPlan, Header, Meaning, InfoOf, RecordsWhatIsSent, ToBytes, Pow256, Stealth.Laws, Stealth.ValidKeys, Ideal, Stealth.Generate,
         Stealth.TrialDecrypt;
    AnnouncedInfo(job, ann);
    SentIsRecorded(job, ann);
    var info, iv := InfoOf(ann), seq(IV, _ => 0);
    Stealth.AnnouncedAssetIsDiscovered(curve, k, cipher, ephemeralKey, info, [], iv);
    var st := Stealth.Generate(curve, k.spending, k.viewing, ephemeralKey).value;
    assert Header(st.secret[0], info) + [] == Header(st.secret[0], info);
  }

  /** A private NFT transfer announces its one address with the id that its one command carries. */
  lemma NftIsAnnounced(job: Job, tokenId: int)
    requires NftJob(job, tokenId) && job.mode.Private?
    ensures var p := PreparedPlan(job);
      && |p.commands| == 1
      && p.announcements == [Announcement(p.commands[0].to, ERC721, p.commands[0].token, p.commands[0].value)]
      && p.commands[0].value == tokenId
  {
    hide PayOuts, RowPay, RowChange, Fused, PayTarget, CommandsUpTo, AnnouncedOuts, ChangeUpTo, AnnounceAll;
    NftPlan(job, tokenId);
    var o := Out(PayTarget(job, 0, 0), tokenId);
    OneAnnounced(job, tokenId);
    AnnounceOne(job, [], o);
    assert Announce(job, [], o) == [Announcement(o.to, job.kind, job.token, tokenId)];
  }

  lemma OneAnnounced(job: Job, tokenId: int)
    requires NftJob(job, tokenId) && job.mode.Private?
    ensures AnnouncedOuts(job, 1) == [Out(PayTarget(job, 0, 0), tokenId)]
  {
    hide PayOuts, RowPay, RowChange, PayTarget;
    NftOuts(job, tokenId);
    assert AnnouncedOuts(job, 0) == [];
    assert AnnouncedOuts(job, 1) == [] + RowPay(job, 0) + RowChange(job, 0) == RowPay(job, 0) + RowChange(job, 0);
  }
}
