/** Stealth addresses over a cyclic group (keys.ts, stealth.ts), and their discovery (discovery.ts). */
module Stealth {
  import opened Arithmetic
  import opened Seqs
  import opened Protocol
  import opened Bytes
  import opened Metadata

  /** A hash value. */
  type Digest = d: seq<byte> | |d| == 32 witness seq(32, _ => 0)

  /**
   A curve as far as the scheme looks at it: the order, the base point, addition and scalar multiplication, the
   hash of a point's x-coordinate and the address of a point.
  */
  datatype Curve<!P> = Curve(
    order: nat,
    base: P,
    add: (P, P) -> P,
    mul: (nat, P) -> P,
    digest: P -> Digest,
    address: P -> Address)

  /** The base generates a cyclic group of the order, and scalars fit 32 bytes. */
  ghost predicate Laws<P(!new)>(c: Curve<P>) {
    && 1 < c.order <= Pow256(32)
    && (forall a: nat, b: nat :: c.mul(a, c.base) == c.mul(b, c.base) <==> a % c.order == b % c.order)
    && (forall a: nat, b: nat :: c.add(c.mul(a, c.base), c.mul(b, c.base)) == c.mul(a + b, c.base))
    && (forall a: nat, b: nat :: c.mul(a, c.mul(b, c.base)) == c.mul(a * b, c.base))
  }

  predicate ValidScalar<P>(c: Curve<P>, k: nat) { 0 < k < c.order }

  /** `getPublicKey`: throws on an invalid scalar. */
  function PublicKey<P>(c: Curve<P>, key: seq<byte>): Result<P, string> {
    var k := FromBytes(key);
    if ValidScalar(c, k) then Ok(c.mul(k, c.base)) else Err("invalid private key")
  }

  /** `computeSharedSecret`. */
  function SharedSecret<P>(c: Curve<P>, key: seq<byte>, point: P): Result<Digest, string> {
    var k := FromBytes(key);
    if ValidScalar(c, k) then Ok(c.digest(c.mul(k, point))) else Err("invalid private key")
  }

  /** `deriveStealthPublicKey`: throws on an invalid scalar and on the point at infinity. */
  function StealthPoint<P(==)>(c: Curve<P>, spending: P, secret: Digest): Result<P, string> {
    var h := FromBytes(secret);
    if !ValidScalar(c, h) then Err("invalid scalar")
    else
      var p := c.add(spending, c.mul(h, c.base));
      if p == c.mul(0, c.base) then Err("point at infinity") else Ok(p)
  }

  /** `deriveShardPrivateKey`. */
  function ShardKey<P>(c: Curve<P>, spendingKey: seq<byte>, secret: Digest): seq<byte>
    requires c.order > 0
  {
    ToBytes((FromBytes(spendingKey) + FromBytes(secret)) % c.order, 32)
  }

  datatype Stealth<!P> = Stealth(address: Address, ephemeral: P, secret: Digest)

  /** `generateStealthAddress` with a given ephemeral key. */
  function Generate<P(==)>(c: Curve<P>, spending: P, viewing: P, ephemeralKey: seq<byte>): Result<Stealth<P>, string> {
    match (PublicKey(c, ephemeralKey), SharedSecret(c, ephemeralKey, viewing))
    case (Ok(e), Ok(secret)) => (
      match StealthPoint(c, spending, secret)
      case Ok(p) => Ok(Stealth(c.address(p), e, secret))
      case Err(x) => Err(x))
    case (_, _) => Err("invalid private key")
  }

  /** A wallet: two valid keys and their points. */
  datatype Keys<!P> = Keys(spendingKey: seq<byte>, viewingKey: seq<byte>, spending: P, viewing: P)

  ghost predicate ValidKeys<P(!new)>(c: Curve<P>, k: Keys<P>) {
    PublicKey(c, k.spendingKey) == Ok(k.spending) && PublicKey(c, k.viewingKey) == Ok(k.viewing)
  }

  // The laws, one at a time

  lemma OrderFits<P(!new)>(c: Curve<P>)
    requires Laws(c)
    ensures 1 < c.order <= Pow256(32)
  {}

  lemma SamePoint<P(!new)>(c: Curve<P>, a: nat, b: nat)
    requires Laws(c)
    ensures c.order > 0 && (c.mul(a, c.base) == c.mul(b, c.base) <==> a % c.order == b % c.order)
  {}

  lemma AddPoints<P(!new)>(c: Curve<P>, a: nat, b: nat)
    requires Laws(c)
    ensures c.add(c.mul(a, c.base), c.mul(b, c.base)) == c.mul(a + b, c.base)
  {}

  lemma MultiplyPoint<P(!new)>(c: Curve<P>, a: nat, b: nat)
    requires Laws(c)
    ensures c.mul(a, c.mul(b, c.base)) == c.mul(b, c.mul(a, c.base))
  {
    var ab, ba := a * b, b * a;
    assert ab == ba;
    assert c.mul(a, c.mul(b, c.base)) == c.mul(ab, c.base);
  }

  lemma ProductPoint<P(!new)>(c: Curve<P>, a: nat, b: nat)
    requires Laws(c)
    ensures c.mul(a, c.mul(b, c.base)) == c.mul(a * b, c.base)
  {}

  /** Both sides compute one secret: e(vG) = v(eG). */
  lemma SecretsAgree<P(!new)>(c: Curve<P>, k: Keys<P>, ephemeralKey: seq<byte>)
    requires Laws(c) && ValidKeys(c, k) && PublicKey(c, ephemeralKey).Ok?
    ensures SharedSecret(c, ephemeralKey, k.viewing)
         == SharedSecret(c, k.viewingKey, PublicKey(c, ephemeralKey).value)
  {
    hide Laws, FromBytes;
    MultiplyPoint(c, FromBytes(ephemeralKey), FromBytes(k.viewingKey));
  }

  /** The secret of an ephemeral key and a wallet, by the product of the two private keys. */
  function SecretOf<P>(c: Curve<P>, k: Keys<P>, ephemeralKey: seq<byte>): Digest {
    c.digest(c.mul(FromBytes(ephemeralKey) * FromBytes(k.viewingKey), c.base))
  }

  /** The secret of ephemeral key e and viewing key v is the digest of the point (e * v)G: no other pair of keys enters it. */
  lemma SecretIsDigestOfProduct<P(!new)>(c: Curve<P>, k: Keys<P>, ephemeralKey: seq<byte>)
    requires Laws(c) && ValidKeys(c, k) && PublicKey(c, ephemeralKey).Ok?
    ensures SharedSecret(c, ephemeralKey, k.viewing) == Ok(SecretOf(c, k, ephemeralKey))
  {
    hide Laws, FromBytes;
    ProductPoint(c, FromBytes(ephemeralKey), FromBytes(k.viewingKey));
  }

  /**
   The derived key is the private key of the stealth point. It is derived exactly when the digest is a valid
   scalar and does not cancel the spending key.
  */
  lemma ShardKeyOpensStealthPoint<P(!new)>(c: Curve<P>, k: Keys<P>, secret: Digest)
    requires Laws(c) && ValidKeys(c, k)
    ensures var s, h := FromBytes(k.spendingKey), FromBytes(secret);
      c.order > 0 && (StealthPoint(c, k.spending, secret).Ok? <==> 0 < h < c.order && (s + h) % c.order != 0)
    ensures StealthPoint(c, k.spending, secret).Ok? ==>
      |ShardKey(c, k.spendingKey, secret)| == 32
      && PublicKey(c, ShardKey(c, k.spendingKey, secret)) == StealthPoint(c, k.spending, secret)
  {
    hide Laws, FromBytes, ToBytes, Pow256;
    OrderFits(c);
    var sum := FromBytes(k.spendingKey) + FromBytes(secret);
    var key := sum % c.order;
    AddPoints(c, FromBytes(k.spendingKey), FromBytes(secret));
    Remainders(sum, c.order);
    SamePoint(c, sum, 0);
    SamePoint(c, key, sum);
    SmallNumberComesBack(key);
  }

  lemma SmallNumberComesBack(n: nat)
    requires n < Pow256(32)
    ensures FromBytes(ToBytes(n, 32)) == n
  {
    DecodeEncode(n, 32);
    DivisionIsUnique(n, Pow256(32), 0, n);
  }

  lemma Remainders(x: nat, n: nat)
    requires n > 0
    ensures x % n < n && (x % n) % n == x % n && 0 % n == 0
  {}

  /** Whoever generates an address for a wallet, the wallet finds the same address and holds its key. */
  lemma RecipientOwnsEveryGeneratedAddress<P(!new)>(c: Curve<P>, k: Keys<P>, ephemeralKey: seq<byte>)
    requires Laws(c) && ValidKeys(c, k) && Generate(c, k.spending, k.viewing, ephemeralKey).Ok?
    ensures var st := Generate(c, k.spending, k.viewing, ephemeralKey).value;
      && SharedSecret(c, k.viewingKey, st.ephemeral) == Ok(st.secret)
      && StealthPoint(c, k.spending, st.secret).Ok?
      && c.address(StealthPoint(c, k.spending, st.secret).value) == st.address
      && PublicKey(c, ShardKey(c, k.spendingKey, st.secret)) == StealthPoint(c, k.spending, st.secret)
  {
    SecretsAgree(c, k, ephemeralKey);
    ShardKeyOpensStealthPoint(c, k, Generate(c, k.spending, k.viewing, ephemeralKey).value.secret);
  }

  /** The digest is a valid scalar and does not cancel the spending key. */
  predicate Opens<P>(c: Curve<P>, k: Keys<P>, secret: Digest) {
    0 < FromBytes(secret) < c.order && (FromBytes(k.spendingKey) + FromBytes(secret)) % c.order != 0
  }

  lemma OpensExactly<P(!new)>(c: Curve<P>, k: Keys<P>, secret: Digest)
    requires Laws(c) && ValidKeys(c, k)
    ensures StealthPoint(c, k.spending, secret).Ok? <==> Opens(c, k, secret)
    ensures Opens(c, k, secret) ==>
      StealthPoint(c, k.spending, secret).value == c.mul(FromBytes(k.spendingKey) + FromBytes(secret), c.base)
  {
    hide Laws, FromBytes;
    ShardKeyOpensStealthPoint(c, k, secret);
    AddPoints(c, FromBytes(k.spendingKey), FromBytes(secret));
  }

  /**
   An address is generated exactly when the ephemeral key is valid, and the digest of the shared point is a valid scalar that
   does not cancel the spending key; the address is then that of the spending point plus the digest times the base.
  */
  lemma GeneratedExactly<P(!new)>(c: Curve<P>, k: Keys<P>, ephemeralKey: seq<byte>)
    requires Laws(c) && ValidKeys(c, k)
    ensures var secret, g := SecretOf(c, k, ephemeralKey), Generate(c, k.spending, k.viewing, ephemeralKey);
      && (g.Ok? <==> 0 < FromBytes(ephemeralKey) < c.order && Opens(c, k, secret))
      && (g.Ok? ==>
            && g.value.address == c.address(c.mul(FromBytes(k.spendingKey) + FromBytes(secret), c.base))
            && g.value.ephemeral == c.mul(FromBytes(ephemeralKey), c.base)
            && g.value.secret == secret)
  {
    hide Laws, FromBytes, StealthPoint, Opens;
    if PublicKey(c, ephemeralKey).Ok? {
      SecretIsDigestOfProduct(c, k, ephemeralKey);
      OpensExactly(c, k, SecretOf(c, k, ephemeralKey));
    }
  }

  // Key normalization

  function Rehashed(hash: seq<byte> -> seq<byte>, key: seq<byte>, times: nat): seq<byte> {
    if times == 0 then key else hash(Rehashed(hash, key, times - 1))
  }

  /** Candidate n + 1 of a key is candidate n of its hash, and candidate 0 is the key itself. */
  lemma {:induction false} CandidatesAreHashes(hash: seq<byte> -> seq<byte>, key: seq<byte>, n: nat)
    ensures Rehashed(hash, key, 0) == key && Rehashed(hash, key, n + 1) == Rehashed(hash, hash(key), n)
  {
    if n > 0 { CandidatesAreHashes(hash, key, n - 1); }
  }

  /** `normalizePrivateKey`: the first of 100 candidates that is a valid scalar. */
  method NormalizePrivateKey<P>(c: Curve<P>, hash: seq<byte> -> seq<byte>, key: seq<byte>) returns (r: Result<seq<byte>, string>)
    ensures r.Ok? ==> exists i: nat | i < 100 ::
      && r.value == Rehashed(hash, key, i) && ValidScalar(c, FromBytes(r.value))
      && forall j: nat | j < i :: !ValidScalar(c, FromBytes(Rehashed(hash, key, j)))
    ensures r.Err? ==> forall j: nat | j < 100 :: !ValidScalar(c, FromBytes(Rehashed(hash, key, j)))
  {
    var candidate := key;
    for i := 0 to 100
      invariant candidate == Rehashed(hash, key, i)
      invariant forall j: nat | j < i :: !ValidScalar(c, FromBytes(Rehashed(hash, key, j)))
    {
      var k := BytesToBigInt(candidate);
      if ValidScalar(c, k) { return Ok(candidate); }
      candidate := hash(candidate);
    }
    return Err("normalizePrivateKey failed after 100 iterations");
  }

  // Discovery

  datatype Found = Found(address: Address, assets: seq<ParsedAsset>, sender: Option<seq<byte>>)

  /** Trial decryption of one announcement; anything that throws finds nothing. */
  function TrialDecrypt<P(==)>(c: Curve<P>, k: Keys<P>, cipher: Cipher, ephemeral: P, meta: seq<byte>): Option<Found>
  {
    match SharedSecret(c, k.viewingKey, ephemeral)
    case Err(_) => None
    case Ok(secret) =>
      if meta == [] || meta[0] != secret[0] then None
      else
        match StealthPoint(c, k.spending, secret)
        case Err(_) => None
        case Ok(p) =>
          match Parse(meta, secret, cipher)
          case None => Some(Found(c.address(p), [], None))
          case Some(parsed) => Some(Found(c.address(p), parsed.assets, parsed.sender))
  }

  /**
   An asset announced to a wallet is discovered by it: the address generated by the sender comes out of trial
   decryption with exactly the asset that was packed, and with the sender's text under the nonce condition.
  */
  lemma AnnouncedAssetIsDiscovered<P(!new)>(c: Curve<P>, k: Keys<P>, cipher: Cipher, ephemeralKey: seq<byte>,
                                            info: AssetInfo, sender: seq<byte>, iv: seq<byte>)
    requires Laws(c) && ValidKeys(c, k) && Ideal(cipher) && Packable(info) && |iv| == IV
    requires Generate(c, k.spending, k.viewing, ephemeralKey).Ok?
    ensures var st := Generate(c, k.spending, k.viewing, ephemeralKey).value;
      var meta := Header(st.secret[0], info) + if sender == [] then [] else iv + cipher.encrypt(st.secret, iv, sender);
      var found := TrialDecrypt(c, k, cipher, st.ephemeral, meta);
      && found.Some? && found.value.address == st.address && found.value.assets == [Meaning(info)]
      && (sender != [] ==> (found.value.sender == Some(sender) <==> |sender| <= 26 || iv[0] != st.secret[0]))
  {
    hide Header, Parse, Meaning, Packable, Laws, ValidKeys, Ideal, ShardKey, FromBytes;
    RecipientOwnsEveryGeneratedAddress(c, k, ephemeralKey);
    var st := Generate(c, k.spending, k.viewing, ephemeralKey).value;
    ParseAfterPack(st.secret, info, sender, iv, cipher, st.secret);
    StartsWithTag(st.secret[0], info);
  }

  lemma StartsWithTag(tag: byte, info: AssetInfo)
    requires Packable(info)
    ensures |Header(tag, info)| > 0 && Header(tag, info)[0] == tag
  {}

  /**
   Trial decryption finds something exactly when the metadata starts with the first byte of the secret and a key is derived; what it
   finds is at the wallet's own stealth point. Any other view tag, and no metadata at all, find nothing.
  */
  lemma FoundExactly<P(!new)>(c: Curve<P>, k: Keys<P>, cipher: Cipher, ephemeral: P, meta: seq<byte>)
    requires Laws(c) && ValidKeys(c, k)
    ensures var secret := c.digest(c.mul(FromBytes(k.viewingKey), ephemeral));
      var found := TrialDecrypt(c, k, cipher, ephemeral, meta);
      && (found.Some? <==> meta != [] && meta[0] == secret[0] && Opens(c, k, secret))
      && (found.Some? ==> found.value.address == c.address(c.mul(FromBytes(k.spendingKey) + FromBytes(secret), c.base)))
      && (found.Some? && |meta| < HEADER ==> found.value.assets == [] && found.value.sender == None)
  {
    hide Laws, FromBytes, StealthPoint, Opens;
    OpensExactly(c, k, c.digest(c.mul(FromBytes(k.viewingKey), ephemeral)));
  }
}
