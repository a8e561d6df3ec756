/** The metadata of an announcement: packing, parsing and the encrypted sender (announce.ts, discovery.ts). */
module Metadata {
  import opened Arithmetic
  import opened Seqs
  import opened Protocol
  import opened Bytes

  const HEADER := 54
  const IV := 12
  const TAG := 16

  /** What the sender wants to say about the asset. Fields left out default to zero. */
  datatype AssetInfo = AssetInfo(kind: AssetKind, token: Option<seq<byte>>, amount: Option<int>, tokenId: Option<int>)

  /** What the receiver reads. */
  datatype ParsedAsset =
    | ParsedNative(balance: nat)
    | ParsedERC20(token: seq<byte>, balance: nat)
    | ParsedERC721(token: seq<byte>, tokenId: nat)

  datatype Parsed = Parsed(assets: seq<ParsedAsset>, sender: Option<seq<byte>>)

  /** AES-GCM under the key derived from a shared secret. */
  datatype Cipher = Cipher(
    encrypt: (seq<byte>, seq<byte>, seq<byte>) -> seq<byte>,
    decrypt: (seq<byte>, seq<byte>, seq<byte>) -> Option<seq<byte>>)

  /** Decryption undoes encryption, and a text and its encryption always differ by the 16-byte tag in length. */
  ghost predicate Ideal(c: Cipher) {
    && (forall secret, iv, text :: |c.encrypt(secret, iv, text)| == |text| + TAG)
    && (forall secret, iv, text :: c.decrypt(secret, iv, c.encrypt(secret, iv, text)) == Some(text))
    && (forall secret, iv, sealed :: c.decrypt(secret, iv, sealed).Some? ==>
          |sealed| == |c.decrypt(secret, iv, sealed).value| + TAG)
  }

  // Packing

  function Zeros(n: nat): (z: seq<byte>)
    ensures |z| == n && forall k | 0 <= k < n :: z[k] == 0
  {
    seq(n, _ => 0)
  }

  function TypeByte(kind: AssetKind): byte {
    match kind case Native => 0 case ERC20 => 1 case ERC721 => 2
  }

  function TokenBytes(info: AssetInfo): seq<byte> {
    if info.kind == Native || info.token.None? then Zeros(20) else info.token.value
  }

  function Identifier(info: AssetInfo): int {
    var field := if info.kind == ERC721 then info.tokenId else info.amount;
    if field.Some? then field.value else 0
  }

  /** A whole range of an array overwritten. */
  function Overlay(base: seq<byte>, bytes: seq<byte>, offset: nat): (r: seq<byte>)
    requires offset + |bytes| <= |base|
    ensures |r| == |base|
  {
    base[..offset] + bytes + base[offset + |bytes|..]
  }

  /** `set`: writes bytes into the buffer from an offset on. */
  method SetAt(buffer: array<byte>, bytes: seq<byte>, offset: nat)
    requires offset + |bytes| <= buffer.Length
    modifies buffer
    ensures buffer[..] == Overlay(old(buffer[..]), bytes, offset)
  {
    for k := 0 to |bytes|
      invariant forall j | 0 <= j < k :: buffer[offset + j] == bytes[j]
      invariant forall j | 0 <= j < offset || offset + k <= j < buffer.Length :: buffer[j] == old(buffer[j])
    {
      buffer[offset + k] := bytes[k];
    }
    ghost var whole := Overlay(old(buffer[..]), bytes, offset);
    forall j | 0 <= j < buffer.Length ensures buffer[..][j] == whole[j] {
      if offset <= j < offset + |bytes| { assert buffer[offset + (j - offset)] == bytes[j - offset]; }
    }
  }

  /** The 54-byte header for a token of 20 bytes and an identifier that fits 32. */
  function Header(tag: byte, info: AssetInfo): (h: seq<byte>)
    requires 0 <= Identifier(info) < Pow256(32)
  {
    [tag, TypeByte(info.kind)] + TokenBytes(info) + ToBytes(Identifier(info), 32)
  }

  predicate Packable(info: AssetInfo) {
    |TokenBytes(info)| == 20 && 0 <= Identifier(info) < Pow256(32)
  }

  /** The header buffer, written field by field at its offsets. */
  method BuildHeader(tag: byte, info: AssetInfo) returns (metadata: array<byte>)
    requires Packable(info)
    ensures fresh(metadata) && metadata[..] == Header(tag, info)
  {
    hide ToBytes, TokenBytes, Identifier;
    var token := TokenBytes(info);
    var identifierBytes := BigIntToBytes(Identifier(info), 32);
    metadata := new byte[HEADER](_ => 0);
    metadata[0] := tag;
    metadata[1] := TypeByte(info.kind);
    SetAt(metadata, token, 2);
    SetAt(metadata, identifierBytes[..], 22);
    assert metadata[..] == [tag, TypeByte(info.kind)] + token + identifierBytes[..];
  }

  /** Header, nonce and ciphertext in one buffer. */
  method Assemble(header: seq<byte>, iv: seq<byte>, ciphertext: seq<byte>) returns (whole: seq<byte>)
    ensures whole == header + (iv + ciphertext)
  {
    hide Overlay;
    var withSender := new byte[|header| + |iv| + |ciphertext|](_ => 0);
    ghost var zeros := withSender[..];
    SetAt(withSender, header, 0);
    SetAt(withSender, iv, |header|);
    SetAt(withSender, ciphertext, |header| + |iv|);
    whole := withSender[..];
    ThreeParts(zeros, header, iv, ciphertext);
  }

  /** Writing three parts one behind another over a buffer of their joint length. */
  lemma ThreeParts(base: seq<byte>, a: seq<byte>, b: seq<byte>, c: seq<byte>)
    requires |base| == |a| + |b| + |c|
    ensures Overlay(Overlay(Overlay(base, a, 0), b, |a|), c, |a| + |b|) == a + (b + c)
  {
    hide Overlay;
    WriteNext(base, [], a);
    WriteNext(Overlay(base, a, 0), a, b);
    WriteNext(Overlay(Overlay(base, a, 0), b, |a|), a + b, c);
    ConcatAssociates(a, b, c);
    var whole := Overlay(Overlay(Overlay(base, a, 0), b, |a|), c, |a| + |b|);
    assert whole[..|whole|] == whole;
  }

  /** Writing right behind what is written extends it. */
  lemma WriteNext(base: seq<byte>, written: seq<byte>, bytes: seq<byte>)
    requires |written| + |bytes| <= |base| && base[..|written|] == written
    ensures Overlay(base, bytes, |written|)[..|written| + |bytes|] == written + bytes
  {}

  /** `packMetadata`. The token is an address, so 20 bytes; an identifier that is negative or too wide throws. */
  method PackMetadata(secret: seq<byte>, info: Option<AssetInfo>, sender: seq<byte>, iv: seq<byte>, c: Cipher)
    returns (r: Result<seq<byte>, string>)
    requires |secret| > 0 && |iv| == IV
    requires info.Some? ==> |TokenBytes(info.value)| == 20
    ensures info.None? ==> r == Ok([secret[0]])
    ensures info.Some? ==> (r.Ok? <==> Packable(info.value))
    ensures info.Some? && r.Ok? ==>
      r.value == Header(secret[0], info.value) + if sender == [] then [] else iv + c.encrypt(secret, iv, sender)
  {
    hide ToBytes;
    if info.None? { return Ok([secret[0]]); }
    var identifier := Identifier(info.value);
    if identifier < 0 || identifier >= Pow256(32) { return Err("Number out of range"); }
    var metadata := BuildHeader(secret[0], info.value);
    if |sender| == 0 { return Ok(metadata[..]); }
    var whole := Assemble(metadata[..], iv, c.encrypt(secret, iv, sender));
    r := Ok(whole);
  }

  // Parsing

  /** A slice that stops at the end of the bytes. */
  function Slice(bytes: seq<byte>, from: nat, to: nat): seq<byte>
    requires from <= to
  {
    var end := if to <= |bytes| then to else |bytes|;
    if from <= end then bytes[from..end] else []
  }

  /** `decryptMetadataPayload`, with its guess that a payload starting with the view tag carries a header. */
  function DecryptPayload(payload: seq<byte>, secret: seq<byte>, c: Cipher): Option<seq<byte>>
    requires |secret| > 0
  {
    var offset := if |payload| > HEADER && payload[0] == secret[0] then HEADER else 0;
    var iv := Slice(payload, offset, offset + IV);
    var ciphertext := if offset + IV <= |payload| then payload[offset + IV..] else [];
    c.decrypt(secret, iv, ciphertext)
  }

  function ParseAsset(meta: seq<byte>): ParsedAsset
    requires |meta| >= HEADER
  {
    var identifier := FromBytes(meta[22..HEADER]);
    if meta[1] == 2 then ParsedERC721(meta[2..22], identifier)
    else if meta[1] == 1 then ParsedERC20(meta[2..22], identifier)
    else ParsedNative(identifier)
  }

  /** `parseAssetMetadata`. */
  function Parse(meta: seq<byte>, secret: seq<byte>, c: Cipher): Option<Parsed>
    requires |secret| > 0
  {
    if |meta| < 1 || meta[0] != secret[0] then None
    else if |meta| < HEADER then Some(Parsed([], None))
    else Some(Parsed([ParseAsset(meta)],
                     if |meta| >= HEADER + IV + TAG then DecryptPayload(meta[HEADER..], secret, c) else None))
  }

  /** The asset the sender meant. */
  function Meaning(info: AssetInfo): ParsedAsset
    requires Packable(info)
  {
    match info.kind
    case Native => ParsedNative(Identifier(info))
    case ERC20 => ParsedERC20(TokenBytes(info), Identifier(info))
    case ERC721 => ParsedERC721(TokenBytes(info), Identifier(info))
  }

  /**
   The sender's text comes back exactly when it has at most 26 bytes or the first byte of the nonce is not the
   view tag: otherwise the payload looks as if it had a header and the wrong bytes are decrypted.
  */
  lemma SenderComesBackExactly(secret: seq<byte>, iv: seq<byte>, sender: seq<byte>, c: Cipher)
    requires Ideal(c) && |secret| > 0 && |iv| == IV
    ensures DecryptPayload(iv + c.encrypt(secret, iv, sender), secret, c) == Some(sender)
       <==> |sender| <= 26 || iv[0] != secret[0]
  {
    var sealed := c.encrypt(secret, iv, sender);
    var payload := iv + sealed;
    assert |payload| == IV + |sender| + TAG;
    if |sender| <= 26 || iv[0] != secret[0] {
      assert Slice(payload, 0, IV) == iv && payload[IV..] == sealed;
    }
  }

  lemma Fields(a: seq<byte>, token: seq<byte>, id: seq<byte>, rest: seq<byte>)
    requires |a| == 2 && |token| == 20 && |id| == 32
    ensures var meta := a + token + id + rest;
      && |a + token + id| == HEADER && meta[0] == a[0] && meta[1] == a[1]
      && meta[2..22] == token && meta[22..HEADER] == id && meta[HEADER..] == rest
  {}

  lemma HeaderSlices(tag: byte, info: AssetInfo, rest: seq<byte>)
    requires Packable(info)
    ensures var meta := Header(tag, info) + rest;
      && |Header(tag, info)| == HEADER && meta[0] == tag && meta[1] == TypeByte(info.kind)
      && meta[2..22] == TokenBytes(info) && meta[22..HEADER] == ToBytes(Identifier(info), 32) && meta[HEADER..] == rest
  {
    hide TokenBytes, Identifier, ToBytes, TypeByte, Pow256;
    Fields([tag, TypeByte(info.kind)], TokenBytes(info), ToBytes(Identifier(info), 32), rest);
  }

  /** The fields at their offsets are read as the asset that was meant. */
  lemma AssetComesBack(meta: seq<byte>, info: AssetInfo)
    requires Packable(info) && |meta| >= HEADER && meta[1] == TypeByte(info.kind)
    requires meta[2..22] == TokenBytes(info) && meta[22..HEADER] == ToBytes(Identifier(info), 32)
    ensures ParseAsset(meta) == Meaning(info)
  {
    hide ToBytes, FromBytes, Pow256;
    DecodeEncode(Identifier(info), 32);
    DivisionIsUnique(Identifier(info), Pow256(32), 0, Identifier(info));
  }

  /**
   Round trip: whatever asset was packed is parsed back with the same secret, and the sender with it, under the exact
   condition above. With no sender nothing is decrypted. A secret with another first byte is rejected.
  */
  lemma ParseAfterPack(secret: seq<byte>, info: AssetInfo, sender: seq<byte>, iv: seq<byte>, c: Cipher, other: seq<byte>)
    requires Ideal(c) && |secret| > 0 && |iv| == IV && Packable(info) && |other| > 0
    ensures var meta := Header(secret[0], info) + if sender == [] then [] else iv + c.encrypt(secret, iv, sender);
      && Parse(meta, secret, c).Some?
      && Parse(meta, secret, c).value.assets == [Meaning(info)]
      && (sender == [] ==> Parse(meta, secret, c).value.sender == None)
      && (sender != [] ==>
            (Parse(meta, secret, c).value.sender == Some(sender) <==> |sender| <= 26 || iv[0] != secret[0]))
      && (other[0] != secret[0] ==> Parse(meta, other, c) == None)
  {
    hide Header, DecryptPayload, ToBytes, FromBytes, Pow256, TokenBytes, Identifier;
    var rest := if sender == [] then [] else iv + c.encrypt(secret, iv, sender);
    HeaderSlices(secret[0], info, rest);
    AssetComesBack(Header(secret[0], info) + rest, info);
    if sender != [] { SenderComesBackExactly(secret, iv, sender, c); }
  }

  /**
   Any bytes at all: they are read exactly when they start with the view tag. Too short for a header they name no asset; otherwise they
   name one, ether unless the type byte says 1 or 2.
  */
  lemma AnyBytesAreRead(meta: seq<byte>, secret: seq<byte>, c: Cipher)
    requires |secret| > 0
    ensures Parse(meta, secret, c).Some? <==> meta != [] && meta[0] == secret[0]
    ensures Parse(meta, secret, c).Some? ==>
      var assets := Parse(meta, secret, c).value.assets;
      if |meta| < 54 then assets == []
      else
        |assets| == 1
        && (meta[1] !in {1, 2} ==> assets[0] == ParsedNative(FromBytes(meta[22..54])))
        && (meta[1] == 1 ==> assets[0] == ParsedERC20(meta[2..22], FromBytes(meta[22..54])))
        && (meta[1] == 2 ==> assets[0] == ParsedERC721(meta[2..22], FromBytes(meta[22..54])))
  {
    hide FromBytes, DecryptPayload;
  }
}
