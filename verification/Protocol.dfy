/** Entities shared by the SDK, the router and the services. */
module Protocol {

  /** Accounts and token contracts. Hex spellings of one address count as one address. */
  type Address = nat

  const ZERO_ADDRESS: Address := 0

  datatype AssetKind = Native | ERC20 | ERC721

  /** What one shard is recorded to hold. */
  datatype Asset =
    | NativeAsset(balance: int)
    | ERC20Asset(token: Address, balance: int)
    | ERC721Asset(token: Address, balance: int, tokenIds: seq<int>)
  {
    function Kind(): AssetKind {
      match this
      case NativeAsset(_) => Native
      case ERC20Asset(_, _) => ERC20
      case ERC721Asset(_, _, _) => ERC721
    }
  }

  datatype Shard = Shard(address: Address, spent: bool, pending: bool, assets: seq<Asset>)

  /** One transfer out of a shard. For ERC721 the value is the token id. */
  datatype Command = Command(shard: Address, kind: AssetKind, token: Address, to: Address, value: int)
}
