/** The registry's test suite, one method per test case, each starting from a fresh deployment. */
module NftScenarios {
  import opened Common
  import opened Registry
  import opened Deployment

  /** Minting one token leaves the minter holding exactly that token. */
  method ShouldReturnOwnedTokens() returns (ownedTokens: seq<TokenId>, tokenId: TokenId)
    ensures ownedTokens == [tokenId]
  {
    var nft, market := DeployContracts();
    var minted := nft.Mint(Owner, "");
    assert minted == Ok(1);
    tokenId := nft.tokenId;
    MintAppendsToViews(map[], 0, Owner, Owner);
    ownedTokens := nft.GetOwnedTokens(Owner);
  }

  /** A token minted by another signer is not among the caller's created tokens. */
  method ShouldReturnCreatedTokens() returns (createdTokens: seq<TokenId>, tokenId: TokenId)
    ensures createdTokens == [tokenId]
  {
    var nft, market := DeployContracts();
    var minted := nft.Mint(Owner, "");
    assert minted == Ok(1);
    tokenId := nft.tokenId;
    MintAppendsToViews(map[], 0, Owner, Owner);
    var first := nft.creators;
    minted := nft.Mint(Bob, "");
    assert minted == Ok(2);
    MintAppendsToViews(first, 1, Bob, Owner);
    createdTokens := nft.GetCreatedTokens(Owner);
  }

  method ShouldIncrementTokenIdOnMint() returns (tokenId: TokenId)
    ensures tokenId == 1
  {
    var nft, market := DeployContracts();
    var minted := nft.Mint(Owner, "");
    assert minted == Ok(1);
    tokenId := nft.tokenId;
  }

  method ShouldSetTokenUriOnMint() returns (tokenURI: Result<string, Error>)
    ensures tokenURI == Ok("test-token-uri")
  {
    var nft, market := DeployContracts();
    var minted := nft.Mint(Owner, "test-token-uri");
    assert minted == Ok(1);
    tokenURI := nft.TokenURI(nft.tokenId);
  }

  method ShouldIncrementBalanceOnMint() returns (balanceOfOwner: Result<nat, Error>)
    ensures balanceOfOwner == Ok(1)
  {
    var nft, market := DeployContracts();
    var minted := nft.Mint(Owner, "");
    assert minted == Ok(1);
    balanceOfOwner := nft.BalanceOf(Owner);
  }

  method ShouldSetOwnerOnMint() returns (ownerAddress: Result<Address, Error>)
    ensures ownerAddress == Ok(Owner)
  {
    var nft, market := DeployContracts();
    var minted := nft.Mint(Owner, "");
    assert minted == Ok(1);
    ownerAddress := nft.OwnerOf(nft.tokenId);
  }
}
