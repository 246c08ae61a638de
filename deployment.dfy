/**
 * The deployment both test suites start from: a fresh registry and a fresh marketplace
 * deployed by the first signer, with every signer having approved the marketplace as an
 * operator of its tokens.
 */
module Deployment {
  import opened Common
  import opened Registry
  import opened Market

  /** The three signers of the test suites and the marketplace's own address. */
  const Owner: Address := 1
  const Bob: Address := 2
  const Alice: Address := 3
  const MarketAddress: Address := 100

  /** One ether in wei, the listing price used throughout the suites. */
  const OneEther: nat := 1_000_000_000_000_000_000

  method DeployContracts() returns (nft: Nft, market: Marketplace)
    ensures fresh(nft) && fresh(market)
    ensures nft.Valid() && market.Valid()
    ensures nft.tokenId == 0 && nft.owners == map[] && nft.balances == map[] && nft.creators == map[]
    ensures !nft.paused
    ensures nft.IsApprovedForAll(Owner, MarketAddress) && nft.IsApprovedForAll(Bob, MarketAddress)
            && nft.IsApprovedForAll(Alice, MarketAddress)
    ensures market.address == MarketAddress && market.owner == Owner
    ensures market.marketItemId == 0 && market.items == map[] && market.balances == map[]
  {
    market := new Marketplace(MarketAddress, Owner);
    nft := new Nft();
    var o := nft.SetApprovalForAll(Owner, MarketAddress, true);
    assert o.Pass?;
    o := nft.SetApprovalForAll(Bob, MarketAddress, true);
    assert o.Pass?;
    o := nft.SetApprovalForAll(Alice, MarketAddress, true);
    assert o.Pass?;
  }
}
