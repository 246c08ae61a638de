/** The marketplace's test suite, one method per test case, each starting from a fresh deployment. */
module MarketplaceScenarios {
  import opened Common
  import Registry
  import opened Market
  import opened Deployment

  /** The value the suite sends to buy an item listed at `price`: price plus one percent, rounded down. */
  function SaleValue(price: nat): (value: nat)
    ensures value == SalePayment(price)
  {
    price + price * 1 / 100
  }

  /** The common opening of the sale and cancel cases: `seller` mints token 1 and lists it at one ether. */
  method ListOneToken(seller: Address) returns (nft: Registry.Nft, market: Marketplace)
    requires seller in {Owner, Bob, Alice}
    ensures fresh(nft) && fresh(market)
    ensures nft.Valid() && market.Valid()
    ensures nft.tokenId == 1 && nft.owners == map[1 := MarketAddress] && !nft.paused
    ensures forall a :: BalanceIn(nft.balances, a) == if a == MarketAddress then 1 else 0
    ensures nft.IsApprovedForAll(Owner, MarketAddress) && nft.IsApprovedForAll(Bob, MarketAddress)
            && nft.IsApprovedForAll(Alice, MarketAddress)
    ensures market.address == MarketAddress && market.owner == Owner && market.balances == map[]
    ensures market.marketItemId == 1 && market.items == map[1 := MarketItem(1, nft, 1, seller, OneEther, OnSale)]
  {
    nft, market := DeployContracts();
    var minted := nft.Mint(seller, "");
    assert minted == Ok(1);
    var r := market.CreateMarketItem(seller, nft, OneEther, nft.tokenId);
    assert r == Ok(1);
  }

  /** List, sell, relist, cancel and relist one token: one listing is left on sale. */
  method ShouldReturnMarketItemsOnSale() returns (numberOnSale: nat)
    ensures numberOnSale == 1
  {
    var nft, market := ListOneToken(Owner);
    var tokenId := nft.tokenId;
    BuyListedToken(nft, market, Owner, Bob);
    Relist(nft, market, Owner, Bob);
    CancelRelisted(nft, market, Owner, Bob);
    var r := market.CreateMarketItem(Bob, nft, OneEther, tokenId);
    assert r == Ok(3);
    numberOnSale := |market.GetOnSaleMarketItems()|;
  }

  /** The holder of token 1, sold through listing 1, lists it again at one ether, as listing 2. */
  method Relist(nft: Registry.Nft, market: Marketplace, seller: Address, holder: Address)
    requires nft.Valid() && market.Valid() && !nft.paused
    requires nft.tokenId == 1 && nft.owners == map[1 := holder] && nft.IsApprovedForAll(holder, MarketAddress)
    requires market.address == MarketAddress && market.marketItemId == 1
    requires market.items == map[1 := MarketItem(1, nft, 1, seller, OneEther, Sold)]
    requires holder != ZeroAddress && holder != MarketAddress
    modifies nft, market
    ensures nft.Valid() && market.Valid() && !nft.paused
    ensures nft.tokenId == 1 && nft.owners == map[1 := MarketAddress]
    ensures nft.operatorApprovals == old(nft.operatorApprovals)
    ensures market.address == MarketAddress && market.marketItemId == 2
    ensures market.items == old(market.items)[2 := MarketItem(2, nft, 1, holder, OneEther, OnSale)]
    ensures |market.GetOnSaleMarketItems()| == 1
  {
    var r := market.CreateMarketItem(holder, nft, OneEther, 1);
    assert r == Ok(2);
  }

  /** The seller of listing 2, the only one on sale, cancels it and gets token 1 back. */
  method CancelRelisted(nft: Registry.Nft, market: Marketplace, seller: Address, holder: Address)
    requires nft.Valid() && market.Valid() && !nft.paused
    requires nft.tokenId == 1 && nft.owners == map[1 := MarketAddress]
    requires market.address == MarketAddress && market.marketItemId == 2
    requires market.items == map[1 := MarketItem(1, nft, 1, seller, OneEther, Sold),
                                 2 := MarketItem(2, nft, 1, holder, OneEther, OnSale)]
    requires |market.GetOnSaleMarketItems()| == 1
    requires holder != ZeroAddress && holder != MarketAddress
    modifies nft, market
    ensures nft.Valid() && market.Valid() && !nft.paused
    ensures nft.tokenId == 1 && nft.owners == map[1 := holder]
    ensures nft.operatorApprovals == old(nft.operatorApprovals)
    ensures market.address == MarketAddress && market.marketItemId == 2
    ensures |market.GetOnSaleMarketItems()| == 0
  {
    var o := market.CancelMarketItem(holder, 2);
    assert o.Pass?;
  }

  method ShouldIncrementMarketItemId() returns (marketItemId: nat)
    ensures marketItemId == 1
  {
    var nft, market := ListOneToken(Owner);
    marketItemId := market.marketItemId;
  }

  method ShouldRevertCreateWhenPaused() returns (r: Result<nat, Error>)
    ensures r.Err? && Message(r.error) == "ERC721Pausable: token transfer while paused"
  {
    var nft, market := DeployContracts();
    var minted := nft.Mint(Owner, "");
    assert minted == Ok(1);
    var tokenId := nft.tokenId;
    var p := nft.Pause();
    assert p.Pass?;
    r := market.CreateMarketItem(Owner, nft, OneEther, tokenId);
  }

  method ShouldRevertCreateWithNotOwnedToken() returns (r: Result<nat, Error>)
    ensures r.Err? && Message(r.error) == "ERC721: transfer from incorrect owner"
  {
    var nft, market := DeployContracts();
    var minted := nft.Mint(Bob, "");
    assert minted == Ok(1);
    r := market.CreateMarketItem(Owner, nft, OneEther, nft.tokenId);
  }

  method ShouldRevertCreateWithZeroPrice() returns (r: Result<nat, Error>)
    ensures r.Err? && Message(r.error) == "Price must be greater than zero"
  {
    var nft, market := DeployContracts();
    var minted := nft.Mint(Owner, "");
    assert minted == Ok(1);
    r := market.CreateMarketItem(Owner, nft, 0, nft.tokenId);
  }

  /** Cancelling returns the token to the seller. */
  method ShouldCancelMarketItem() returns (tokenOwner: Result<Address, Registry.Error>)
    ensures tokenOwner == Ok(Owner)
  {
    var nft, market := ListOneToken(Owner);
    var tokenId := nft.tokenId;
    var o := market.CancelMarketItem(Owner, market.marketItemId);
    assert o.Pass?;
    tokenOwner := nft.OwnerOf(tokenId);
  }

  method ShouldRevertCancelWhenPaused() returns (o: Outcome<Error>)
    ensures o.Fail? && Message(o.error) == "ERC721Pausable: token transfer while paused"
  {
    var nft, market := ListOneToken(Owner);
    var p := nft.Pause();
    assert p.Pass?;
    o := market.CancelMarketItem(Owner, market.marketItemId);
  }

  method ShouldRevertCancelIfNotSeller() returns (o: Outcome<Error>)
    ensures o.Fail? && Message(o.error) == "You are not the seller"
  {
    var nft, market := ListOneToken(Owner);
    o := market.CancelMarketItem(Bob, market.marketItemId);
  }

  method ShouldRevertCancelIfItemDoesNotExist() returns (o: Outcome<Error>)
    ensures o.Fail? && Message(o.error) == "Market item does not exist"
  {
    var nft, market := DeployContracts();
    o := market.CancelMarketItem(Bob, 2);
  }

  /** A sale pays the fee to the deployer and the price to the seller, and the buyer gets the token. */
  method ShouldCreateMarketSale() returns (ownerGain: nat, sellerGain: nat, buyerBalance: Result<nat, Registry.Error>)
    ensures ownerGain == OneEther * 1 / 100 && sellerGain == OneEther && buyerBalance == Ok(1)
  {
    var nft, market := ListOneToken(Bob);
    var initialOwner, initialSeller := market.Credited(Owner), market.Credited(Bob);
    BuyListedToken(nft, market, Bob, Alice);
    ownerGain, sellerGain := market.Credited(Owner) - initialOwner, market.Credited(Bob) - initialSeller;
    buyerBalance := nft.BalanceOf(Alice);
  }

  /** `buyer` sends the exact value the suite computes for the one-ether listing 1 of `seller`. */
  method BuyListedToken(nft: Registry.Nft, market: Marketplace, seller: Address, buyer: Address)
    requires nft.Valid() && market.Valid() && !nft.paused
    requires nft.owners == map[1 := MarketAddress]
    requires forall a :: BalanceIn(nft.balances, a) == if a == MarketAddress then 1 else 0
    requires market.address == MarketAddress && market.owner == Owner && market.balances == map[]
    requires market.items == map[1 := MarketItem(1, nft, 1, seller, OneEther, OnSale)]
    requires buyer != ZeroAddress && buyer != seller && buyer != MarketAddress
    modifies nft, market
    ensures nft.Valid() && market.Valid()
    ensures nft.tokenId == old(nft.tokenId) && nft.owners == map[1 := buyer] && !nft.paused
    ensures BalanceIn(nft.balances, buyer) == 1
    ensures nft.operatorApprovals == old(nft.operatorApprovals)
    ensures market.address == MarketAddress && market.marketItemId == 1
    ensures market.items == map[1 := MarketItem(1, nft, 1, seller, OneEther, Sold)]
    ensures market.Credited(Owner) == OneEther / 100 + (if seller == Owner then OneEther else 0)
    ensures market.Credited(seller) == OneEther + (if seller == Owner then OneEther / 100 else 0)
    ensures |market.GetOnSaleMarketItems()| == 0
  {
    var value := SaleValue(OneEther);
    assert value == SalePayment(OneEther);
    var o := market.CreateMarketSale(buyer, 1, value);
    assert o.Pass?;
  }

  method ShouldRevertSaleWhenPaused() returns (o: Outcome<Error>)
    ensures o.Fail? && Message(o.error) == "ERC721Pausable: token transfer while paused"
  {
    var nft, market := ListOneToken(Owner);
    var p := nft.Pause();
    assert p.Pass?;
    var value := SaleValue(OneEther);
    assert market.CheckSale(Bob, 1, value) == Pass;
    o := market.CreateMarketSale(Bob, 1, value);
  }

  method ShouldRevertSaleWhenBuyerIsSeller() returns (o: Outcome<Error>)
    ensures o.Fail? && Message(o.error) == "You cannot buy your market item"
  {
    var nft, market := ListOneToken(Owner);
    o := market.CreateMarketSale(Owner, market.marketItemId, SaleValue(OneEther));
  }

  method ShouldRevertSaleWhenNotOnSale() returns (o: Outcome<Error>)
    ensures o.Fail? && Message(o.error) == "Market item is not on sale"
  {
    var nft, market := ListOneToken(Owner);
    o := market.CancelMarketItem(Owner, market.marketItemId);
    assert o.Pass?;
    o := market.CreateMarketSale(Bob, market.marketItemId, SaleValue(OneEther));
  }

  method ShouldRevertSaleWithWrongValue() returns (o: Outcome<Error>)
    ensures o.Fail? && Message(o.error) == "Value must be equal to price + saleFee"
  {
    var nft, market := ListOneToken(Bob);
    o := market.CreateMarketSale(Alice, market.marketItemId, SaleValue(2 * OneEther));
  }
}
