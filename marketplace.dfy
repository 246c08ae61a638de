/**
 * The marketplace ledger: sellers list a token they own at a fixed price, the ledger takes
 * custody of it, and the listing ends either in a sale (token to the buyer, price to the
 * seller, a one-percent fee to the deployer) or in a cancellation (token back to the seller).
 */
module Market {
  import opened Common
  import opened Ids
  import Registry

  /** The sale fee, in percent of the listing price. */
  const SaleFeePercentage: nat := 1

  /** The fee on a sale at `price`: price * 1 / 100, rounded down. */
  function SaleFee(price: nat): (fee: nat)
    ensures fee * 100 <= price * SaleFeePercentage < (fee + 1) * 100
  {
    price * SaleFeePercentage / 100
  }

  /**
   * The exact value a buyer must send for an item listed at `price`: the price plus the fee,
   * that is price * (100 + 1) / 100 rounded down.
   */
  function SalePayment(price: nat): (value: nat)
    ensures price <= value
    ensures value * 100 <= price * (100 + SaleFeePercentage) < value * 100 + 100
  {
    price + SaleFee(price)
  }

  /** A higher price needs a higher payment, so a payment computed from another price is refused. */
  lemma SalePaymentStrictlyIncreasing(p: nat, q: nat)
    requires p < q
    ensures SalePayment(p) < SalePayment(q)
  {
    assert SaleFee(p) * 100 <= p < q < (SaleFee(q) + 1) * 100;
  }

  /** The payment determines the price it was computed from. */
  lemma SalePaymentInjective(p: nat, q: nat)
    ensures SalePayment(p) == SalePayment(q) <==> p == q
  {
    if p < q {
      SalePaymentStrictlyIncreasing(p, q);
    } else if q < p {
      SalePaymentStrictlyIncreasing(q, p);
    }
  }

  datatype Status = OnSale | Sold | Cancelled

  /** A listing. Listings are never deleted; only their status changes. */
  datatype MarketItem = MarketItem(
    marketItemId: nat,
    nftContract: Registry.Nft,
    tokenId: nat,
    seller: Address,
    price: nat,
    status: Status)

  predicate IsOnSale(item: MarketItem)
  {
    item.status == OnSale
  }

  /** The marketplace's revert reasons; a failed transfer in the registry reverts with the registry's reason. */
  datatype Error =
    | PriceNotPositive
    | ItemDoesNotExist
    | ItemNotOnSale
    | NotSeller
    | OwnItem
    | WrongValue
    | Custody(cause: Registry.Error)

  /** The revert message of each error; a custody failure reverts with the registry's own message. */
  function Message(e: Error): (m: string)
    ensures |m| > 0
  {
    match e
    case PriceNotPositive => "Price must be greater than zero"
    case ItemDoesNotExist => "Market item does not exist"
    case ItemNotOnSale => "Market item is not on sale"
    case NotSeller => "You are not the seller"
    case OwnItem => "You cannot buy your market item"
    case WrongValue => "Value must be equal to price + saleFee"
    case Custody(cause) => Registry.Message(cause)
  }

  /**
   * Distinct ledger errors revert with distinct messages, so every failure path of the ledger,
   * and every registry refusal passed through it, is told apart by its message.
   */
  lemma MessageDistinct(e1: Error, e2: Error)
    ensures Message(e1) == Message(e2) ==> e1 == e2
  {
    if e1.Custody? && e2.Custody? {
      Registry.MessageDistinct(e1.cause, e2.cause);
    }
  }

  /** The records of `m` at `ids`, in the same order. */
  function Lookup<V>(m: map<nat, V>, ids: seq<nat>): (r: seq<V>)
    requires forall i :: 0 <= i < |ids| ==> ids[i] in m
    ensures |r| == |ids|
    ensures forall i :: 0 <= i < |r| ==> r[i] == m[ids[i]]
  {
    if ids == [] then [] else [m[ids[0]]] + Lookup(m, ids[1..])
  }

  class Marketplace {
    /** The marketplace's own address, which holds listed tokens in custody. */
    const address: Address
    /** The deployer, who receives the sale fees. */
    const owner: Address
    /** The id of the most recent listing; listings are 1..marketItemId. */
    var marketItemId: nat
    var items: map<nat, MarketItem>
    /** The amounts the marketplace has paid out to each address. */
    var balances: map<Address, nat>

    ghost predicate Valid()
      reads this
    {
      && (forall id :: id in items <==> 1 <= id <= marketItemId)
      && (forall id :: id in items ==> items[id].marketItemId == id && items[id].price > 0)
    }

    constructor (address: Address, owner: Address)
      ensures Valid() && InCustody()
      ensures this.address == address && this.owner == owner
      ensures marketItemId == 0 && items == map[] && balances == map[]
    {
      this.address := address;
      this.owner := owner;
      marketItemId := 0;
      items := map[];
      balances := map[];
    }

    /** The total the marketplace has paid to `a`. */
    function Credited(a: Address): (amount: nat)
      reads this
    {
      BalanceIn(balances, a)
    }

    /** The ids of the listings on sale, ascending. */
    function OnSaleIds(): (r: seq<nat>)
      reads this
    {
      IdsWhere(items, IsOnSale, marketItemId)
    }

    /** The registries named by some listing. */
    ghost function Registries(): (r: set<Registry.Nft>)
      reads this
    {
      set id | id in items :: items[id].nftContract
    }

    /** The marketplace is the registry's recorded owner of the token of `item`. */
    ghost predicate Held(item: MarketItem)
      reads item.nftContract
    {
      item.tokenId in item.nftContract.owners && item.nftContract.owners[item.tokenId] == address
    }

    /**
     * The custody invariant: the marketplace holds the token of every on-sale listing, and no
     * two on-sale listings name the same token of the same registry.
     */
    ghost predicate InCustody()
      reads this, Registries()
    {
      && (forall id :: id in items && items[id].status == OnSale ==> Held(items[id]))
      && (forall i, j :: i in items && j in items && items[i].status == OnSale && items[j].status == OnSale
                         && items[i].nftContract == items[j].nftContract && items[i].tokenId == items[j].tokenId
                         ==> i == j)
    }

    /** No on-sale listing names token `tokenId` of `nft`. */
    ghost predicate Unlisted(nft: Registry.Nft, tokenId: nat)
      reads this
    {
      forall id :: id in items && items[id].status == OnSale ==> items[id].nftContract != nft || items[id].tokenId != tokenId
    }

    /** getOnSaleMarketItems: the listings on sale, in listing order. */
    function GetOnSaleMarketItems(): (r: seq<MarketItem>)
      reads this
      requires Valid()
      ensures |r| == |OnSaleIds()|
      ensures forall j :: 0 <= j < |r| ==> OnSaleIds()[j] in items && r[j] == items[OnSaleIds()[j]]
    {
      Lookup(items, OnSaleIds())
    }

    /**
     * getOnSaleMarketItems returns exactly the listings whose status is OnSale, each once,
     * ordered by listing id.
     */
    lemma OnSaleItemsExact()
      requires Valid()
      ensures forall j :: 0 <= j < |GetOnSaleMarketItems()| ==>
                var item := GetOnSaleMarketItems()[j];
                item.status == OnSale && item.marketItemId in items && items[item.marketItemId] == item
      ensures forall id :: id in items && items[id].status == OnSale ==> items[id] in GetOnSaleMarketItems()
      ensures forall i, j :: 0 <= i < j < |GetOnSaleMarketItems()| ==>
                GetOnSaleMarketItems()[i].marketItemId < GetOnSaleMarketItems()[j].marketItemId
    {
      var ids, r := OnSaleIds(), GetOnSaleMarketItems();
      forall j | 0 <= j < |r| ensures r[j].status == OnSale && r[j].marketItemId == ids[j] {
        assert ids[j] in ids;
      }
      forall id | id in items && items[id].status == OnSale ensures items[id] in r {
        assert id in ids;
        var j :| 0 <= j < |ids| && ids[j] == id;
        assert r[j] == items[id];
      }
    }

    /** The ids of the listings whose status is OnSale. */
    ghost function OnSaleListings(): (ids: set<nat>)
      reads this
    {
      set id | id in items && items[id].status == OnSale
    }

    /** The number of listings returned by getOnSaleMarketItems is the number of listings on sale. */
    lemma OnSaleCount()
      requires Valid()
      ensures |GetOnSaleMarketItems()| == |OnSaleListings()|
    {
      IdsWhereCount(items, IsOnSale, marketItemId, OnSaleListings());
    }

    /** The checks of cancelMarketItem in the order they revert. */
    function CheckCancel(caller: Address, id: nat): (o: Outcome<Error>)
      reads this
      ensures o.Pass? <==> id in items && items[id].status == OnSale && items[id].seller == caller
      ensures id !in items ==> o == Fail(ItemDoesNotExist)
      ensures id in items && items[id].status != OnSale ==> o == Fail(ItemNotOnSale)
      ensures id in items && items[id].status == OnSale && items[id].seller != caller ==> o == Fail(NotSeller)
    {
      if id !in items then Fail(ItemDoesNotExist)
      else if items[id].status != OnSale then Fail(ItemNotOnSale)
      else if items[id].seller != caller then Fail(NotSeller)
      else Pass
    }

    /** The checks of createMarketSale in the order they revert. */
    function CheckSale(caller: Address, id: nat, value: nat): (o: Outcome<Error>)
      reads this
      ensures o.Pass? <==> && id in items && items[id].status == OnSale && items[id].seller != caller
                           && value == SalePayment(items[id].price)
      ensures id !in items ==> o == Fail(ItemDoesNotExist)
      ensures id in items && items[id].status != OnSale ==> o == Fail(ItemNotOnSale)
      ensures id in items && items[id].status == OnSale && items[id].seller == caller ==> o == Fail(OwnItem)
      ensures (id in items && items[id].status == OnSale && items[id].seller != caller
               && value != SalePayment(items[id].price)) ==> o == Fail(WrongValue)
    {
      if id !in items then Fail(ItemDoesNotExist)
      else if items[id].status != OnSale then Fail(ItemNotOnSale)
      else if items[id].seller == caller then Fail(OwnItem)
      else if value != SalePayment(items[id].price) then Fail(WrongValue)
      else Pass
    }

    /** The registry holding the token of listing `id`, if the listing exists. */
    function NftOf(id: nat): (r: set<object>)
      reads this
    {
      if id in items then {items[id].nftContract} else {}
    }

    /**
     * createMarketItem: lists token `tokenId` of `nft` at `price`, pulling the token into the
     * marketplace's custody. Reverts, changing nothing, when the price is zero or the registry
     * refuses the transfer (caller not the owner, marketplace not approved, registry paused).
     */
    method CreateMarketItem(caller: Address, nft: Registry.Nft, price: nat, tokenId: nat) returns (r: Result<nat, Error>)
      requires Valid() && nft.Valid()
      requires caller != address
      modifies this, nft
      ensures Valid() && nft.Valid()
      ensures old(InCustody()) ==> InCustody()
      ensures price == 0 ==> r == Err(PriceNotPositive)
      ensures price > 0 ==> (r.Ok? <==> old(nft.CheckTransfer(address, caller, address, tokenId)).Pass?)
      ensures price > 0 && r.Err? ==> r == Err(Custody(old(nft.CheckTransfer(address, caller, address, tokenId)).error))
      ensures r.Err? ==> unchanged(this) && unchanged(nft)
      ensures r.Ok? ==> && r.value == old(marketItemId) + 1 && marketItemId == r.value
                        && items == old(items)[r.value := MarketItem(r.value, nft, tokenId, caller, price, OnSale)]
                        && balances == old(balances)
                        && nft.Transferred(caller, address, tokenId)
      ensures |GetOnSaleMarketItems()| == old(|GetOnSaleMarketItems()|) + (if r.Ok? then 1 else 0)
    {
      if price == 0 {
        return Err(PriceNotPositive);
      }
      var t := nft.TransferFrom(address, caller, address, tokenId);
      if t.Fail? {
        return Err(Custody(t.error));
      }
      assert old(InCustody()) ==> InCustody() && Unlisted(nft, tokenId);
      var id := Append(nft, tokenId, caller, price);
      r := Ok(id);
    }

    /** Records a new on-sale listing under the next id. */
    method Append(nft: Registry.Nft, tokenId: nat, seller: Address, price: nat) returns (id: nat)
      requires Valid() && price > 0
      modifies this
      ensures Valid()
      ensures id == old(marketItemId) + 1 && marketItemId == id
      ensures items == old(items)[id := MarketItem(id, nft, tokenId, seller, price, OnSale)]
      ensures balances == old(balances)
      ensures |GetOnSaleMarketItems()| == old(|GetOnSaleMarketItems()|) + 1
      ensures old(InCustody() && Unlisted(nft, tokenId) && tokenId in nft.owners && nft.owners[tokenId] == address)
              ==> InCustody()
    {
      id := marketItemId + 1;
      var item := MarketItem(id, nft, tokenId, seller, price, OnSale);
      IdsWhereExtendCount(items, IsOnSale, marketItemId, item);
      marketItemId, items := id, items[id := item];
    }

    /**
     * cancelMarketItem: the seller withdraws an on-sale listing and gets the token back.
     * Reverts, changing nothing, when the listing does not exist, is no longer on sale, the
     * caller is not its seller, or the registry refuses the transfer.
     */
    method CancelMarketItem(caller: Address, id: nat) returns (o: Outcome<Error>)
      requires Valid()
      requires id in items ==> items[id].nftContract.Valid()
      modifies this, NftOf(id)
      ensures Valid()
      ensures old(InCustody()) ==> InCustody()
      ensures id in items <==> id in old(items)
      ensures id in items ==> items[id].nftContract == old(items[id].nftContract) && items[id].nftContract.Valid()
      ensures old(CheckCancel(caller, id)).Fail? ==> o == old(CheckCancel(caller, id))
      ensures old(CheckCancel(caller, id)).Pass? ==>
                var transfer := old(items[id].nftContract.CheckTransfer(address, address, caller, items[id].tokenId));
                && (o.Pass? <==> transfer.Pass?)
                && (o.Fail? ==> o == Fail(Custody(transfer.error)))
      ensures o.Fail? ==> unchanged(this) && (id in items ==> unchanged(items[id].nftContract))
      ensures o.Pass? ==> && marketItemId == old(marketItemId) && balances == old(balances)
                          && items == old(items)[id := old(items[id]).(status := Cancelled)]
                          && items[id].nftContract.Transferred(address, caller, items[id].tokenId)
      ensures |GetOnSaleMarketItems()| == old(|GetOnSaleMarketItems()|) - (if o.Pass? then 1 else 0)
    {
      o := CheckCancel(caller, id);
      if o.Fail? {
        return;
      }
      var item := items[id];
      var t := item.nftContract.TransferFrom(address, address, caller, item.tokenId);
      if t.Fail? {
        return Fail(Custody(t.error));
      }
      IdsWhereUpdate(items, IsOnSale, marketItemId, id, item.(status := Cancelled));
      items := items[id := item.(status := Cancelled)];
    }

    /**
     * createMarketSale: a buyer pays exactly price + fee for an on-sale listing; the token goes
     * to the buyer, the price to the seller and the fee to the deployer. Reverts, changing
     * nothing, when the listing does not exist, is not on sale, belongs to the buyer, the value
     * is not exactly price + fee, or the registry refuses the transfer.
     */
    method CreateMarketSale(caller: Address, id: nat, value: nat) returns (o: Outcome<Error>)
      requires Valid()
      requires caller != address
      requires id in items ==> items[id].nftContract.Valid()
      modifies this, NftOf(id)
      ensures Valid()
      ensures old(InCustody()) ==> InCustody()
      ensures id in items <==> id in old(items)
      ensures id in items ==> items[id].nftContract == old(items[id].nftContract) && items[id].nftContract.Valid()
      ensures old(CheckSale(caller, id, value)).Fail? ==> o == old(CheckSale(caller, id, value))
      ensures old(CheckSale(caller, id, value)).Pass? ==>
                var transfer := old(items[id].nftContract.CheckTransfer(address, address, caller, items[id].tokenId));
                && (o.Pass? <==> transfer.Pass?)
                && (o.Fail? ==> o == Fail(Custody(transfer.error)))
      ensures o.Fail? ==> unchanged(this) && (id in items ==> unchanged(items[id].nftContract))
      ensures o.Pass? ==> && marketItemId == old(marketItemId)
                          && items == old(items)[id := old(items[id]).(status := Sold)]
                          && items[id].nftContract.Transferred(address, caller, items[id].tokenId)
                          && value == items[id].price + SaleFee(items[id].price)
                          && (forall a :: Credited(a) == old(Credited(a))
                                                         + (if a == items[id].seller then items[id].price else 0)
                                                         + (if a == owner then SaleFee(items[id].price) else 0))
      ensures |GetOnSaleMarketItems()| == old(|GetOnSaleMarketItems()|) - (if o.Pass? then 1 else 0)
    {
      o := CheckSale(caller, id, value);
      if o.Fail? {
        return;
      }
      var item := items[id];
      var t := item.nftContract.TransferFrom(address, address, caller, item.tokenId);
      if t.Fail? {
        return Fail(Custody(t.error));
      }
      IdsWhereUpdate(items, IsOnSale, marketItemId, id, item.(status := Sold));
      items := items[id := item.(status := Sold)];
      balances := Credit(Credit(balances, item.seller, item.price), owner, SaleFee(item.price));
    }
  }
}
