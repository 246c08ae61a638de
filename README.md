# NFT marketplace — a Dafny model

This project models the two contracts of the NFT marketplace.

- **Marketplace ledger** (`Market.Marketplace`). A seller lists a token at a fixed price. The marketplace takes the token into its own custody. A listing ends in one of two ways:
  - a sale: the token goes to the buyer, the price to the seller, and a one-percent fee to the deployer;
  - a cancellation: the token goes back to the seller.
  Listings are numbered 1, 2, 3, … by the `marketItemId` counter and are never deleted. `getOnSaleMarketItems` returns the listings whose status is still OnSale.
- **NFT registry** (`Registry.Nft`). An ERC-721 token contract with pausable transfers and operator approval (`setApprovalForAll`). Each `mint` allocates the next id and records the token's owner, creator and URI. The views `getOwnedTokens` and `getCreatedTokens` filter the tokens by holder and by creator.

The contracts' behaviour is taken from what test/Marketplace.test.ts and test/NFT.test.ts assert, and from ERC-721 as OpenZeppelin 4.x implements it, including its revert messages, where the suites rely on the registry's behaviour.

**Modelling conventions**
- Calls are synchronous methods.
- The caller (`msg.sender`) and the value sent (`msg.value`) are explicit parameters. `createMarketItem` and `createMarketSale` require that the caller is not the marketplace's own address: the marketplace never calls itself, so `msg.sender` is never the contract's own address.
- Addresses are naturals, and 0 is the zero address.
- A revert is an `Err`/`Fail` result carrying the reason, and it leaves every field unchanged.

**Files**
- `common.dfy`: addresses, results and balance maps.
- `ids.dfy`: the "scan ids 1..counter and keep those whose record qualifies" views that both contracts use, with lemmas on how a mint, a relist or a status change affects them.
- `nft.dfy`: the registry.
- `marketplace.dfy`: the fee arithmetic and the ledger.
- `deployment.dfy`: the deployment both test suites start from.
- `nft_scenarios.dfy` and `marketplace_scenarios.dfy`: one method per test case. Each method's postcondition is that test's expectation, proved from the operations' contracts.

## Model

| member | source | states |
|---|---|---|
| Ids.IdsWhere | test/NFT.test.ts:44-67 | the scan returns exactly the ids 1..counter whose record qualifies, each once, ascending |
| Ids.IdsWhereExtend | test/NFT.test.ts:56-67 | recording a new id appends it to the scan exactly when its record qualifies |
| Ids.IdsWhereExtendCount | test/Marketplace.test.ts:92-102 | recording a new id lengthens the scan by one exactly when its record qualifies |
| Ids.IdsWhereUpdate | test/Marketplace.test.ts:68-83 | changing an existing record changes the scan's length by one in the direction the condition changes |
| Ids.IdsWhereCount | test/Marketplace.test.ts:85-87 | the scan's length is the number of qualifying records |
| Registry.Nft.constructor | test/NFT.test.ts:23-24 | a fresh registry has no tokens, no balances, no approvals and is not paused |
| Registry.Nft.OwnerOf | test/NFT.test.ts:100-106 | defined exactly for minted ids; the owner is never the zero address and holds the token in its owned view |
| Registry.Nft.BalanceOf | test/NFT.test.ts:89-98 | reverts exactly for the zero address; otherwise equals the number of tokens the address owns |
| Registry.Nft.TokenURI | test/NFT.test.ts:79-87 | defined exactly for minted ids, and returns the URI recorded at mint |
| Registry.Nft.GetOwnedTokens | test/NFT.test.ts:45-54 | exactly the tokens the caller currently owns, ascending |
| Registry.Nft.GetCreatedTokens | test/NFT.test.ts:56-67 | exactly the tokens the caller minted, in mint order |
| Registry.Nft.CheckTransfer | test/Marketplace.test.ts:104-124 | a transfer passes iff the token exists, `from` owns it, the spender is `from` or its operator, `to` is non-zero and the registry is not paused; when the spender is the token's owner or that owner's operator, a wrong `from` gives "incorrect owner"; once the other checks pass, a pause gives "token transfer while paused" |
| Registry.Nft.TransferFrom | test/Marketplace.test.ts:104-124 | the result is the check's outcome; a refused transfer changes nothing; an accepted one moves the token and one unit of balance from `from` to `to` and nothing else |
| Registry.Message | test/Marketplace.test.ts:111-121 | the non-empty revert string of each registry error, as the suite expects it ("ERC721Pausable: token transfer while paused", "ERC721: transfer from incorrect owner", …) |
| Registry.MessageDistinct | test/Marketplace.test.ts:111-121 | distinct registry errors revert with distinct messages |
| Registry.Nft.IsApprovedForAll | test/Marketplace.test.ts:30-32 | whether `owner` has made `operator` its operator; `SetApprovalForAll`'s contract fixes its value after each call |
| Registry.Nft.SetApprovalForAll | test/Marketplace.test.ts:30-32 | grants or revokes the operator right of (caller, operator); refuses an approval to oneself |
| Registry.Nft.Mint | test/NFT.test.ts:70-106 | the new id is the old counter + 1; the minter becomes the owner and creator, the URI is recorded, the minter's balance grows by one and no one else's changes; it reverts, changing nothing, for the zero address or while paused |
| Registry.Nft.Record | test/NFT.test.ts:70-106 | the state change of an accepted mint, keeping the registry invariant |
| Registry.Nft.Pause | test/Marketplace.test.ts:107 | afterwards the registry is paused; reverts if it already was |
| Registry.MintKeepsConsistent | test/NFT.test.ts:89-106 | a mint keeps the invariant: ids 1..counter exist, owners are non-zero, and balances count owned tokens |
| Registry.MintKeepsBalances | test/NFT.test.ts:89-98 | after a mint every balance still equals the number of tokens owned |
| Registry.TransferKeepsBalances | test/Marketplace.test.ts:212-221 | after a transfer every balance still equals the number of tokens owned |
| Registry.MintAppendsToViews | test/NFT.test.ts:45-67 | a mint appends the new id to the minter's owned and created views and leaves other addresses' views alone |
| Registry.MovedBalances | test/Marketplace.test.ts:220-221 | moving one token takes one unit from the sender and gives one to the receiver |
| Market.SaleFee | test/Marketplace.test.ts:52-58 | the fee is price * 1 / 100 rounded down |
| Market.SalePayment | test/Marketplace.test.ts:52-58 | the value a buyer must send is at least the price and equals price * 101 / 100 rounded down |
| Market.Message | test/Marketplace.test.ts:133-279 | the non-empty revert string of each ledger error ("Price must be greater than zero", "You are not the seller", "Market item does not exist", "You cannot buy your market item", "Market item is not on sale", "Value must be equal to price + saleFee"); a custody failure reverts with the registry's message |
| Market.MessageDistinct | test/Marketplace.test.ts:104-282 | distinct ledger errors, including a registry refusal passed through by its cause, revert with distinct messages, so each failure path is told apart by its message |
| Market.SalePaymentStrictlyIncreasing | test/Marketplace.test.ts:267-282 | a higher price needs a strictly higher payment |
| Market.SalePaymentInjective | test/Marketplace.test.ts:267-282 | two prices need the same payment iff they are equal, so a value computed from another price is refused |
| Market.Lookup | test/Marketplace.test.ts:85 | the records at the given ids, in order |
| Market.Marketplace.constructor | test/Marketplace.test.ts:21-23 | a fresh marketplace has no listings, a zero counter and no credits; the deployer is the fee recipient |
| Market.Marketplace.GetOnSaleMarketItems | test/Marketplace.test.ts:85-87 | one record per on-sale id, in id order |
| Market.Marketplace.OnSaleItemsExact | test/Marketplace.test.ts:62-88 | every returned listing is on sale and stored under its id, every on-sale listing is returned, and they are ordered by id |
| Market.Marketplace.OnSaleCount | test/Marketplace.test.ts:62-88 | the number returned equals the number of listings whose status is OnSale |
| Market.Marketplace.CheckCancel | test/Marketplace.test.ts:139-190 | a cancel passes iff the listing exists, is on sale and the caller is its seller, with each failure's reason in the order checked |
| Market.Marketplace.CheckSale | test/Marketplace.test.ts:192-282 | a sale passes iff the listing exists, is on sale, the buyer is not the seller and the value is exactly price + fee, with each failure's reason in the order checked |
| Market.Marketplace.CreateMarketItem | test/Marketplace.test.ts:91-136 | a zero price reverts; otherwise the listing succeeds iff the registry accepts the transfer of the token from the caller to the marketplace, or reverts with the registry's reason; a revert changes nothing; a success assigns old counter + 1, stores an on-sale listing, moves the token into custody and adds one to the on-sale count; it preserves the custody invariant `InCustody` (the marketplace holds the token of every on-sale listing, and no two on-sale listings name the same token) |
| Market.Marketplace.Append | test/Marketplace.test.ts:92-102 | records the next listing under counter + 1, keeps the ledger invariant and adds one to the on-sale count; when the marketplace holds the token and no on-sale listing names it, the custody invariant is kept |
| Market.Marketplace.CancelMarketItem | test/Marketplace.test.ts:139-190 | a cancel fails with the check's reason, or with the registry's if it refuses to return the token; a failure changes nothing; a success marks the listing Cancelled, returns the token to the seller, moves no funds and lowers the on-sale count by one; it preserves the custody invariant |
| Market.Marketplace.CreateMarketSale | test/Marketplace.test.ts:192-282 | a sale fails with the check's reason, or with the registry's if it refuses the transfer; a failure changes nothing; a success marks the listing Sold, gives the token to the buyer, credits exactly the price to the seller and the fee to the deployer, and lowers the on-sale count by one; it preserves the custody invariant |
| Deployment.DeployContracts | test/Marketplace.test.ts:18-33 | fresh registry and marketplace, with all three signers having approved the marketplace |
| MarketplaceScenarios.SaleValue | test/Marketplace.test.ts:53 | the value the suite computes, price + price * 1 / 100, is exactly the payment the marketplace demands |
| MarketplaceScenarios.ListOneToken | test/Marketplace.test.ts:37-46 | after a mint and a listing at one ether, token 1 is in custody and listing 1 is on sale |
| MarketplaceScenarios.BuyListedToken | test/Marketplace.test.ts:52-58 | paying the value the suite computes for listing 1 completes the sale: the buyer holds the token, the seller and deployer are credited, and nothing is left on sale |
| MarketplaceScenarios.Relist | test/Marketplace.test.ts:75-77 | the buyer of a sold token lists it again and the listing succeeds as listing 2: the token is in custody and one listing is on sale |
| MarketplaceScenarios.CancelRelisted | test/Marketplace.test.ts:79-80 | the seller's cancel of listing 2 passes: the token is back with the seller and nothing is on sale |
| MarketplaceScenarios.ShouldReturnMarketItemsOnSale | test/Marketplace.test.ts:62-88 | create, sale, relist by the buyer, cancel and relist each succeed (the relists get ids 2 and 3, the cancel passes), and one listing is left on sale |
| MarketplaceScenarios.ShouldIncrementMarketItemId | test/Marketplace.test.ts:92-102 | the first listing leaves the counter at 1 |
| MarketplaceScenarios.ShouldRevertCreateWhenPaused | test/Marketplace.test.ts:104-114 | listing while paused reverts with "ERC721Pausable: token transfer while paused" |
| MarketplaceScenarios.ShouldRevertCreateWithNotOwnedToken | test/Marketplace.test.ts:116-124 | listing another's token reverts with "ERC721: transfer from incorrect owner" |
| MarketplaceScenarios.ShouldRevertCreateWithZeroPrice | test/Marketplace.test.ts:126-136 | a zero price reverts with "Price must be greater than zero" |
| MarketplaceScenarios.ShouldCancelMarketItem | test/Marketplace.test.ts:140-151 | after a cancel the seller owns the token again |
| MarketplaceScenarios.ShouldRevertCancelWhenPaused | test/Marketplace.test.ts:153-166 | cancelling while paused reverts with the pause message |
| MarketplaceScenarios.ShouldRevertCancelIfNotSeller | test/Marketplace.test.ts:168-179 | a non-seller's cancel reverts with "You are not the seller" |
| MarketplaceScenarios.ShouldRevertCancelIfItemDoesNotExist | test/Marketplace.test.ts:181-189 | cancelling id 2 on a fresh marketplace reverts with "Market item does not exist" |
| MarketplaceScenarios.ShouldCreateMarketSale | test/Marketplace.test.ts:193-222 | the deployer gains one percent of the price, the seller gains the price, and the buyer holds one token |
| MarketplaceScenarios.ShouldRevertSaleWhenPaused | test/Marketplace.test.ts:224-237 | buying while paused reverts with the pause message |
| MarketplaceScenarios.ShouldRevertSaleWhenBuyerIsSeller | test/Marketplace.test.ts:239-250 | buying one's own listing reverts with "You cannot buy your market item" |
| MarketplaceScenarios.ShouldRevertSaleWhenNotOnSale | test/Marketplace.test.ts:252-265 | buying a cancelled listing reverts with "Market item is not on sale" |
| MarketplaceScenarios.ShouldRevertSaleWithWrongValue | test/Marketplace.test.ts:267-282 | a value computed from two ether for a one-ether listing reverts with "Value must be equal to price + saleFee" |
| NftScenarios.ShouldReturnOwnedTokens | test/NFT.test.ts:45-54 | after one mint the minter's owned tokens are exactly the new id |
| NftScenarios.ShouldReturnCreatedTokens | test/NFT.test.ts:56-67 | after both mints succeed (ids 1 and 2), the token minted by another signer is not among the caller's created tokens |
| NftScenarios.ShouldIncrementTokenIdOnMint | test/NFT.test.ts:71-77 | the first mint yields token id 1 |
| NftScenarios.ShouldSetTokenUriOnMint | test/NFT.test.ts:79-87 | the URI passed to mint is returned by tokenURI |
| NftScenarios.ShouldIncrementBalanceOnMint | test/NFT.test.ts:89-98 | one mint gives the minter a balance of 1 |
| NftScenarios.ShouldSetOwnerOnMint | test/NFT.test.ts:100-106 | the minter owns the minted token |

## Left out

- The Solidity contracts are not part of this model. Their behaviour is reconstructed from the test suites and from ERC-721 as OpenZeppelin 4.x implements it, including the revert messages and the order of `transferFrom`'s checks. Where a suite does not fix a detail, the model makes a choice, and those choices are listed below.
- Order of the ledger's checks: existence, then status, then seller or buyer identity, then value. The suites exercise each failure on its own, so they do not fix this order.
- createMarketItem checks the price before it asks the registry for the token, so a zero price on a paused registry reverts with "Price must be greater than zero", not with the pause message. The suites never combine the two.
- cancelMarketItem and createMarketSale ask the registry for the transfer only after every ledger check, so a wrong value or a wrong caller on a paused registry reverts with the ledger's message, not with the pause message. The suites never combine the two.
- getOwnedTokens returns the ids in ascending order. The suite fixes its result only for a single token.
- Every id outside 1..marketItemId, id 0 included, is a listing that does not exist: cancel and sale revert for it with "Market item does not exist". The suite fixes this only for id 2 on a fresh marketplace.
- getOnSaleMarketItems returns the on-sale listings in id order. The suite checks only how many there are.
- A cancel of a listing that is no longer on sale reverts with "Market item is not on sale", the message the sale path uses. The suites never exercise this case.
- Mint reverts while the registry is paused, as OpenZeppelin's pausable token does. The suites never mint while paused.
- `scripts/deploy.ts` is not part of this model. It only deploys and logs.
- The test harness is not modelled: asynchrony, signers, gas, and the revert-matching helpers. Accounts are the constants `Owner`, `Bob` and `Alice`, and the marketplace's address is `MarketAddress`.
- Ether is not modelled as a currency. Amounts are naturals in wei. `Market.Marketplace.CreateMarketSale` records what the marketplace pays out in a credit table, `balances`. It does not model the buyer's account being debited or gas costs.
- Integer width: amounts are unbounded naturals, so the model has no 256-bit overflow.
- Who may pause: the suites pause from the deployer, and the model lets anyone pause. Unpausing is not exercised and is not modelled.
- Per-token `approve`, `getApproved`, `safeTransferFrom` and a base URI are not used by the suites and are not modelled. Approval is operator approval only.
- Custody invariant: `Market.Marketplace.InCustody` is established by the constructor and preserved by every ledger operation. The registry and the ledger are separate objects, so it is not preserved against calls made on a registry directly with the marketplace's address as the spender, or after the marketplace approves an operator; the marketplace never makes such calls.
- Market.Marketplace.CreateMarketItem: a listing can name any registry object, as in the source. The contract assumes that registry satisfies its own invariant.
