/**
 * The NFT registry: an ERC-721 token contract with pausable transfers, a mint that
 * records each token's creator and URI, and views over owned and created tokens.
 */
module Registry {
  import opened Common
  import opened Ids

  type TokenId = nat

  /** The registry's revert reasons. */
  datatype Error =
    | InvalidTokenId
    | NotOwnerNorApproved
    | IncorrectOwner
    | TransferToZeroAddress
    | TransferWhilePaused
    | MintToZeroAddress
    | ApproveToCaller
    | ZeroAddressNotOwner
    | AlreadyPaused

  /** The revert message of each error. */
  function Message(e: Error): (m: string)
    ensures |m| > 0
  {
    match e
    case InvalidTokenId => "ERC721: invalid token ID"
    case NotOwnerNorApproved => "ERC721: caller is not token owner or approved"
    case IncorrectOwner => "ERC721: transfer from incorrect owner"
    case TransferToZeroAddress => "ERC721: transfer to the zero address"
    case TransferWhilePaused => "ERC721Pausable: token transfer while paused"
    case MintToZeroAddress => "ERC721: mint to the zero address"
    case ApproveToCaller => "ERC721: approve to caller"
    case ZeroAddressNotOwner => "ERC721: address zero is not a valid owner"
    case AlreadyPaused => "Pausable: paused"
  }

  /** Distinct registry errors revert with distinct messages, so a message names its error. */
  lemma MessageDistinct(e1: Error, e2: Error)
    ensures Message(e1) == Message(e2) ==> e1 == e2
  {
  }

  /** The balance table agrees with the owner table: every address holds as many tokens as it owns. */
  ghost predicate BalancesMatch(owners: map<TokenId, Address>, balances: map<Address, nat>, n: nat)
  {
    forall a {:trigger BalanceIn(balances, a)} :: BalanceIn(balances, a) == |IdsWhere(owners, EqualTo(a), n)|
  }

  /**
   * The registry's invariant: tokens 1..n exist, each has an owner other than the zero
   * address, a creator and a URI, and the balance table counts the tokens each address owns.
   */
  ghost predicate Consistent(n: nat, owners: map<TokenId, Address>, balances: map<Address, nat>,
                             creators: map<TokenId, Address>, uris: map<TokenId, string>)
  {
    && (forall t :: t in owners <==> 1 <= t <= n)
    && (forall t :: t in creators <==> 1 <= t <= n)
    && (forall t :: t in uris <==> 1 <= t <= n)
    && (forall t :: t in owners ==> owners[t] != ZeroAddress)
    && BalancesMatch(owners, balances, n)
  }

  /** Minting token `n + 1` to a non-zero address keeps the invariant. */
  lemma MintKeepsConsistent(n: nat, owners: map<TokenId, Address>, balances: map<Address, nat>,
                            creators: map<TokenId, Address>, uris: map<TokenId, string>,
                            to: Address, uri: string)
    requires Consistent(n, owners, balances, creators, uris)
    requires to != ZeroAddress
    ensures Consistent(n + 1, owners[n + 1 := to], Credit(balances, to, 1), creators[n + 1 := to], uris[n + 1 := uri])
  {
    MintKeepsBalances(owners, balances, n, to);
  }

  /** Moving token `t` from `from` to `to` keeps the balance table in agreement with the owner table. */
  lemma TransferKeepsBalances(owners: map<TokenId, Address>, balances: map<Address, nat>, n: nat,
                              t: TokenId, from: Address, to: Address)
    requires BalancesMatch(owners, balances, n)
    requires 1 <= t <= n && t in owners && owners[t] == from
    ensures BalanceIn(balances, from) > 0
    ensures BalancesMatch(owners[t := to], MovedBalances(balances, from, to), n)
  {
    assert t in IdsWhere(owners, EqualTo(from), n);
    IdsWhereUpdate(owners, EqualTo(from), n, t, to);
    forall a ensures BalanceIn(MovedBalances(balances, from, to), a) == |IdsWhere(owners[t := to], EqualTo(a), n)| {
      IdsWhereUpdate(owners, EqualTo(a), n, t, to);
    }
  }

  /** Minting token `n + 1` to `to` keeps the balance table in agreement with the owner table. */
  lemma MintKeepsBalances(owners: map<TokenId, Address>, balances: map<Address, nat>, n: nat, to: Address)
    requires BalancesMatch(owners, balances, n)
    ensures BalancesMatch(owners[n + 1 := to], Credit(balances, to, 1), n + 1)
  {
    forall a ensures BalanceIn(Credit(balances, to, 1), a) == |IdsWhere(owners[n + 1 := to], EqualTo(a), n + 1)| {
      IdsWhereExtend(owners, EqualTo(a), n, to);
    }
  }

  /**
   * Minting token `n + 1` to `minter` appends it to the minter's view (owned or created
   * tokens) and leaves every other address's view as it was.
   */
  lemma MintAppendsToViews(m: map<TokenId, Address>, n: nat, minter: Address, a: Address)
    ensures IdsWhere(m[n + 1 := minter], EqualTo(a), n + 1)
         == IdsWhere(m, EqualTo(a), n) + (if a == minter then [n + 1] else [])
  {
    IdsWhereExtend(m, EqualTo(a), n, minter);
  }

  /** The balance table after one token moved from `from` to `to` (decrement, then increment). */
  function MovedBalances(b: map<Address, nat>, from: Address, to: Address): (r: map<Address, nat>)
    requires BalanceIn(b, from) > 0
    ensures forall a {:trigger BalanceIn(r, a)} :: BalanceIn(r, a) == BalanceIn(b, a) - (if a == from then 1 else 0) + (if a == to then 1 else 0)
  {
    var b1 := b[from := BalanceIn(b, from) - 1];
    b1[to := BalanceIn(b1, to) + 1]
  }

  class Nft {
    /** The id of the most recently minted token; ids are 1..tokenId. */
    var tokenId: nat
    var owners: map<TokenId, Address>
    var balances: map<Address, nat>
    var creators: map<TokenId, Address>
    var tokenURIs: map<TokenId, string>
    /** (owner, operator) pairs for which the operator may transfer all of the owner's tokens. */
    var operatorApprovals: set<(Address, Address)>
    var paused: bool

    ghost predicate Valid()
      reads this
    {
      Consistent(tokenId, owners, balances, creators, tokenURIs)
    }

    constructor ()
      ensures Valid()
      ensures tokenId == 0 && owners == map[] && balances == map[] && creators == map[]
      ensures tokenURIs == map[] && operatorApprovals == {} && !paused
    {
      tokenId := 0;
      owners := map[];
      balances := map[];
      creators := map[];
      tokenURIs := map[];
      operatorApprovals := {};
      paused := false;
    }

    function IsApprovedForAll(owner: Address, operator: Address): (approved: bool)
      reads this
    {
      (owner, operator) in operatorApprovals
    }

    /** ownerOf: the holder of an existing token; reverts for an id never minted. */
    function OwnerOf(t: TokenId): (r: Result<Address, Error>)
      reads this
      requires Valid()
      ensures r.Ok? <==> 1 <= t <= tokenId
      ensures r.Ok? ==> r.value != ZeroAddress && t in GetOwnedTokens(r.value)
      ensures r.Err? ==> r.error == InvalidTokenId
    {
      if t in owners then Ok(owners[t]) else Err(InvalidTokenId)
    }

    /** balanceOf: the number of tokens an address holds; reverts for the zero address. */
    function BalanceOf(a: Address): (r: Result<nat, Error>)
      reads this
      requires Valid()
      ensures r.Err? <==> a == ZeroAddress
      ensures r.Err? ==> r.error == ZeroAddressNotOwner
      ensures r.Ok? ==> r.value == |GetOwnedTokens(a)|
    {
      if a == ZeroAddress then Err(ZeroAddressNotOwner) else Ok(BalanceIn(balances, a))
    }

    /** tokenURI: the URI recorded at mint; reverts for an id never minted. */
    function TokenURI(t: TokenId): (r: Result<string, Error>)
      reads this
      requires Valid()
      ensures r.Ok? <==> 1 <= t <= tokenId
      ensures r.Ok? ==> t in tokenURIs && r.value == tokenURIs[t]
      ensures r.Err? ==> r.error == InvalidTokenId
    {
      if t in tokenURIs then Ok(tokenURIs[t]) else Err(InvalidTokenId)
    }

    /** getOwnedTokens: the ids the caller currently holds, ascending. */
    function GetOwnedTokens(caller: Address): (r: seq<TokenId>)
      reads this
      requires Valid()
      ensures forall t :: t in r <==> t in owners && owners[t] == caller
      ensures forall i, j :: 0 <= i < j < |r| ==> r[i] < r[j]
    {
      IdsWhere(owners, EqualTo(caller), tokenId)
    }

    /** getCreatedTokens: the ids the caller minted, in mint order. */
    function GetCreatedTokens(caller: Address): (r: seq<TokenId>)
      reads this
      requires Valid()
      ensures forall t :: t in r <==> t in creators && creators[t] == caller
      ensures forall i, j :: 0 <= i < j < |r| ==> r[i] < r[j]
    {
      IdsWhere(creators, EqualTo(caller), tokenId)
    }

    /**
     * The checks of transferFrom in the order they revert: the token must exist, the
     * spender must be its owner or an operator approved by the owner, `from` must be the
     * owner, `to` must not be the zero address, and the registry must not be paused.
     */
    function CheckTransfer(spender: Address, from: Address, to: Address, t: TokenId): (o: Outcome<Error>)
      reads this
      ensures o.Pass? <==> && t in owners && owners[t] == from
                           && (spender == from || IsApprovedForAll(from, spender))
                           && to != ZeroAddress && !paused
      ensures paused ==> o.Fail?
      ensures t in owners && (spender == owners[t] || IsApprovedForAll(owners[t], spender)) && owners[t] != from
              ==> o == Fail(IncorrectOwner)
      ensures t in owners && owners[t] == from && (spender == from || IsApprovedForAll(from, spender))
              && to != ZeroAddress && paused
              ==> o == Fail(TransferWhilePaused)
    {
      if t !in owners then Fail(InvalidTokenId)
      else if !(spender == owners[t] || IsApprovedForAll(owners[t], spender)) then Fail(NotOwnerNorApproved)
      else if owners[t] != from then Fail(IncorrectOwner)
      else if to == ZeroAddress then Fail(TransferToZeroAddress)
      else if paused then Fail(TransferWhilePaused)
      else Pass
    }

    /** The state change of a successful transfer of `t` from `from` to `to`; nothing else moves. */
    twostate predicate Transferred(from: Address, to: Address, t: TokenId)
      reads this
    {
      && owners == old(owners)[t := to]
      && (forall a :: BalanceIn(balances, a)
                      == old(BalanceIn(balances, a)) - (if a == from then 1 else 0) + (if a == to then 1 else 0))
      && tokenId == old(tokenId)
      && creators == old(creators)
      && tokenURIs == old(tokenURIs)
      && operatorApprovals == old(operatorApprovals)
      && paused == old(paused)
    }

    /** transferFrom called by `spender`: moves `t` to `to`, or reverts with no change. */
    method TransferFrom(spender: Address, from: Address, to: Address, t: TokenId) returns (o: Outcome<Error>)
      requires Valid()
      modifies this
      ensures Valid()
      ensures o == old(CheckTransfer(spender, from, to, t))
      ensures o.Fail? ==> unchanged(this)
      ensures o.Pass? ==> Transferred(from, to, t)
    {
      o := CheckTransfer(spender, from, to, t);
      if o.Pass? {
        TransferKeepsBalances(owners, balances, tokenId, t, from, to);
        balances := MovedBalances(balances, from, to);
        owners := owners[t := to];
      }
    }

    /** setApprovalForAll: `caller` grants or revokes `operator` the right to move all its tokens. */
    method SetApprovalForAll(caller: Address, operator: Address, approved: bool) returns (o: Outcome<Error>)
      requires Valid()
      modifies this
      ensures Valid()
      ensures o.Fail? <==> caller == operator
      ensures o.Fail? ==> o.error == ApproveToCaller && unchanged(this)
      ensures o.Pass? ==> operatorApprovals == if approved then old(operatorApprovals) + {(caller, operator)}
                                              else old(operatorApprovals) - {(caller, operator)}
      ensures o.Pass? ==> tokenId == old(tokenId) && owners == old(owners) && balances == old(balances)
                          && creators == old(creators) && tokenURIs == old(tokenURIs) && paused == old(paused)
    {
      if caller == operator {
        return Fail(ApproveToCaller);
      }
      if approved {
        operatorApprovals := operatorApprovals + {(caller, operator)};
      } else {
        operatorApprovals := operatorApprovals - {(caller, operator)};
      }
      o := Pass;
    }

    /** mint: allocates the next id to the caller and records the caller as creator and the URI. */
    method Mint(caller: Address, uri: string) returns (r: Result<TokenId, Error>)
      requires Valid()
      modifies this
      ensures Valid()
      ensures caller == ZeroAddress ==> r == Err(MintToZeroAddress)
      ensures caller != ZeroAddress && old(paused) ==> r == Err(TransferWhilePaused)
      ensures r.Ok? <==> caller != ZeroAddress && !old(paused)
      ensures r.Err? ==> unchanged(this)
      ensures r.Ok? ==> && r.value == old(tokenId) + 1 && tokenId == r.value
                        && owners == old(owners)[r.value := caller]
                        && creators == old(creators)[r.value := caller]
                        && tokenURIs == old(tokenURIs)[r.value := uri]
                        && (forall a :: BalanceIn(balances, a) == old(BalanceIn(balances, a)) + (if a == caller then 1 else 0))
                        && operatorApprovals == old(operatorApprovals) && paused == old(paused)
    {
      if caller == ZeroAddress {
        return Err(MintToZeroAddress);
      }
      if paused {
        return Err(TransferWhilePaused);
      }
      var id := Record(caller, uri);
      r := Ok(id);
    }

    /** The state change of a mint that passed its checks: the next id goes to `caller`. */
    method Record(caller: Address, uri: string) returns (id: TokenId)
      requires Valid() && caller != ZeroAddress
      modifies this
      ensures Valid()
      ensures id == old(tokenId) + 1 && tokenId == id
      ensures owners == old(owners)[id := caller]
      ensures creators == old(creators)[id := caller]
      ensures tokenURIs == old(tokenURIs)[id := uri]
      ensures balances == Credit(old(balances), caller, 1)
      ensures operatorApprovals == old(operatorApprovals) && paused == old(paused)
    {
      id := tokenId + 1;
      MintKeepsConsistent(tokenId, owners, balances, creators, tokenURIs, caller, uri);
      tokenId, owners, balances, creators, tokenURIs :=
        id, owners[id := caller], Credit(balances, caller, 1), creators[id := caller], tokenURIs[id := uri];
    }

    /** pause: stops every transfer and mint; reverts when already paused. */
    method Pause() returns (o: Outcome<Error>)
      requires Valid()
      modifies this`paused
      ensures Valid()
      ensures o.Fail? <==> old(paused)
      ensures o.Fail? ==> o.error == AlreadyPaused
      ensures paused
    {
      if paused {
        return Fail(AlreadyPaused);
      }
      paused := true;
      o := Pass;
    }
  }
}
