/** Types shared by the token registry and the marketplace. */
module Common {

  /** An account or contract address. Address zero is never a valid holder. */
  type Address = nat

  const ZeroAddress: Address := 0

  /** The value of a call that either returns or reverts with an error. */
  datatype Result<+T, +E> = Ok(value: T) | Err(error: E)

  /** The outcome of a call that returns nothing or reverts with an error. */
  datatype Outcome<+E> = Pass | Fail(error: E)

  /** A per-address amount, with absent addresses counting as zero (Solidity mapping semantics). */
  function BalanceIn(m: map<Address, nat>, a: Address): (amount: nat)
  {
    if a in m then m[a] else 0
  }

  /** `m` with `amount` added to the entry of `a`. */
  function Credit(m: map<Address, nat>, a: Address, amount: nat): (r: map<Address, nat>)
    ensures forall b {:trigger BalanceIn(r, b)} :: BalanceIn(r, b) == BalanceIn(m, b) + (if b == a then amount else 0)
  {
    m[a := BalanceIn(m, a) + amount]
  }

  /** The predicate "is the address `a`", used to select the tokens held or created by `a`. */
  function EqualTo(a: Address): (p: Address -> bool)
  {
    x => x == a
  }
}
