/** The token side of the contract, seen from the round engine: addresses, the
    transfers it asks the token contract to make, and sums over a log of them.
    Balances and the token contract's own rules are not modelled; a transfer the
    token contract refuses aborts the calling operation. */
module Ledger {

  /** An account or contract address on the ledger. */
  datatype Address = Address(id: nat)

  /** One call `transfer(from, to, amount)` made on the token contract. */
  datatype Transfer = Transfer(from: Address, to: Address, amount: int)

  /** Sum of the amounts moved by the transfers in `ts`. */
  ghost function Total(ts: seq<Transfer>): int {
    if ts == [] then 0 else Total(ts[..|ts| - 1]) + ts[|ts| - 1].amount
  }

  /** The contributions of `payers`, in order: each moves `amount` from the payer
      into `custody`. */
  ghost function Deposits(payers: seq<Address>, custody: Address, amount: int): (d: seq<Transfer>) {
    seq(|payers|, i requires 0 <= i < |payers| => Transfer(payers[i], custody, amount))
  }

  /** One more payer adds exactly one deposit at the end. */
  lemma DepositsAppend(payers: seq<Address>, payer: Address, custody: Address, amount: int)
    ensures Deposits(payers + [payer], custody, amount)
         == Deposits(payers, custody, amount) + [Transfer(payer, custody, amount)]
  {
  }

  /** If `log` ends, from position `start`, with the deposits of `payers`, then
      after one more deposit it ends with the deposits of `payers + [payer]`. */
  lemma DepositRecorded(log: seq<Transfer>, start: nat, payers: seq<Address>, payer: Address, custody: Address, amount: int)
    requires start <= |log| && log[start..] == Deposits(payers, custody, amount)
    ensures (log + [Transfer(payer, custody, amount)])[start..]
         == Deposits(payers + [payer], custody, amount)
  {
  }

  /** If `log` ends, from position `start`, with the deposits of `payers`, and a
      last deposit and then a payout are appended, the deposits between `start`
      and the payout total `amount` once per payer, the last one included. */
  lemma RoundSettles(log: seq<Transfer>, start: nat, payers: seq<Address>, payer: Address,
                     custody: Address, amount: int, payout: Transfer)
    requires start <= |log| && log[start..] == Deposits(payers, custody, amount)
    ensures var full := log + [Transfer(payer, custody, amount), payout];
            Total(full[start..|full| - 1]) == amount * (|payers| + 1)
  {
    var deposit := Transfer(payer, custody, amount);
    var full := log + [deposit, payout];
    assert full[start..|full| - 1] == (log + [deposit])[start..];
    DepositRecorded(log, start, payers, payer, custody, amount);
    DepositsTotal(payers + [payer], custody, amount);
  }

  /** The contributions of `payers` bring `amount` into custody once per payer. */
  lemma {:induction false} DepositsTotal(payers: seq<Address>, custody: Address, amount: int)
    ensures Total(Deposits(payers, custody, amount)) == amount * |payers|
  {
    if payers != [] {
      var n := |payers|;
      var d := Deposits(payers, custody, amount);
      assert d[..n - 1] == Deposits(payers[..n - 1], custody, amount);
      DepositsTotal(payers[..n - 1], custody, amount);
      assert amount * (n - 1) + amount == amount * n;
    }
  }
}
