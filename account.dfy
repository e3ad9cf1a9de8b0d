/**
 * The account entity and its balance guard.
 *
 * An account has an identifier and a balance held in integer minor currency
 * units (cents). `Debit` refuses an amount larger than the balance and
 * otherwise subtracts it; `Credit` always adds. Neither touches the
 * identifier. The pure functions `DebitBalance` and `CreditBalance` give the
 * effect of the two operations on a balance value; the class methods are
 * proved against them.
 */
module Accounts {

  import opened Wrappers

  /** The balance after debiting `amount`, or None when the balance is too small. */
  function DebitBalance(balance: int, amount: int): (r: Option<int>)
    ensures r.Some? <==> amount <= balance
    ensures r.Some? ==> r.value + amount == balance
    ensures balance >= 0 && r.Some? ==> r.value >= 0
  {
    if balance < amount then None else Some(balance - amount)
  }

  /** The balance after crediting `amount`; a credit never fails. */
  function CreditBalance(balance: int, amount: int): (r: int)
    ensures r - amount == balance
  {
    balance + amount
  }

  /** Crediting what was just debited restores the balance (the self-transfer case). */
  lemma CreditUndoesDebit(balance: int, amount: int)
    requires amount <= balance
    ensures DebitBalance(balance, amount).Some?
    ensures CreditBalance(DebitBalance(balance, amount).value, amount) == balance
  {
  }

  class Account {
    /** Assigned when the account is created and never changed afterwards. */
    const id: int
    var balance: int

    /** An account with the given identifier and opening balance. */
    constructor (id: int, balance: int)
      ensures this.id == id && this.balance == balance
    {
      this.id := id;
      this.balance := balance;
    }

    /** Subtracts `amount` when the balance covers it; `ok` is false (the
        "Insufficient balance" failure) and nothing changes otherwise. */
    method Debit(amount: int) returns (ok: bool)
      modifies this`balance
      ensures ok <==> amount <= old(balance)
      ensures DebitBalance(old(balance), amount) == if ok then Some(balance) else None
      ensures !ok ==> balance == old(balance)
      ensures old(balance) >= 0 ==> balance >= 0
    {
      if balance < amount {
        return false;
      }
      balance := balance - amount;
      return true;
    }

    /** Adds `amount` to the balance. */
    method Credit(amount: int)
      modifies this`balance
      ensures balance == CreditBalance(old(balance), amount)
    {
      balance := balance + amount;
    }
  }
}
