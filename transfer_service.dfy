/**
 * The transfer service: the coordinator that validates a request, loads both
 * accounts from the account store, takes their locks in a fixed order,
 * debits, credits, saves, notifies and appends the ledger entry.
 *
 * The account store has two parts: `store` maps each identifier to its one
 * managed Account object, so two lookups of one identifier yield the same
 * object, as the store's entity cache does; `balances` holds the balance
 * last saved for each identifier. Every call made to the store, every lock
 * taken, every notification and every ledger entry is kept in a sequence
 * field. The observable value `Snapshot()` of the service is a
 * TransferSpec.State, and each method is proved against the function of that
 * module it implements.
 */
module TransferServices {

  import opened Wrappers
  import opened Accounts
  import opened TransferSpec

  class TransferService {
    /** The managed Account object of each stored identifier; a transfer
        changes these objects' balances but never which object is filed where. */
    const store: map<int, Account>
    /** The persisted balance of each stored account, as last saved. */
    var balances: map<int, int>
    var storeCalls: seq<StoreCall>
    var locks: seq<int>
    var notifications: seq<Notification>
    var ledger: seq<TransferRecord>
    /** Whether a notification service is present; without one nothing is sent. */
    const hasNotifier: bool

    /** Each stored account is filed under its own identifier, and its
        persisted balance is the balance of its object. */
    ghost predicate Valid()
      reads this`balances, store.Values
    {
      && store.Keys == balances.Keys
      && forall id :: id in store ==> store[id].id == id && store[id].balance == balances[id]
    }

    /** The observable state of the service. */
    ghost function Snapshot(): State
      reads this`balances, this`storeCalls, this`locks, this`notifications, this`ledger
    {
      State(balances, storeCalls, locks, notifications, ledger)
    }

    /** A service over the given accounts, with nothing yet logged. */
    constructor (accounts: map<int, Account>, hasNotifier: bool)
      requires forall id :: id in accounts ==> accounts[id].id == id
      ensures Valid() && store == accounts && this.hasNotifier == hasNotifier
      ensures Snapshot() == State(map id | id in accounts :: accounts[id].balance, [], [], [], [])
    {
      store := accounts;
      balances := map id | id in accounts :: accounts[id].balance;
      storeCalls, locks, notifications, ledger := [], [], [], [];
      this.hasNotifier := hasNotifier;
    }

    /** The stored account with this identifier, or null. */
    method FindById(id: int) returns (a: Account?)
      modifies this`storeCalls
      ensures a == if id in store then store[id] else null
      ensures storeCalls == old(storeCalls) + [StoreCall.FindById(id)]
    {
      storeCalls := storeCalls + [StoreCall.FindById(id)];
      a := if id in store then store[id] else null;
    }

    /** Persists the balance of an account under its identifier. */
    method Save(a: Account)
      modifies this`balances, this`storeCalls
      ensures balances == old(balances)[a.id := a.balance]
      ensures storeCalls == old(storeCalls) + [StoreCall.Save(a.id)]
    {
      balances := balances[a.id := a.balance];
      storeCalls := storeCalls + [StoreCall.Save(a.id)];
    }

    /** Enters the monitor of an account. */
    method Lock(a: Account)
      modifies this`locks
      ensures locks == old(locks) + [a.id]
    {
      locks := locks + [a.id];
    }

    /** Sends one notification, when a notification service is present. */
    method Notify(n: Notification)
      modifies this`notifications
      ensures notifications == if hasNotifier then old(notifications) + [n] else old(notifications)
    {
      if hasNotifier {
        notifications := notifications + [n];
      }
    }

    /** Persists both accounts of a transfer, source first. */
    method SaveBoth(accountFrom: Account, accountTo: Account)
      modifies this`balances, this`storeCalls
      ensures balances == old(balances)[accountFrom.id := accountFrom.balance][accountTo.id := accountTo.balance]
      ensures storeCalls == old(storeCalls) + [StoreCall.Save(accountFrom.id), StoreCall.Save(accountTo.id)]
    {
      Save(accountFrom);
      Save(accountTo);
    }

    /** Enters the monitors of both accounts, smaller identifier first,
        whatever the direction of the transfer. */
    method LockBoth(accountFrom: Account, accountTo: Account)
      modifies this`locks
      ensures locks == old(locks) + [LockOrder(accountFrom.id, accountTo.id).0, LockOrder(accountFrom.id, accountTo.id).1]
    {
      if accountFrom.id < accountTo.id {
        Lock(accountFrom);
        Lock(accountTo);
      } else {
        Lock(accountTo);
        Lock(accountFrom);
      }
    }

    /** Notifies both holders of a transfer, source first, when a
        notification service is present. */
    method NotifyBoth(fromId: int, toId: int, amount: int)
      modifies this`notifications
      ensures notifications == if hasNotifier then old(notifications) + TransferNotices(fromId, toId, amount) else old(notifications)
    {
      Notify(Notification(fromId, Sent, amount, toId));
      Notify(Notification(toId, Received, amount, fromId));
    }

    /** Debit, credit, save both accounts and notify both holders; stops at a
        failed debit with nothing changed. */
    method PerformTransfer(accountFrom: Account, accountTo: Account, amount: int) returns (ok: bool)
      requires Valid()
      requires accountFrom.id in store && store[accountFrom.id] == accountFrom
      requires accountTo.id in store && store[accountTo.id] == accountTo
      modifies this`balances, this`storeCalls, this`notifications, accountFrom`balance, accountTo`balance
      ensures Valid()
      ensures TransferSpec.PerformTransfer(old(Snapshot()), accountFrom.id, accountTo.id, amount, hasNotifier)
              == if ok then Some(Snapshot()) else None
      ensures !ok ==> Snapshot() == old(Snapshot())
    {
      ghost var before := Snapshot();
      ok := accountFrom.Debit(amount);
      if !ok {
        assert DebitBalance(before.balances[accountFrom.id], amount) == None;
        return;
      }
      PerformTransferCovered(before, accountFrom.id, accountTo.id, amount, hasNotifier);
      ghost var afterDebit := before.balances[accountFrom.id := accountFrom.balance];
      assert accountTo.balance == afterDebit[accountTo.id];
      accountTo.Credit(amount);
      SaveBoth(accountFrom, accountTo);
      assert balances == afterDebit[accountTo.id := afterDebit[accountTo.id] + amount];
      NotifyBoth(accountFrom.id, accountTo.id, amount);
      assert Snapshot() == State(balances, storeCalls, before.locks, notifications, before.ledger);
      forall id | id in store
        ensures store[id].id == id && store[id].balance == balances[id]
      {
        if id != accountFrom.id && id != accountTo.id {
          assert store[id] != accountFrom && store[id] != accountTo;
        }
      }
    }

    /** Appends the ledger entry of a completed transfer. */
    method SaveTransferDetails(fromId: int, toId: int, amount: int)
      modifies this`ledger
      ensures ledger == old(ledger) + [TransferRecord(fromId, toId, amount)]
    {
      ledger := ledger + [TransferRecord(fromId, toId, amount)];
    }

    /** Moves `amount` from one account to another, behaving exactly as
        TransferSpec.Transfer on the service's observable state. */
    method Transfer(fromId: int, toId: int, amount: int) returns (r: Outcome)
      requires Valid()
      modifies this`balances, this`storeCalls, this`locks, this`notifications, this`ledger, store.Values
      ensures Valid()
      ensures (r, Snapshot()) == TransferSpec.Transfer(old(Snapshot()), fromId, toId, amount, hasNotifier)
    {
      if amount <= 0 {
        return InvalidAmount;
      }
      var accountFrom := FindById(fromId);
      if accountFrom == null {
        return AccountNotFound;
      }
      var accountTo := FindById(toId);
      if accountTo == null {
        return AccountNotFound;
      }
      LockBoth(accountFrom, accountTo);
      ghost var locked := Snapshot();
      assert locked == Locked(old(Snapshot()), fromId, toId);
      var ok := PerformTransfer(accountFrom, accountTo, amount);
      if !ok {
        return InsufficientBalance;
      }
      ghost var performed := Snapshot();
      SaveTransferDetails(accountFrom.id, accountTo.id, amount);
      assert Snapshot() == TransferSpec.SaveTransferDetails(performed, fromId, toId, amount);
      return Ok;
    }
  }

  /** The service's successful-transfer scenario, stated against the class:
      200.00 from account 1 (1000.00) to account 2 (500.00), in cents. */
  method SuccessfulTransferScenario()
    returns (r: Outcome, fromBalance: int, toBalance: int, notifications: seq<Notification>, ledger: seq<TransferRecord>)
    ensures r == Ok && fromBalance == 80000 && toBalance == 70000
    ensures notifications == [Notification(1, Sent, 20000, 2), Notification(2, Received, 20000, 1)]
    ensures ledger == [TransferRecord(1, 2, 20000)]
  {
    var from := new Account(1, 100000);
    var to := new Account(2, 50000);
    var service := new TransferService(map[1 := from, 2 := to], true);
    r := service.Transfer(1, 2, 20000);
    fromBalance, toBalance := from.balance, to.balance;
    notifications, ledger := service.notifications, service.ledger;
  }
}
