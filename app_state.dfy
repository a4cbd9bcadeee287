/**
 * The application state provider: the six state cells (`transactions`,
 * `isDarkMode` and the four counters) and the operations that update them
 * through their setters. Each operation is stated against the pure ledger
 * functions; `now` and the fresh id stand for `new Date()` and
 * `crypto.randomUUID()`.
 */
module AppStateContext {

  import opened Wrappers
  import opened Ledger

  class AppState {
    var transactions: seq<Transaction>
    var isDarkMode: bool
    var debtPaid: int
    var saved: int
    var invested: int
    var spent: int

    /** Ids stay unique: every id comes from a fresh UUID. */
    ghost predicate Valid()
      reads this
    {
      UniqueIds(transactions)
    }

    /** The ledger part of the state, the value the pure operations act on. */
    function State(): LedgerState
      reads this
    {
      LedgerState(transactions, debtPaid, saved, invested, spent)
    }

    /** The `useState` initial values: no records, counters at 0, light mode. */
    constructor ()
      ensures Valid() && State() == Empty && !isDarkMode
    {
      transactions := [];
      isDarkMode := false;
      debtPaid, saved, invested, spent := 0, 0, 0, 0;
    }

    /** `addTransaction(amount, label, isPreApproved)`, `id` being fresh and `now` the creation time. */
    method AddTransaction(id: Id, amount: int, labelText: string, isPreApproved: bool, now: int)
      requires Valid() && !HasId(transactions, id)
      modifies this
      ensures Valid()
      ensures State() == Add(old(State()), id, amount, labelText, isPreApproved, now)
      ensures |transactions| == |old(transactions)| + 1
      ensures transactions[..|old(transactions)|] == old(transactions)
      ensures transactions[|old(transactions)|] == Transaction(id, amount, labelText, isPreApproved, now, false)
      ensures isDarkMode == old(isDarkMode)
    {
      AddKeepsUnique(State(), id, amount, labelText, isPreApproved, now);
      var newTransaction := NewTransaction(id, amount, labelText, isPreApproved, now);
      transactions := transactions + [newTransaction];
    }

    /**
     * `processTransaction(transactionId, category)`: find the record, credit its
     * amount to the counter the category names, then filter it out of the list.
     */
    method ProcessTransaction(transactionId: Id, category: string)
      requires Valid()
      modifies this
      ensures Valid()
      ensures State() == Process(old(State()), transactionId, category)
      ensures !HasId(old(transactions), transactionId) ==> State() == old(State())
      ensures NonNegativeAmounts(old(transactions)) ==>
        debtPaid >= old(debtPaid) && saved >= old(saved) && invested >= old(invested) && spent >= old(spent)
      ensures isDarkMode == old(isDarkMode)
    {
      ProcessPreservesUnique(State(), transactionId, category);
      if NonNegativeAmounts(transactions) {
        ProcessMonotone(State(), transactionId, category);
      }
      var transaction := Find(transactions, transactionId);
      if transaction.None? {
        return;
      }
      var amount := transaction.value.amount;
      match ParseCategory(category) {
        case Some(DebtPaid) => debtPaid := debtPaid + amount;
        case Some(Saved) => saved := saved + amount;
        case Some(Invested) => invested := invested + amount;
        case Some(Spent) => spent := spent + amount;
        case None =>
      }
      transactions := Remove(transactions, transactionId);
    }

    /** `resetAll`: every record gone and every counter back to 0; the theme is kept. */
    method ResetAll()
      modifies this
      ensures Valid()
      ensures State() == Empty
      ensures isDarkMode == old(isDarkMode)
    {
      transactions := [];
      debtPaid := 0;
      saved := 0;
      invested := 0;
      spent := 0;
    }

    /** `toggleDarkMode`: flips the theme flag, so two toggles restore it; the ledger is kept. */
    method ToggleDarkMode()
      modifies this
      ensures Valid() == old(Valid())
      ensures isDarkMode == !old(isDarkMode)
      ensures State() == old(State())
    {
      isDarkMode := !isDarkMode;
    }

    /**
     * The body of the one-second timer: recompute every record's `isExpired`,
     * and replace the list only when some flag actually changed (`changed`).
     */
    method Tick(now: int) returns (changed: bool)
      requires Valid()
      modifies this
      ensures Valid()
      ensures transactions == Refresh(old(transactions), now)
      ensures changed <==> FlagsStale(old(transactions), now)
      ensures !changed ==> transactions == old(transactions)
      ensures debtPaid == old(debtPaid) && saved == old(saved) && invested == old(invested) && spent == old(spent)
      ensures isDarkMode == old(isDarkMode)
    {
      var updatedTransactions := Refresh(transactions, now);
      RefreshChangesIff(transactions, now);
      RefreshPreservesIds(transactions, now);
      if updatedTransactions != transactions {
        transactions := updatedTransactions;
        changed := true;
      } else {
        changed := false;
      }
    }
  }

  /** Toggling the theme twice gives back the original flag and leaves the ledger alone. */
  method ToggleTwice(app: AppState)
    modifies app
    ensures app.isDarkMode == old(app.isDarkMode) && app.State() == old(app.State())
  {
    app.ToggleDarkMode();
    app.ToggleDarkMode();
  }
}
