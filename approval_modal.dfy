/**
 * The approval modal for a record that needs approval: "Yes" opens the
 * category chooser on top of it, "No" shows the denial alert and closes the
 * modal two seconds later. None of its handlers reaches the ledger.
 *
 * The `onClose` prop is the page's `handleCloseModal`, so the modal keeps the
 * page it closes. A pending `setTimeout` is kept as its due time in
 * `pendingCloses`; `FireCloseTimer` is the timer callback running later.
 */
module ApprovalFlow {

  import opened Wrappers
  import opened Ledger
  import opened Transactions
  import AppStateContext

  /** The delay `handleDeny` gives its `setTimeout` before closing. */
  const DENY_CLOSE_DELAY_MS: int := 2000

  /** What the modal shows beyond its fixed header and question. */
  datatype ApprovalView = ApprovalView(denialAlert: bool, nestedCategoryModal: Option<Transaction>)

  class ApprovalModal {
    const transaction: Transaction
    const page: TransactionsPage
    var showApprovalDenied: bool
    var showCategorization: bool
    var pendingCloses: seq<int>

    /** `useState(false)` twice; no timer started yet. */
    constructor (transaction: Transaction, page: TransactionsPage)
      ensures this.transaction == transaction && this.page == page
      ensures !showApprovalDenied && !showCategorization && pendingCloses == []
      ensures View() == ApprovalView(false, None)
    {
      this.transaction := transaction;
      this.page := page;
      showApprovalDenied := false;
      showCategorization := false;
      pendingCloses := [];
    }

    /**
     * The render: the denial alert exactly while `showApprovalDenied` holds, and
     * the category chooser on this modal's record exactly while `showCategorization` holds.
     */
    function View(): (v: ApprovalView)
      reads this
      ensures v.denialAlert <==> showApprovalDenied
      ensures v.nestedCategoryModal.Some? <==> showCategorization
      ensures v.nestedCategoryModal.Some? ==> v.nestedCategoryModal.value == transaction
    {
      ApprovalView(showApprovalDenied, if showCategorization then Some(transaction) else None)
    }

    /** `handleApprove`: open the category chooser; nothing else changes. */
    method HandleApprove()
      modifies this
      ensures showCategorization && View().nestedCategoryModal == Some(transaction)
      ensures showApprovalDenied == old(showApprovalDenied) && pendingCloses == old(pendingCloses)
    {
      showCategorization := true;
    }

    /** `handleDeny`: show the alert and schedule one close `DENY_CLOSE_DELAY_MS` from `now`. */
    method HandleDeny(now: int)
      modifies this
      ensures showApprovalDenied && View().denialAlert
      ensures pendingCloses == old(pendingCloses) + [now + DENY_CLOSE_DELAY_MS]
      ensures showCategorization == old(showCategorization)
    {
      showApprovalDenied := true;
      pendingCloses := pendingCloses + [now + DENY_CLOSE_DELAY_MS];
    }

    /**
     * A scheduled close whose due time has come: it is taken off the pending
     * list and calls the page's `handleCloseModal`, whatever the page shows by then.
     */
    method FireCloseTimer(k: nat, now: int)
      requires k < |pendingCloses| && pendingCloses[k] <= now
      modifies this, page
      ensures pendingCloses == old(pendingCloses[..k] + pendingCloses[k + 1..])
      ensures page.selectedTransaction == None && page.OpenModal() == NoModal
      ensures showApprovalDenied == old(showApprovalDenied) && showCategorization == old(showCategorization)
    {
      pendingCloses := pendingCloses[..k] + pendingCloses[k + 1..];
      page.HandleCloseModal();
    }

    /** The header's close button: `onClose` directly. */
    method HandleHeaderClose()
      modifies page
      ensures page.selectedTransaction == None && page.OpenModal() == NoModal
    {
      page.HandleCloseModal();
    }

    /** The nested chooser's `onClose`: hide the chooser, then close this modal through the page. */
    method HandleCategorizationClose()
      modifies this, page
      ensures !showCategorization && View().nestedCategoryModal == None
      ensures page.selectedTransaction == None && page.OpenModal() == NoModal
      ensures showApprovalDenied == old(showApprovalDenied) && pendingCloses == old(pendingCloses)
    {
      showCategorization := false;
      page.HandleCloseModal();
    }
  }

  /**
   * Denying and letting the timer run out: the page ends with no modal, and the
   * ledger has not moved, so the record is still in the list and no counter changed.
   */
  method DenyThenTimeout(modal: ApprovalModal, app: AppStateContext.AppState, now: int)
    requires HasId(app.transactions, modal.transaction.id)
    modifies modal, modal.page
    ensures modal.page.selectedTransaction == None && modal.showApprovalDenied
    ensures modal.pendingCloses == old(modal.pendingCloses)
    ensures app.State() == old(app.State()) && HasId(app.transactions, modal.transaction.id)
  {
    modal.HandleDeny(now);
    modal.FireCloseTimer(|modal.pendingCloses| - 1, now + DENY_CLOSE_DELAY_MS);
  }

  /** Approving only opens the chooser: the ledger is left as it was. */
  method ApproveLeavesLedger(modal: ApprovalModal, app: AppStateContext.AppState)
    modifies modal
    ensures modal.showCategorization
    ensures app.State() == old(app.State()) && app.isDarkMode == old(app.isDarkMode)
  {
    modal.HandleApprove();
  }
}
