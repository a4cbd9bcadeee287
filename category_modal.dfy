/**
 * The category chooser: four buttons, one per category, each of which
 * processes the modal's record under that category and then closes.
 *
 * The chooser is opened either by the page for an expired pre-approved record
 * (`parent == null`, `onClose` is the page's `handleCloseModal`) or by an
 * approval modal after "Yes" (`parent` is that modal, `onClose` its nested
 * close handler).
 */
module CategoryFlow {

  import opened Wrappers
  import opened Ledger
  import opened Transactions
  import opened ApprovalFlow
  import AppStateContext

  /** The four buttons, top to bottom. */
  datatype CategoryButton = DebtPaidButton | SavedButton | InvestedButton | SpentButton

  /** The `TransactionCategory` constant each button passes to `handleCategorySelect`. */
  function ButtonCategory(b: CategoryButton): Category {
    match b
    case DebtPaidButton => DebtPaid
    case SavedButton => Saved
    case InvestedButton => Invested
    case SpentButton => Spent
  }

  /** The button that passes a given category. */
  function CategoryButtonFor(c: Category): CategoryButton {
    match c
    case DebtPaid => DebtPaidButton
    case Saved => SavedButton
    case Invested => InvestedButton
    case Spent => SpentButton
  }

  /** The buttons and the categories correspond one to one. */
  lemma {:induction false} ButtonsBijective(b: CategoryButton, c: Category)
    ensures CategoryButtonFor(ButtonCategory(b)) == b
    ensures ButtonCategory(CategoryButtonFor(c)) == c
    ensures ButtonCategory(b) == c <==> CategoryButtonFor(c) == b
  {
  }

  /** Each button's category string is one `processTransaction` recognises as that category. */
  lemma {:induction false} ButtonNameParses(b: CategoryButton)
    ensures ParseCategory(CategoryName(ButtonCategory(b))) == Some(ButtonCategory(b))
  {
    CategoryNameRoundTrip(ButtonCategory(b));
  }

  class TransactionCategoryModal {
    const transaction: Transaction
    const page: TransactionsPage
    const parent: ApprovalModal?

    /** Opened from an approval modal, the chooser works on that modal's record and page. */
    ghost predicate Valid()
    {
      parent != null ==> parent.transaction == transaction && parent.page == page
    }

    constructor (transaction: Transaction, page: TransactionsPage, parent: ApprovalModal?)
      requires parent != null ==> parent.transaction == transaction && parent.page == page
      ensures this.transaction == transaction && this.page == page && this.parent == parent
      ensures Valid()
    {
      this.transaction := transaction;
      this.page := page;
      this.parent := parent;
    }

    /** `onClose`: the page's close when opened from the page, else the approval modal's nested close. */
    method Close()
      requires Valid()
      modifies page, parent
      ensures page.selectedTransaction == None && page.OpenModal() == NoModal
      ensures parent != null ==> !parent.showCategorization
      ensures parent != null ==>
        parent.showApprovalDenied == old(parent.showApprovalDenied) && parent.pendingCloses == old(parent.pendingCloses)
    {
      if parent == null {
        page.HandleCloseModal();
      } else {
        parent.HandleCategorizationClose();
      }
    }

    /**
     * `handleCategorySelect`: process exactly this record under the button's
     * category, then close. The record leaves the list and that category's
     * counter grows by its amount.
     */
    method HandleCategorySelect(b: CategoryButton, app: AppStateContext.AppState)
      requires Valid() && app.Valid()
      modifies app, page, parent
      ensures app.Valid()
      ensures app.State() == Process(old(app.State()), transaction.id, CategoryName(ButtonCategory(b)))
      ensures !HasId(app.transactions, transaction.id)
      ensures app.isDarkMode == old(app.isDarkMode)
      ensures page.selectedTransaction == None && page.OpenModal() == NoModal
      ensures parent != null ==> !parent.showCategorization
      ensures parent != null ==>
        parent.showApprovalDenied == old(parent.showApprovalDenied) && parent.pendingCloses == old(parent.pendingCloses)
    {
      app.ProcessTransaction(transaction.id, CategoryName(ButtonCategory(b)));
      Close();
    }

    /** The header's close button: close without processing, so the ledger is as it was. */
    method HandleHeaderClose(app: AppStateContext.AppState)
      requires Valid()
      modifies page, parent
      ensures app.State() == old(app.State())
      ensures page.selectedTransaction == None && page.OpenModal() == NoModal
      ensures parent != null ==> !parent.showCategorization
      ensures parent != null ==>
        parent.showApprovalDenied == old(parent.showApprovalDenied) && parent.pendingCloses == old(parent.pendingCloses)
    {
      Close();
    }
  }

  /**
   * The approve path end to end: "Yes", then a category button in the chooser
   * that opens on top. The record is processed under that category and the page
   * is left with no modal.
   */
  method ApproveThenCategorise(modal: ApprovalModal, b: CategoryButton, app: AppStateContext.AppState)
    requires app.Valid()
    modifies modal, modal.page, app
    ensures app.State() == Process(old(app.State()), modal.transaction.id, CategoryName(ButtonCategory(b)))
    ensures !modal.showCategorization && modal.page.selectedTransaction == None
  {
    modal.HandleApprove();
    var chooser := new TransactionCategoryModal(modal.View().nestedCategoryModal.value, modal.page, modal);
    chooser.HandleCategorySelect(b, app);
  }
}
