/**
 * The transactions page: the split of the list into pre-approved and
 * needs-approval records, the row click handlers that set
 * `selectedTransaction`, and the choice of which modal that selection opens.
 */
module Transactions {

  import opened Wrappers
  import opened Ledger

  /** `transactions.filter(t => t.isPreApproved)`. */
  function PreApproved(txs: seq<Transaction>): (r: seq<Transaction>)
    ensures forall t :: t in r <==> t in txs && t.isPreApproved
  {
    if txs == [] then []
    else
      assert forall t :: t in txs ==> t == txs[0] || t in txs[1..];
      if txs[0].isPreApproved then [txs[0]] + PreApproved(txs[1..]) else PreApproved(txs[1..])
  }

  /** `transactions.filter(t => !t.isPreApproved)`. */
  function NeedsApproval(txs: seq<Transaction>): (r: seq<Transaction>)
    ensures forall t :: t in r <==> t in txs && !t.isPreApproved
  {
    if txs == [] then []
    else
      assert forall t :: t in txs ==> t == txs[0] || t in txs[1..];
      if !txs[0].isPreApproved then [txs[0]] + NeedsApproval(txs[1..]) else NeedsApproval(txs[1..])
  }

  /** `a` can be obtained from `b` by deleting elements: same elements, same relative order. */
  ghost predicate IsSubsequence<T>(a: seq<T>, b: seq<T>)
    decreases |b|
  {
    if a == [] then true
    else if b == [] then false
    else if a[0] == b[0] then IsSubsequence(a[1..], b[1..])
    else IsSubsequence(a, b[1..])
  }

  /** Putting one more element in front of `b` keeps `a` a subsequence of it. */
  lemma {:induction false} SubsequenceOfTail<T>(a: seq<T>, b: seq<T>)
    requires b != [] && IsSubsequence(a, b[1..])
    ensures IsSubsequence(a, b)
    decreases |b|, 0
  {
    if a != [] && a[0] == b[0] {
      SubsequenceDropFirst(a, b[1..]);
    }
  }

  lemma {:induction false} SubsequenceDropFirst<T>(a: seq<T>, b: seq<T>)
    requires a != [] && IsSubsequence(a, b)
    ensures IsSubsequence(a[1..], b)
    decreases |b|, 1
  {
    if a[0] == b[0] {
      SubsequenceOfTail(a[1..], b);
    } else {
      SubsequenceDropFirst(a, b[1..]);
      SubsequenceOfTail(a[1..], b);
    }
  }

  /** Together the two lists hold every record exactly as often as the list does; none is in both. */
  lemma {:induction false} PartitionMultiset(txs: seq<Transaction>)
    ensures multiset(PreApproved(txs)) + multiset(NeedsApproval(txs)) == multiset(txs)
    ensures multiset(PreApproved(txs)) !! multiset(NeedsApproval(txs))
    ensures |PreApproved(txs)| + |NeedsApproval(txs)| == |txs|
  {
    PartitionSum(txs);
    var pre, needs := PreApproved(txs), NeedsApproval(txs);
    forall t | t in multiset(pre) ensures t !in multiset(needs) {
      assert t in pre;
    }
    assert |multiset(pre) + multiset(needs)| == |multiset(pre)| + |multiset(needs)|;
  }

  /** The multiset part of `PartitionMultiset`, by induction on the list. */
  lemma {:induction false} PartitionSum(txs: seq<Transaction>)
    ensures multiset(PreApproved(txs)) + multiset(NeedsApproval(txs)) == multiset(txs)
  {
    if txs != [] {
      var tail := txs[1..];
      PartitionSum(tail);
      assert txs == [txs[0]] + tail;
      assert multiset(txs) == multiset([txs[0]]) + multiset(tail);
      if txs[0].isPreApproved {
        assert PreApproved(txs) == [txs[0]] + PreApproved(tail);
        assert NeedsApproval(txs) == NeedsApproval(tail);
      } else {
        assert PreApproved(txs) == PreApproved(tail);
        assert NeedsApproval(txs) == [txs[0]] + NeedsApproval(tail);
      }
    }
  }

  /** Each list keeps the relative order the records have in the whole list. */
  lemma {:induction false} PartitionKeepsOrder(txs: seq<Transaction>)
    ensures IsSubsequence(PreApproved(txs), txs) && IsSubsequence(NeedsApproval(txs), txs)
  {
    if txs != [] {
      PartitionKeepsOrder(txs[1..]);
      var pre, needs := PreApproved(txs), NeedsApproval(txs);
      if txs[0].isPreApproved {
        assert pre == [txs[0]] + PreApproved(txs[1..]);
        assert pre[1..] == PreApproved(txs[1..]);
        SubsequenceOfTail(needs, txs);
      } else {
        assert needs == [txs[0]] + NeedsApproval(txs[1..]);
        assert needs[1..] == NeedsApproval(txs[1..]);
        SubsequenceOfTail(pre, txs);
      }
    }
  }

  /** The modal the page renders below the lists. */
  datatype Modal = NoModal | CategoryModal(transaction: Transaction) | ApprovalModal(transaction: Transaction)

  /**
   * `selectedTransaction && (isPreApproved ? <TransactionCategoryModal> : <ApprovalModal>)`:
   * nothing without a selection, otherwise the modal for the selected record's workflow.
   */
  function ModalFor(selected: Option<Transaction>): (m: Modal)
    ensures m.NoModal? <==> selected.None?
    ensures m.CategoryModal? <==> selected.Some? && selected.value.isPreApproved
    ensures m.ApprovalModal? <==> selected.Some? && !selected.value.isPreApproved
    ensures !m.NoModal? ==> m.transaction == selected.value
  {
    match selected
    case None => NoModal
    case Some(t) => if t.isPreApproved then CategoryModal(t) else ApprovalModal(t)
  }

  /** The business rule the click handlers keep: a pre-approved record is only selected once expired. */
  predicate SelectionAllowed(selected: Option<Transaction>) {
    selected.Some? && selected.value.isPreApproved ==> selected.value.isExpired
  }

  /** Under that rule, the category modal never opens on a pre-approved record still in its window. */
  lemma {:induction false} CategoryModalOnlyWhenExpired(selected: Option<Transaction>)
    requires SelectionAllowed(selected)
    ensures ModalFor(selected).CategoryModal? ==> ModalFor(selected).transaction.isExpired
  {
  }

  class TransactionsPage {
    var selectedTransaction: Option<Transaction>

    ghost predicate Valid()
      reads this
    {
      SelectionAllowed(selectedTransaction)
    }

    /** `useState(null)`. */
    constructor ()
      ensures selectedTransaction == None && Valid()
    {
      selectedTransaction := None;
    }

    function OpenModal(): Modal
      reads this
    {
      ModalFor(selectedTransaction)
    }

    /** A pre-approved row's `onClick`: selects the record only once it has expired. */
    method HandlePreApprovedClick(transaction: Transaction)
      requires Valid()
      modifies this
      ensures Valid()
      ensures selectedTransaction == if transaction.isExpired then Some(transaction) else old(selectedTransaction)
    {
      if transaction.isExpired {
        selectedTransaction := Some(transaction);
      }
    }

    /** A needs-approval row's `onClick`: always selects; those rows are records that are not pre-approved. */
    method HandleNeedsApprovalClick(transaction: Transaction)
      requires Valid() && !transaction.isPreApproved
      modifies this
      ensures Valid()
      ensures selectedTransaction == Some(transaction)
    {
      selectedTransaction := Some(transaction);
    }

    /** `handleCloseModal`: the `onClose` every modal gets; clears the selection and so the modal. */
    method HandleCloseModal()
      modifies this
      ensures Valid()
      ensures selectedTransaction == None && OpenModal() == NoModal
    {
      selectedTransaction := None;
    }
  }
}
