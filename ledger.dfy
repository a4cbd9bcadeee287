/**
 * The transaction ledger of the application state context: transaction records,
 * the four category counters, and the pure list expressions the context's
 * setters apply (`find`, `filter`, the expiry `map`).
 *
 * Amounts and counters are integer cents; times are integer milliseconds.
 */
module Ledger {

  import opened Wrappers

  type Id = string

  /** The pre-approval window: `setHours(getHours() + 24)`, in milliseconds. */
  const DAY_MS: int := 86_400_000

  /** The four buckets a processed transaction is credited to. */
  datatype Category = DebtPaid | Saved | Invested | Spent

  /** A category's wire name, the string value `TransactionCategory` gives it. */
  function CategoryName(c: Category): string {
    match c
    case DebtPaid => "debtPaid"
    case Saved => "saved"
    case Invested => "invested"
    case Spent => "spent"
  }

  /** The `switch (category)` of `processTransaction`: which case, if any, a string selects. */
  function ParseCategory(name: string): (r: Option<Category>)
    ensures r.Some? ==> CategoryName(r.value) == name
    ensures r.None? ==> forall c :: CategoryName(c) != name
  {
    if name == "debtPaid" then Some(DebtPaid)
    else if name == "saved" then Some(Saved)
    else if name == "invested" then Some(Invested)
    else if name == "spent" then Some(Spent)
    else None
  }

  lemma {:induction false} CategoryNameRoundTrip(c: Category)
    ensures ParseCategory(CategoryName(c)) == Some(c)
  {
  }

  datatype Transaction = Transaction(
    id: Id,
    amount: int,
    labelText: string,
    isPreApproved: bool,
    createdAt: int,
    isExpired: bool)

  /** The transaction list and the four counters, the part of the context the ledger operations change. */
  datatype LedgerState = LedgerState(
    transactions: seq<Transaction>,
    debtPaid: int,
    saved: int,
    invested: int,
    spent: int)

  /** The initial state, and the state every reset returns to. */
  const Empty: LedgerState := LedgerState([], 0, 0, 0, 0)

  function Counter(s: LedgerState, c: Category): int {
    match c
    case DebtPaid => s.debtPaid
    case Saved => s.saved
    case Invested => s.invested
    case Spent => s.spent
  }

  function Total(s: LedgerState): int {
    s.debtPaid + s.saved + s.invested + s.spent
  }

  predicate HasId(txs: seq<Transaction>, id: Id) {
    exists t :: t in txs && t.id == id
  }

  /** No two records share an id (ids come from `crypto.randomUUID()`). */
  ghost predicate UniqueIds(txs: seq<Transaction>) {
    forall i, j :: 0 <= i < j < |txs| ==> txs[i].id != txs[j].id
  }

  predicate NonNegativeAmounts(txs: seq<Transaction>) {
    forall t :: t in txs ==> t.amount >= 0
  }

  /** Sum of the amounts still pending in a list. */
  function Sum(txs: seq<Transaction>): int {
    if txs == [] then 0 else txs[0].amount + Sum(txs[1..])
  }

  // ---------------------------------------------------------------------------
  // addTransaction

  /** The record `addTransaction` builds: not yet expired, stamped with the current time. */
  function NewTransaction(id: Id, amount: int, labelText: string, isPreApproved: bool, now: int): Transaction {
    Transaction(id, amount, labelText, isPreApproved, now, false)
  }

  /** `[...prevTransactions, newTransaction]`; the counters are not touched. */
  function Add(s: LedgerState, id: Id, amount: int, labelText: string, isPreApproved: bool, now: int): (r: LedgerState)
    ensures |r.transactions| == |s.transactions| + 1
    ensures r.transactions[..|s.transactions|] == s.transactions
    ensures r.transactions[|s.transactions|] == Transaction(id, amount, labelText, isPreApproved, now, false)
    ensures r.debtPaid == s.debtPaid && r.saved == s.saved && r.invested == s.invested && r.spent == s.spent
  {
    s.(transactions := s.transactions + [NewTransaction(id, amount, labelText, isPreApproved, now)])
  }

  /** A fresh id keeps the ids unique, and the new id is then in the list. */
  lemma {:induction false} AddKeepsUnique(s: LedgerState, id: Id, amount: int, labelText: string, isPreApproved: bool, now: int)
    requires UniqueIds(s.transactions) && !HasId(s.transactions, id)
    ensures var r := Add(s, id, amount, labelText, isPreApproved, now);
      UniqueIds(r.transactions) && HasId(r.transactions, id)
  {
    var txs := s.transactions;
    var r := Add(s, id, amount, labelText, isPreApproved, now);
    assert r.transactions[|txs|] in r.transactions;
    forall i, j | 0 <= i < j < |r.transactions|
      ensures r.transactions[i].id != r.transactions[j].id
    {
      if j == |txs| {
        assert r.transactions[i] == txs[i];
        assert txs[i] in txs;
      }
    }
  }

  // ---------------------------------------------------------------------------
  // processTransaction

  /** `transactions.find(t => t.id === id)`: a record with that id; `FindFirst` shows it is the first. */
  function Find(txs: seq<Transaction>, id: Id): (r: Option<Transaction>)
    ensures r.None? <==> !HasId(txs, id)
    ensures r.Some? ==> r.value in txs && r.value.id == id
  {
    if txs == [] then None
    else if txs[0].id == id then Some(txs[0])
    else
      assert forall t :: t in txs && t != txs[0] ==> t in txs[1..];
      Find(txs[1..], id)
  }

  /** `transactions.filter(t => t.id !== id)`. */
  function Remove(txs: seq<Transaction>, id: Id): (r: seq<Transaction>)
    ensures forall t :: t in r <==> t in txs && t.id != id
    ensures |r| <= |txs|
  {
    if txs == [] then []
    else
      assert forall t :: t in txs ==> t == txs[0] || t in txs[1..];
      if txs[0].id == id then Remove(txs[1..], id) else [txs[0]] + Remove(txs[1..], id)
  }

  /** The amount `processTransaction` would credit for an id, 0 when the id is not found. */
  function AmountOf(txs: seq<Transaction>, id: Id): int {
    match Find(txs, id)
    case Some(t) => t.amount
    case None => 0
  }

  function Credit(s: LedgerState, c: Category, amount: int): LedgerState {
    match c
    case DebtPaid => s.(debtPaid := s.debtPaid + amount)
    case Saved => s.(saved := s.saved + amount)
    case Invested => s.(invested := s.invested + amount)
    case Spent => s.(spent := s.spent + amount)
  }

  /**
   * `processTransaction(id, category)`: an unknown id changes nothing; otherwise the
   * counter the category names (none, for an unrecognised string) grows by the
   * record's amount and every record with that id leaves the list.
   */
  function Process(s: LedgerState, id: Id, category: string): (r: LedgerState)
    ensures !HasId(r.transactions, id)
    ensures forall t :: t in r.transactions <==> t in s.transactions && t.id != id
  {
    match Find(s.transactions, id)
    case None => s
    case Some(t) =>
      var credited := match ParseCategory(category)
        case Some(c) => Credit(s, c, t.amount)
        case None => s;
      credited.(transactions := Remove(s.transactions, id))
  }

  lemma {:induction false} RemoveAbsent(txs: seq<Transaction>, id: Id)
    requires !HasId(txs, id)
    ensures Remove(txs, id) == txs
  {
    if txs != [] {
      assert txs[0] in txs;
      assert forall t :: t in txs[1..] ==> t in txs;
      RemoveAbsent(txs[1..], id);
    }
  }

  /** With unique ids, `find` returns the one record carrying the id. */
  lemma {:induction false} FindAt(txs: seq<Transaction>, id: Id, k: int)
    requires UniqueIds(txs) && 0 <= k < |txs| && txs[k].id == id
    ensures Find(txs, id) == Some(txs[k])
  {
    if k > 0 {
      assert txs[0].id != id;
      FindAt(txs[1..], id, k - 1);
    }
  }

  /** `find` returns the record at the first position that carries the id. */
  lemma {:induction false} FindFirst(txs: seq<Transaction>, id: Id, k: int)
    requires 0 <= k < |txs| && txs[k].id == id
    requires forall j :: 0 <= j < k ==> txs[j].id != id
    ensures Find(txs, id) == Some(txs[k])
  {
    if k > 0 {
      assert txs[0].id != id;
      assert forall j :: 0 <= j < k - 1 ==> txs[1..][j] == txs[j + 1];
      FindFirst(txs[1..], id, k - 1);
    }
  }

  /** With unique ids, the filter removes exactly the one record and keeps the rest in order. */
  lemma {:induction false} RemoveAt(txs: seq<Transaction>, id: Id, k: int)
    requires UniqueIds(txs) && 0 <= k < |txs| && txs[k].id == id
    ensures Remove(txs, id) == txs[..k] + txs[k + 1..]
  {
    if k == 0 {
      RemoveHead(txs, id);
      assert txs[..0] + txs[1..] == txs[1..];
    } else {
      RemoveCons(txs, id, k);
      TailUnique(txs);
      RemoveAt(txs[1..], id, k - 1);
      DropAtShift(txs, k);
    }
  }

  /** A first record with another id stays in front of what `Remove` keeps of the rest. */
  lemma {:induction false} RemoveCons(txs: seq<Transaction>, id: Id, k: int)
    requires UniqueIds(txs) && 0 < k < |txs| && txs[k].id == id
    ensures Remove(txs, id) == [txs[0]] + Remove(txs[1..], id)
  {
    assert txs[0].id != txs[k].id;
  }

  /** Dropping position `k` of a list is its head followed by dropping `k - 1` of its tail. */
  lemma {:induction false} DropAtShift(txs: seq<Transaction>, k: int)
    requires 0 < k < |txs|
    ensures [txs[0]] + (txs[1..][..k - 1] + txs[1..][k..]) == txs[..k] + txs[k + 1..]
  {
    assert txs[1..][..k - 1] == txs[1..k] && txs[1..][k..] == txs[k + 1..];
    assert [txs[0]] + txs[1..k] == txs[..k];
  }

  /** With unique ids, removing the first record's id leaves exactly the rest. */
  lemma {:induction false} RemoveHead(txs: seq<Transaction>, id: Id)
    requires UniqueIds(txs) && |txs| > 0 && txs[0].id == id
    ensures Remove(txs, id) == txs[1..]
  {
    HeadIdNotInTail(txs);
    RemoveAbsent(txs[1..], id);
  }

  lemma {:induction false} TailUnique(txs: seq<Transaction>)
    requires UniqueIds(txs) && |txs| > 0
    ensures UniqueIds(txs[1..])
  {
    var tail := txs[1..];
    forall i, j | 0 <= i < j < |tail| ensures tail[i].id != tail[j].id {
      assert tail[i] == txs[i + 1] && tail[j] == txs[j + 1];
    }
  }

  lemma {:induction false} RemovePreservesUnique(txs: seq<Transaction>, id: Id)
    requires UniqueIds(txs)
    ensures UniqueIds(Remove(txs, id))
  {
    if txs != [] {
      TailUnique(txs);
      RemovePreservesUnique(txs[1..], id);
      if txs[0].id != id {
        HeadIdNotInTail(txs);
        ConsUnique(txs[0], Remove(txs[1..], id));
      }
    }
  }

  /** With unique ids, no record after the first carries the first one's id. */
  lemma {:induction false} HeadIdNotInTail(txs: seq<Transaction>)
    requires UniqueIds(txs) && |txs| > 0
    ensures forall t :: t in txs[1..] ==> t.id != txs[0].id
  {
    forall t | t in txs[1..] ensures t.id != txs[0].id {
      var m :| 0 <= m < |txs[1..]| && txs[1..][m] == t;
      assert txs[m + 1] == t;
    }
  }

  /** A record put in front of a list with unique ids, none of them its own, keeps ids unique. */
  lemma {:induction false} ConsUnique(x: Transaction, rest: seq<Transaction>)
    requires UniqueIds(rest) && forall t :: t in rest ==> t.id != x.id
    ensures UniqueIds([x] + rest)
  {
    var r := [x] + rest;
    forall i, j | 0 <= i < j < |r| ensures r[i].id != r[j].id {
      assert r[j] == rest[j - 1];
      if i == 0 {
        assert r[j] in rest;
      } else {
        assert r[i] == rest[i - 1];
      }
    }
  }

  lemma {:induction false} SumRemove(txs: seq<Transaction>, id: Id, k: int)
    requires UniqueIds(txs) && 0 <= k < |txs| && txs[k].id == id
    ensures Sum(Remove(txs, id)) + txs[k].amount == Sum(txs)
  {
    if k == 0 {
      RemoveAt(txs, id, 0);
      assert txs[..0] + txs[1..] == txs[1..];
    } else {
      assert txs[0].id != id;
      SumRemove(txs[1..], id, k - 1);
      assert Remove(txs, id) == [txs[0]] + Remove(txs[1..], id);
      assert ([txs[0]] + Remove(txs[1..], id))[1..] == Remove(txs[1..], id);
    }
  }

  /** Removing one id does not change what `find` returns for another. */
  lemma {:induction false} FindRemoveOther(txs: seq<Transaction>, id: Id, other: Id)
    requires id != other
    ensures Find(Remove(txs, id), other) == Find(txs, other)
  {
    if txs != [] {
      FindRemoveOther(txs[1..], id, other);
      if txs[0].id != id {
        assert ([txs[0]] + Remove(txs[1..], id))[1..] == Remove(txs[1..], id);
      }
    }
  }

  /** An id that is not in the list: `processTransaction` is a silent no-op. */
  lemma {:induction false} ProcessAbsent(s: LedgerState, id: Id, category: string)
    requires forall t :: t in s.transactions ==> t.id != id
    ensures Process(s, id, category) == s
  {
  }

  /**
   * A present id and a recognised category: the named counter grows by exactly the
   * record's amount, the other three are unchanged, and the record leaves the list
   * with the others kept in order.
   */
  lemma {:induction false} ProcessKnown(s: LedgerState, id: Id, c: Category, k: int)
    requires UniqueIds(s.transactions) && 0 <= k < |s.transactions| && s.transactions[k].id == id
    ensures var r := Process(s, id, CategoryName(c));
      && Counter(r, c) == Counter(s, c) + s.transactions[k].amount
      && (forall d :: d != c ==> Counter(r, d) == Counter(s, d))
      && r.transactions == s.transactions[..k] + s.transactions[k + 1..]
  {
    FindAt(s.transactions, id, k);
    RemoveAt(s.transactions, id, k);
    CategoryNameRoundTrip(c);
  }

  /** The `default:` branch: an unrecognised category still removes the record but credits nothing. */
  lemma {:induction false} ProcessUnrecognised(s: LedgerState, id: Id, category: string, k: int)
    requires ParseCategory(category).None?
    requires UniqueIds(s.transactions) && 0 <= k < |s.transactions| && s.transactions[k].id == id
    ensures var r := Process(s, id, category);
      && r.debtPaid == s.debtPaid && r.saved == s.saved && r.invested == s.invested && r.spent == s.spent
      && r.transactions == s.transactions[..k] + s.transactions[k + 1..]
  {
    FindAt(s.transactions, id, k);
    RemoveAt(s.transactions, id, k);
  }

  /** Processing keeps ids unique. */
  lemma {:induction false} ProcessPreservesUnique(s: LedgerState, id: Id, category: string)
    requires UniqueIds(s.transactions)
    ensures UniqueIds(Process(s, id, category).transactions)
  {
    RemovePreservesUnique(s.transactions, id);
  }

  /** With a recognised category no money is lost: counters plus pending amounts stay constant. */
  lemma {:induction false} ProcessConserves(s: LedgerState, id: Id, c: Category)
    requires UniqueIds(s.transactions)
    ensures var r := Process(s, id, CategoryName(c));
      Total(r) + Sum(r.transactions) == Total(s) + Sum(s.transactions)
  {
    CategoryNameRoundTrip(c);
    if HasId(s.transactions, id) {
      var t :| t in s.transactions && t.id == id;
      var k :| 0 <= k < |s.transactions| && s.transactions[k] == t;
      FindAt(s.transactions, id, k);
      SumRemove(s.transactions, id, k);
    }
  }

  /** As long as amounts are not negative, no counter ever decreases. */
  lemma {:induction false} ProcessMonotone(s: LedgerState, id: Id, category: string)
    requires NonNegativeAmounts(s.transactions)
    ensures var r := Process(s, id, category);
      && r.debtPaid >= s.debtPaid && r.saved >= s.saved && r.invested >= s.invested && r.spent >= s.spent
      && NonNegativeAmounts(r.transactions)
  {
  }

  /** Processing a sequence of (id, category) choices, as successive modal selections do. */
  function ProcessAll(s: LedgerState, steps: seq<(Id, Category)>): LedgerState
    decreases |steps|
  {
    if steps == [] then s
    else ProcessAll(Process(s, steps[0].0, CategoryName(steps[0].1)), steps[1..])
  }

  /** Sum of the amounts the ids of `steps` carry in `txs`. */
  function AmountsOf(txs: seq<Transaction>, steps: seq<(Id, Category)>): int
    decreases |steps|
  {
    if steps == [] then 0 else AmountOf(txs, steps[0].0) + AmountsOf(txs, steps[1..])
  }

  ghost predicate DistinctIds(steps: seq<(Id, Category)>) {
    forall i, j :: 0 <= i < j < |steps| ==> steps[i].0 != steps[j].0
  }

  lemma {:induction false} AmountsOfRemoveOther(txs: seq<Transaction>, id: Id, steps: seq<(Id, Category)>)
    requires forall i :: 0 <= i < |steps| ==> steps[i].0 != id
    ensures AmountsOf(Remove(txs, id), steps) == AmountsOf(txs, steps)
    decreases |steps|
  {
    if steps != [] {
      FindRemoveOther(txs, id, steps[0].0);
      AmountsOfRemoveOther(txs, id, steps[1..]);
    }
  }

  lemma {:induction false} ProcessAllShrinks(s: LedgerState, steps: seq<(Id, Category)>)
    ensures forall t :: t in ProcessAll(s, steps).transactions ==> t in s.transactions
    decreases |steps|
  {
    if steps != [] {
      ProcessAllShrinks(Process(s, steps[0].0, CategoryName(steps[0].1)), steps[1..]);
    }
  }

  /**
   * Processing distinct present ids raises the sum of the four counters by exactly
   * the sum of their amounts, and none of those ids is left in the list.
   */
  lemma {:induction false} ProcessAllTotal(s: LedgerState, steps: seq<(Id, Category)>)
    requires UniqueIds(s.transactions) && DistinctIds(steps)
    requires forall i :: 0 <= i < |steps| ==> HasId(s.transactions, steps[i].0)
    ensures Total(ProcessAll(s, steps)) == Total(s) + AmountsOf(s.transactions, steps)
    ensures forall i :: 0 <= i < |steps| ==> !HasId(ProcessAll(s, steps).transactions, steps[i].0)
    decreases |steps|
  {
    if steps != [] {
      var (id, c) := steps[0];
      var next := Process(s, id, CategoryName(c));
      var rest := steps[1..];
      ProcessStep(s, id, c);
      ProcessPreservesUnique(s, id, CategoryName(c));
      RestSteps(s.transactions, steps);
      ProcessAllTotal(next, rest);
      AmountsOfRemoveOther(s.transactions, id, rest);
      ProcessAllShrinks(next, rest);
      ProcessAllRemovesAll(s, steps);
    }
  }

  /** One present id processed under a recognised category: its amount moves to that counter and it leaves the list. */
  lemma {:induction false} ProcessStep(s: LedgerState, id: Id, c: Category)
    requires UniqueIds(s.transactions) && HasId(s.transactions, id)
    ensures var next := Process(s, id, CategoryName(c));
      && next.transactions == Remove(s.transactions, id)
      && Total(next) == Total(s) + AmountOf(s.transactions, id)
      && !HasId(next.transactions, id)
  {
    var t :| t in s.transactions && t.id == id;
    var k :| 0 <= k < |s.transactions| && s.transactions[k] == t;
    ProcessKnown(s, id, c, k);
    FindAt(s.transactions, id, k);
    CategoryNameRoundTrip(c);
    var next := Process(s, id, CategoryName(c));
    assert Total(next) == Total(s) + t.amount by {
      match c
      case DebtPaid =>
      case Saved =>
      case Invested =>
      case Spent =>
    }
  }

  /** After the first step, the remaining steps are still distinct, still present, and not the first id. */
  lemma {:induction false} RestSteps(txs: seq<Transaction>, steps: seq<(Id, Category)>)
    requires UniqueIds(txs) && DistinctIds(steps) && steps != []
    requires forall i :: 0 <= i < |steps| ==> HasId(txs, steps[i].0)
    ensures var rest := steps[1..];
      && DistinctIds(rest)
      && (forall i :: 0 <= i < |rest| ==> rest[i].0 != steps[0].0)
      && (forall i :: 0 <= i < |rest| ==> HasId(Remove(txs, steps[0].0), rest[i].0))
  {
    var rest := steps[1..];
    forall i | 0 <= i < |rest| ensures rest[i].0 != steps[0].0 && HasId(Remove(txs, steps[0].0), rest[i].0) {
      assert rest[i] == steps[i + 1];
      FindRemoveOther(txs, steps[0].0, rest[i].0);
    }
    forall i, j | 0 <= i < j < |rest| ensures rest[i].0 != rest[j].0 {
      assert rest[i] == steps[i + 1] && rest[j] == steps[j + 1];
    }
  }

  /** If the first step's id is gone after it and the later ids are gone at the end, none of the ids is left. */
  lemma {:induction false} ProcessAllRemovesAll(s: LedgerState, steps: seq<(Id, Category)>)
    requires steps != []
    requires !HasId(Process(s, steps[0].0, CategoryName(steps[0].1)).transactions, steps[0].0)
    requires var next := Process(s, steps[0].0, CategoryName(steps[0].1));
      forall i :: 0 <= i < |steps| - 1 ==> !HasId(ProcessAll(next, steps[1..]).transactions, steps[1..][i].0)
    requires var next := Process(s, steps[0].0, CategoryName(steps[0].1));
      forall t :: t in ProcessAll(next, steps[1..]).transactions ==> t in next.transactions
    ensures forall i :: 0 <= i < |steps| ==> !HasId(ProcessAll(s, steps).transactions, steps[i].0)
  {
    forall i | 0 <= i < |steps| ensures !HasId(ProcessAll(s, steps).transactions, steps[i].0) {
      if i > 0 {
        assert steps[i] == steps[1..][i - 1];
      }
    }
  }

  // ---------------------------------------------------------------------------
  // The once-a-second expiry tick

  /** `now >= createdAt + 24h`: the boundary instant itself counts as expired. */
  predicate IsExpired(createdAt: int, now: int) {
    now >= createdAt + DAY_MS
  }

  /** Every field of a record except the derived `isExpired` flag. */
  predicate SameRecord(a: Transaction, b: Transaction) {
    a.id == b.id && a.amount == b.amount && a.labelText == b.labelText
    && a.isPreApproved == b.isPreApproved && a.createdAt == b.createdAt
  }

  /**
   * The tick's `map`: every record, pre-approved or not, gets `isExpired`
   * recomputed from its `createdAt` and `now`; nothing else changes.
   */
  function Refresh(txs: seq<Transaction>, now: int): (r: seq<Transaction>)
    ensures |r| == |txs|
    ensures forall i :: 0 <= i < |txs| ==> SameRecord(r[i], txs[i])
    ensures forall i :: 0 <= i < |txs| ==> r[i].isExpired == IsExpired(txs[i].createdAt, now)
  {
    if txs == [] then []
    else [txs[0].(isExpired := IsExpired(txs[0].createdAt, now))] + Refresh(txs[1..], now)
  }

  /** True when some record's stored flag disagrees with the recomputed one. */
  predicate FlagsStale(txs: seq<Transaction>, now: int) {
    exists i :: 0 <= i < |txs| && txs[i].isExpired != IsExpired(txs[i].createdAt, now)
  }

  /** The tick yields a different list exactly when some flag changes. */
  lemma {:induction false} RefreshChangesIff(txs: seq<Transaction>, now: int)
    ensures Refresh(txs, now) != txs <==> FlagsStale(txs, now)
  {
    var r := Refresh(txs, now);
    if !FlagsStale(txs, now) {
      assert forall i :: 0 <= i < |txs| ==> r[i] == txs[i];
    } else {
      var i :| 0 <= i < |txs| && txs[i].isExpired != IsExpired(txs[i].createdAt, now);
      assert r[i] != txs[i];
    }
  }

  /** A second tick at the same instant changes nothing. */
  lemma {:induction false} RefreshIdempotent(txs: seq<Transaction>, now: int)
    ensures Refresh(Refresh(txs, now), now) == Refresh(txs, now)
  {
    var r := Refresh(txs, now);
    RefreshChangesIff(r, now);
  }

  /**
   * The flags are derived from `createdAt` alone: two lists that agree on every
   * other field (say, a reloaded snapshot with stale flags) refresh to the same list.
   */
  lemma {:induction false} RefreshIgnoresStoredFlags(a: seq<Transaction>, b: seq<Transaction>, now: int)
    requires |a| == |b| && forall i :: 0 <= i < |a| ==> SameRecord(a[i], b[i])
    ensures Refresh(a, now) == Refresh(b, now)
  {
    var ra, rb := Refresh(a, now), Refresh(b, now);
    assert forall i :: 0 <= i < |a| ==> ra[i] == rb[i];
  }

  lemma {:induction false} RefreshPreservesIds(txs: seq<Transaction>, now: int)
    requires UniqueIds(txs)
    ensures UniqueIds(Refresh(txs, now)) && Sum(Refresh(txs, now)) == Sum(txs)
    ensures NonNegativeAmounts(txs) ==> NonNegativeAmounts(Refresh(txs, now))
  {
    var r := Refresh(txs, now);
    assert forall i :: 0 <= i < |txs| ==> r[i].id == txs[i].id;
    SumRefresh(txs, now);
    forall t | t in r ensures NonNegativeAmounts(txs) ==> t.amount >= 0 {
      var i :| 0 <= i < |r| && r[i] == t;
      assert txs[i] in txs;
    }
  }

  lemma {:induction false} SumRefresh(txs: seq<Transaction>, now: int)
    ensures Sum(Refresh(txs, now)) == Sum(txs)
  {
    if txs != [] {
      SumRefresh(txs[1..], now);
      var r := Refresh(txs, now);
      assert r[1..] == Refresh(txs[1..], now);
    }
  }

  /**
   * The scenario of a $50.00 pre-approved record logged at `t0`: one second before
   * the window closes it is not expired, at the closing instant it is, and
   * categorising it as saved moves 5000 cents to `saved` and empties the list.
   */
  lemma {:induction false} PreApprovedScenario(id: Id, t0: int)
    ensures var s := Add(Empty, id, 5000, "", true, t0);
      && !Refresh(s.transactions, t0 + DAY_MS - 1000)[0].isExpired
      && Refresh(s.transactions, t0 + DAY_MS)[0].isExpired
      && Process(s.(transactions := Refresh(s.transactions, t0 + DAY_MS)), id, CategoryName(Saved))
         == LedgerState([], 0, 5000, 0, 0)
  {
    var s := Add(Empty, id, 5000, "", true, t0);
    var expired := s.(transactions := Refresh(s.transactions, t0 + DAY_MS));
    FindAt(expired.transactions, id, 0);
    RemoveAt(expired.transactions, id, 0);
    assert expired.transactions[..0] + expired.transactions[1..] == [];
  }
}
