/**
 * The balance-sheet fold of controllers/expenseController.js, written out three times:
 * `generateBalanceSheet` keys one entry per expense id in an object, while
 * `downloadBalanceSheet` and `downloadBalanceSheetAsPDF` push the entries to a list.
 * The expenses are the documents the store returned for the subject, in that order.
 */
module BalanceSheets {
  import opened RealSums
  import opened Expenses

  /** One row of the downloadable sheet (and of the CSV and PDF built from it). */
  datatype BalanceEntry = BalanceEntry(expenseId: string, amount: real, owed: real, splitMethod: SplitMethod)

  datatype BalanceSheet = BalanceSheet(totalOwed: real, totalPaid: real, balances: seq<BalanceEntry>)

  /** One value of the `balances` object of `generateBalanceSheet`, stored under the expense id. */
  datatype KeyedEntry = KeyedEntry(amount: real, owed: real, splitMethod: SplitMethod)

  datatype KeyedBalanceSheet = KeyedBalanceSheet(totalOwed: real, totalPaid: real, balances: map<string, KeyedEntry>)

  /** `expense.amountsOwed[uid] || 0`: an absent entry counts as 0. */
  function OwedBy(uid: Uid, e: StoredExpense): real
  {
    if uid in e.data.amountsOwed then e.data.amountsOwed[uid] else 0.0
  }

  /** The subject's owed amounts over the expenses, added up from the first expense on. */
  function TotalOwed(uid: Uid, expenses: seq<StoredExpense>): real
  {
    if expenses == [] then 0.0
    else TotalOwed(uid, expenses[..|expenses| - 1]) + OwedBy(uid, expenses[|expenses| - 1])
  }

  function EntryFor(uid: Uid, e: StoredExpense): BalanceEntry
  {
    BalanceEntry(e.id, e.data.amount, OwedBy(uid, e), e.data.splitMethod)
  }

  function KeyedEntryFor(uid: Uid, e: StoredExpense): KeyedEntry
  {
    KeyedEntry(e.data.amount, OwedBy(uid, e), e.data.splitMethod)
  }

  /** The ids of the first `n` expenses. */
  function IdsUpTo(expenses: seq<StoredExpense>, n: nat): set<string>
    requires n <= |expenses|
  {
    set i | 0 <= i < n :: expenses[i].id
  }

  /** The ids of the expenses. */
  function Ids(expenses: seq<StoredExpense>): set<string>
  {
    IdsUpTo(expenses, |expenses|)
  }

  /** No expense after `i` and before `n` has the same id as expense `i`. */
  predicate LastWithIdBefore(expenses: seq<StoredExpense>, i: nat, n: nat)
    requires i < n <= |expenses|
  {
    forall j :: i < j < n ==> expenses[j].id != expenses[i].id
  }

  /** No later expense in the list has the same id as expense `i`. */
  predicate LastWithId(expenses: seq<StoredExpense>, i: nat)
    requires i < |expenses|
  {
    LastWithIdBefore(expenses, i, |expenses|)
  }

  lemma IdsStep(expenses: seq<StoredExpense>, i: nat)
    requires i < |expenses|
    ensures IdsUpTo(expenses, i + 1) == IdsUpTo(expenses, i) + {expenses[i].id}
  {
  }

  lemma TotalOwedStep(uid: Uid, expenses: seq<StoredExpense>, i: nat)
    requires i < |expenses|
    ensures TotalOwed(uid, expenses[..i + 1]) == TotalOwed(uid, expenses[..i]) + OwedBy(uid, expenses[i])
  {
    assert expenses[..i + 1][..i] == expenses[..i];
  }

  /** The fold of `downloadBalanceSheet` and `downloadBalanceSheetAsPDF`. */
  method BalanceSheetFor(uid: Uid, expenses: seq<StoredExpense>) returns (sheet: BalanceSheet)
    ensures sheet.totalOwed == TotalOwed(uid, expenses)
    ensures sheet.totalPaid == 0.0
    ensures |sheet.balances| == |expenses|
    ensures forall i :: 0 <= i < |expenses| ==> sheet.balances[i] == EntryFor(uid, expenses[i])
  {
    var totalOwed := 0.0;
    var balances: seq<BalanceEntry> := [];
    for i := 0 to |expenses|
      invariant totalOwed == TotalOwed(uid, expenses[..i])
      invariant |balances| == i
      invariant forall k :: 0 <= k < i ==> balances[k] == EntryFor(uid, expenses[k])
    {
      assert expenses[..i + 1][..i] == expenses[..i];
      var expense := expenses[i];
      var amountOwed := OwedBy(uid, expense);
      totalOwed := totalOwed + amountOwed;
      balances := balances + [BalanceEntry(expense.id, expense.data.amount, amountOwed, expense.data.splitMethod)];
    }
    assert expenses[..|expenses|] == expenses;
    sheet := BalanceSheet(totalOwed, 0.0, balances);
  }

  /**
   * The fold of `generateBalanceSheet`: one entry per distinct expense id, holding the
   * last expense with that id (a later assignment to the same key overwrites).
   */
  method KeyedBalanceSheetFor(uid: Uid, expenses: seq<StoredExpense>) returns (sheet: KeyedBalanceSheet)
    ensures sheet.totalOwed == TotalOwed(uid, expenses)
    ensures sheet.totalPaid == 0.0
    ensures sheet.balances.Keys == Ids(expenses)
    ensures forall i :: 0 <= i < |expenses| && LastWithId(expenses, i) ==>
              sheet.balances[expenses[i].id] == KeyedEntryFor(uid, expenses[i])
  {
    var totalOwed := 0.0;
    var balances: map<string, KeyedEntry> := map[];
    for i := 0 to |expenses|
      invariant totalOwed == TotalOwed(uid, expenses[..i])
      invariant KeyedUpTo(uid, expenses, i, balances)
    {
      TotalOwedStep(uid, expenses, i);
      KeyedStep(uid, expenses, i, balances);
      var expense := expenses[i];
      var amountOwed := OwedBy(uid, expense);
      totalOwed := totalOwed + amountOwed;
      balances := balances[expense.id := KeyedEntry(expense.data.amount, amountOwed, expense.data.splitMethod)];
    }
    assert expenses[..|expenses|] == expenses;
    KeyedDone(uid, expenses, balances);
    sheet := KeyedBalanceSheet(totalOwed, 0.0, balances);
  }

  /** The `balances` object after the first `n` expenses. */
  predicate KeyedUpTo(uid: Uid, expenses: seq<StoredExpense>, n: nat, balances: map<string, KeyedEntry>)
    requires n <= |expenses|
  {
    && balances.Keys == IdsUpTo(expenses, n)
    && forall k :: 0 <= k < n && LastWithIdBefore(expenses, k, n) ==>
         expenses[k].id in balances && balances[expenses[k].id] == KeyedEntryFor(uid, expenses[k])
  }

  lemma KeyedDone(uid: Uid, expenses: seq<StoredExpense>, balances: map<string, KeyedEntry>)
    requires KeyedUpTo(uid, expenses, |expenses|, balances)
    ensures balances.Keys == Ids(expenses)
    ensures forall i :: 0 <= i < |expenses| && LastWithId(expenses, i) ==>
              balances[expenses[i].id] == KeyedEntryFor(uid, expenses[i])
  {
  }

  lemma KeyedStep(uid: Uid, expenses: seq<StoredExpense>, i: nat, balances: map<string, KeyedEntry>)
    requires i < |expenses| && KeyedUpTo(uid, expenses, i, balances)
    ensures KeyedUpTo(uid, expenses, i + 1, balances[expenses[i].id := KeyedEntryFor(uid, expenses[i])])
  {
    IdsStep(expenses, i);
    var id := expenses[i].id;
    var next := balances[id := KeyedEntryFor(uid, expenses[i])];
    assert next.Keys == IdsUpTo(expenses, i + 1);
    forall k | 0 <= k < i + 1 && LastWithIdBefore(expenses, k, i + 1)
      ensures expenses[k].id in next && next[expenses[k].id] == KeyedEntryFor(uid, expenses[k])
    {
      if k < i {
        KeyedEarlier(uid, expenses, i, balances, k);
      }
    }
  }

  lemma KeyedEarlier(uid: Uid, expenses: seq<StoredExpense>, i: nat, balances: map<string, KeyedEntry>, k: nat)
    requires i < |expenses| && KeyedUpTo(uid, expenses, i, balances)
    requires k < i && LastWithIdBefore(expenses, k, i + 1)
    ensures expenses[k].id != expenses[i].id
    ensures expenses[k].id in balances && balances[expenses[k].id] == KeyedEntryFor(uid, expenses[k])
  {
    assert LastWithIdBefore(expenses, k, i);
  }

  /** The "Owed Amount" column of a sheet. */
  function OwedColumn(balances: seq<BalanceEntry>): seq<real>
  {
    seq(|balances|, i requires 0 <= i < |balances| => balances[i].owed)
  }

  /** The total splits over a concatenation of expense lists. */
  lemma {:induction false} TotalOwedAppend(uid: Uid, a: seq<StoredExpense>, b: seq<StoredExpense>)
    ensures TotalOwed(uid, a + b) == TotalOwed(uid, a) + TotalOwed(uid, b)
    decreases |b|
  {
    if b == [] {
      assert a + b == a;
    } else {
      var b' := b[..|b| - 1];
      assert (a + b)[..|a + b| - 1] == a + b';
      TotalOwedAppend(uid, a, b');
    }
  }

  /** The sheet's total is the sum of its "Owed Amount" column. */
  lemma {:induction false} TotalIsSumOfColumn(uid: Uid, expenses: seq<StoredExpense>, balances: seq<BalanceEntry>)
    requires |balances| == |expenses|
    requires forall i :: 0 <= i < |expenses| ==> balances[i] == EntryFor(uid, expenses[i])
    ensures Sum(OwedColumn(balances)) == TotalOwed(uid, expenses)
    decreases |expenses|
  {
    if expenses != [] {
      var n := |expenses| - 1;
      TotalIsSumOfColumn(uid, expenses[..n], balances[..n]);
      assert OwedColumn(balances)[..n] == OwedColumn(balances[..n]);
    }
  }

  /** A subject with no entry in any of the expenses owes nothing in total. */
  lemma {:induction false} TotalOwedAbsent(uid: Uid, expenses: seq<StoredExpense>)
    requires forall i :: 0 <= i < |expenses| ==> uid !in expenses[i].data.amountsOwed
    ensures TotalOwed(uid, expenses) == 0.0
    decreases |expenses|
  {
    if expenses != [] {
      TotalOwedAbsent(uid, expenses[..|expenses| - 1]);
    }
  }

  /** With owed amounts never negative, the total is at least each expense's share. */
  lemma {:induction false} TotalOwedCoversEach(uid: Uid, expenses: seq<StoredExpense>, i: nat)
    requires i < |expenses|
    requires forall k :: 0 <= k < |expenses| ==> OwedBy(uid, expenses[k]) >= 0.0
    ensures TotalOwed(uid, expenses) >= OwedBy(uid, expenses[i])
    decreases |expenses|
  {
    var n := |expenses| - 1;
    if i < n {
      TotalOwedCoversEach(uid, expenses[..n], i);
    } else {
      TotalOwedNonNegative(uid, expenses[..n]);
    }
  }

  lemma {:induction false} TotalOwedNonNegative(uid: Uid, expenses: seq<StoredExpense>)
    requires forall k :: 0 <= k < |expenses| ==> OwedBy(uid, expenses[k]) >= 0.0
    ensures TotalOwed(uid, expenses) >= 0.0
    decreases |expenses|
  {
    if expenses != [] {
      TotalOwedNonNegative(uid, expenses[..|expenses| - 1]);
    }
  }

  /** Two expenses of 100 and 60 in which u1 owes 50 and 20, and one that does not list u1. */
  lemma TotalOwedExample()
    ensures var es := [StoredExpense("e1", ExpenseRecord(100.0, ["u1", "u2"], Equal, map["u1" := 50.0, "u2" := 50.0])),
                       StoredExpense("e2", ExpenseRecord(60.0, ["u1", "u3"], Exact, map["u1" := 20.0, "u3" := 40.0])),
                       StoredExpense("e3", ExpenseRecord(30.0, ["u1", "u4"], Exact, map["u4" := 30.0]))];
            TotalOwed("u1", es) == 70.0
  {
    var es := [StoredExpense("e1", ExpenseRecord(100.0, ["u1", "u2"], Equal, map["u1" := 50.0, "u2" := 50.0])),
               StoredExpense("e2", ExpenseRecord(60.0, ["u1", "u3"], Exact, map["u1" := 20.0, "u3" := 40.0])),
               StoredExpense("e3", ExpenseRecord(30.0, ["u1", "u4"], Exact, map["u4" := 30.0]))];
    assert es[..2][..1] == es[..1];
    assert es[..1][..0] == [];
    assert TotalOwed("u1", es[..1]) == 50.0;
    assert TotalOwed("u1", es[..2]) == 70.0;
  }
}
