/**
 * The data an expense carries in controllers/expenseController.js: the split method
 * named in the request, and the record `addExpense` stores for each expense.
 */
module Expenses {

  /** Firestore user ids (UIDs) are strings. */
  type Uid = string

  /** The request's `splitMethod`; the three names the controller compares against, and any other. */
  datatype SplitMethod = Equal | Exact | Percentage | Other(name: string)

  function SplitMethodName(m: SplitMethod): string
  {
    match m
    case Equal => "equal"
    case Exact => "exact"
    case Percentage => "percentage"
    case Other(name) => name
  }

  /** Reads the request's method string the way the `===` comparisons of the controller do. */
  function ParseSplitMethod(s: string): (m: SplitMethod)
    ensures SplitMethodName(m) == s
    ensures m.Equal? <==> s == "equal"
    ensures m.Exact? <==> s == "exact"
    ensures m.Percentage? <==> s == "percentage"
  {
    if s == "equal" then Equal
    else if s == "exact" then Exact
    else if s == "percentage" then Percentage
    else Other(s)
  }

  /**
   * The `expenseData` object `addExpense` stores: the amount, the resolved participant
   * UIDs, the method, and the owed amount per UID (`createdAt` is not modelled).
   */
  datatype ExpenseRecord = ExpenseRecord(
    amount: real,
    participants: seq<Uid>,
    splitMethod: SplitMethod,
    amountsOwed: map<Uid, real>)

  /** A fetched expense document: its id and its data. */
  datatype StoredExpense = StoredExpense(id: string, data: ExpenseRecord)
}
