/** `validateExpenseInput` of controllers/expenseController.js. */
module ExpenseValidation {
  import opened Wrappers
  import opened RealSums
  import opened Expenses

  const PercentageSumMessage: string := "Percentages must sum to 100%"
  const NonPositiveMessage: string := "All amounts must be positive"

  predicate AllPositive(amounts: seq<real>)
  {
    forall i :: 0 <= i < |amounts| ==> amounts[i] > 0.0
  }

  /**
   * The stand-alone pre-validator. `participants` is taken and never read. The
   * percentage-sum test runs first, so its message wins when both tests fail.
   */
  function ValidateExpenseInput(splitMethod: SplitMethod, participants: seq<string>, amounts: seq<real>): (r: Validation)
    ensures r == Valid <==> (splitMethod != Percentage || Sum(amounts) == 100.0) && AllPositive(amounts)
    ensures splitMethod == Percentage && Sum(amounts) != 100.0 ==> r == Invalid(PercentageSumMessage)
    ensures (splitMethod != Percentage || Sum(amounts) == 100.0) && !AllPositive(amounts) ==> r == Invalid(NonPositiveMessage)
  {
    if splitMethod == Percentage && Sum(amounts) != 100.0 then
      Invalid(PercentageSumMessage)
    else if exists i :: 0 <= i < |amounts| && amounts[i] <= 0.0 then
      Invalid(NonPositiveMessage)
    else
      Valid
  }

  /** Whatever the method, an amount that is not positive is never accepted. */
  lemma NonPositiveAmountRejected(splitMethod: SplitMethod, participants: seq<string>, amounts: seq<real>, i: nat)
    requires i < |amounts| && amounts[i] <= 0.0
    ensures ValidateExpenseInput(splitMethod, participants, amounts).Invalid?
    ensures splitMethod != Percentage ==> ValidateExpenseInput(splitMethod, participants, amounts) == Invalid(NonPositiveMessage)
  {
  }

  /** The participant list has no influence on the verdict. */
  lemma ParticipantsIgnored(splitMethod: SplitMethod, p: seq<string>, q: seq<string>, amounts: seq<real>)
    ensures ValidateExpenseInput(splitMethod, p, amounts) == ValidateExpenseInput(splitMethod, q, amounts)
  {
  }

  /** Only the multiset of amounts matters, not the order in which `reduce` visits them. */
  lemma OrderOfAmountsIgnored(splitMethod: SplitMethod, participants: seq<string>, a: seq<real>, b: seq<real>)
    requires multiset(a) == multiset(b)
    ensures ValidateExpenseInput(splitMethod, participants, a) == ValidateExpenseInput(splitMethod, participants, b)
  {
    SumPermutation(a, b);
    forall i | 0 <= i < |a| ensures a[i] in multiset(b) { assert a[i] in multiset(a); }
    forall i | 0 <= i < |b| ensures b[i] in multiset(a) { assert b[i] in multiset(b); }
    assert AllPositive(a) <==> AllPositive(b);
  }

  /** An empty amount list passes for every method except percentage, whose sum is then 0. */
  lemma EmptyAmounts(splitMethod: SplitMethod, participants: seq<string>)
    ensures ValidateExpenseInput(splitMethod, participants, []) == (if splitMethod == Percentage then Invalid(PercentageSumMessage) else Valid)
  {
  }

  /** The two cases of tests/validation.test.js. */
  lemma PercentageExamples()
    ensures ValidateExpenseInput(Percentage, [], [40.0, 30.0, 30.0]) == Valid
    ensures ValidateExpenseInput(Percentage, [], [40.0, 30.0, 20.0]) == Invalid(PercentageSumMessage)
  {
    assert [40.0, 30.0, 30.0][..2] == [40.0, 30.0];
    assert [40.0, 30.0, 20.0][..2] == [40.0, 30.0];
    assert [40.0, 30.0][..1] == [40.0];
    assert [40.0][..0] == [];
  }

  /** Both failures at once: the percentage message is the one reported. */
  lemma PercentageMessageWins()
    ensures ValidateExpenseInput(Percentage, [], [120.0, -20.0, 10.0]) == Invalid(PercentageSumMessage)
  {
    assert [120.0, -20.0, 10.0][..2] == [120.0, -20.0];
    assert [120.0, -20.0][..1] == [120.0];
    assert [120.0][..0] == [];
  }
}
