/**
 * The split computation of `addExpense` (controllers/expenseController.js), from the point
 * where the participants' emails have been looked up: it keeps the UIDs that were found,
 * rejects the request when none were, and builds the owed-amount map for the method.
 */
module SplitCalculator {
  import opened Wrappers
  import opened RealSums
  import opened Expenses

  /** A rejected request: the HTTP status and the `error` text of the response. */
  datatype SplitFailure = SplitFailure(status: int, message: string)

  const NoValidUsers := SplitFailure(404, "No valid users found for the provided emails.")
  const PercentagesMustAddUp := SplitFailure(400, "Percentages must add up to 100.")
  const InvalidSplit := SplitFailure(400, "Invalid split method or splits data.")

  /** The distinct elements of a list. */
  function Elements(s: seq<Uid>): set<Uid>
  {
    set u | u in s
  }

  predicate Distinct(s: seq<Uid>)
  {
    forall i, j :: 0 <= i < j < |s| ==> s[i] != s[j]
  }

  /** `participantUids.filter(uid => uid !== null)`: the UIDs found, in request order. */
  function ResolvedUids(resolved: seq<Option<Uid>>): (uids: seq<Uid>)
    ensures |uids| <= |resolved|
    ensures forall u :: u in uids <==> Some(u) in resolved
    decreases |resolved|
  {
    if resolved == [] then []
    else (if resolved[0].Some? then [resolved[0].value] else []) + ResolvedUids(resolved[1..])
  }

  /** Equal split: every participant owes `amount / N`, where N counts the list's entries. */
  function EqualShares(amount: real, uids: seq<Uid>): map<Uid, real>
    requires |uids| > 0
  {
    map u | u in uids :: amount / (|uids| as real)
  }

  /** Exact split: a participant with an entry in `splits` owes that entry; the others get none. */
  function ExactShares(uids: seq<Uid>, splits: map<Uid, real>): map<Uid, real>
  {
    map u | u in uids && u in splits :: splits[u]
  }

  /** Percentage split: a participant with an entry owes that percentage of `amount`. */
  function PercentageShares(amount: real, uids: seq<Uid>, splits: map<Uid, real>): map<Uid, real>
  {
    map u | u in uids && u in splits :: amount * (splits[u] / 100.0)
  }

  /**
   * What the split computation answers for a request. The percentage check adds up every
   * value of `splits`, including those of keys that are not resolved participants.
   */
  ghost function Split(amount: real, splitMethod: SplitMethod, resolved: seq<Option<Uid>>,
                       splits: Option<map<Uid, real>>): Result<ExpenseRecord, SplitFailure>
  {
    var uids := ResolvedUids(resolved);
    if uids == [] then Failure(NoValidUsers)
    else if splitMethod == Equal then
      Success(ExpenseRecord(amount, uids, splitMethod, EqualShares(amount, uids)))
    else if splitMethod == Exact && splits.Some? then
      Success(ExpenseRecord(amount, uids, splitMethod, ExactShares(uids, splits.value)))
    else if splitMethod == Percentage && splits.Some? then
      if SumValues(splits.value) != 100.0 then Failure(PercentagesMustAddUp)
      else Success(ExpenseRecord(amount, uids, splitMethod, PercentageShares(amount, uids, splits.value)))
    else Failure(InvalidSplit)
  }

  /** `Object.values(splits).reduce((a, b) => a + b, 0)`. */
  method SumOfSplits(splits: map<Uid, real>) returns (total: real)
    ensures total == SumValues(splits)
  {
    total := 0.0;
    var rest := splits.Keys;
    while rest != {}
      invariant rest <= splits.Keys
      invariant total + SumOver(rest, splits) == SumValues(splits)
      decreases rest
    {
      var k :| k in rest;
      SumOverRemove(rest, splits, k);
      total := total + splits[k];
      rest := rest - {k};
    }
  }

  /** `validUids.forEach(uid => { amountsOwed[uid] = splitAmount; })` */
  method EqualLoop(amount: real, validUids: seq<Uid>) returns (amountsOwed: map<Uid, real>)
    requires |validUids| > 0
    ensures amountsOwed == EqualShares(amount, validUids)
  {
    var splitAmount := amount / (|validUids| as real);
    amountsOwed := map[];
    for i := 0 to |validUids|
      invariant amountsOwed == map u | u in validUids[..i] :: splitAmount
    {
      assert validUids[..i + 1] == validUids[..i] + [validUids[i]];
      amountsOwed := amountsOwed[validUids[i] := splitAmount];
    }
    assert validUids[..|validUids|] == validUids;
  }

  /** The exact-split `forEach`: copy the entry of each participant that has one. */
  method ExactLoop(validUids: seq<Uid>, splits: map<Uid, real>) returns (amountsOwed: map<Uid, real>)
    ensures amountsOwed == ExactShares(validUids, splits)
  {
    amountsOwed := map[];
    for i := 0 to |validUids|
      invariant amountsOwed == ExactShares(validUids[..i], splits)
    {
      assert validUids[..i + 1] == validUids[..i] + [validUids[i]];
      var uid := validUids[i];
      if uid in splits {
        amountsOwed := amountsOwed[uid := splits[uid]];
      }
    }
    assert validUids[..|validUids|] == validUids;
  }

  /** The percentage-split `forEach`: each participant with an entry owes that share of `amount`. */
  method PercentageLoop(amount: real, validUids: seq<Uid>, splits: map<Uid, real>) returns (amountsOwed: map<Uid, real>)
    ensures amountsOwed == PercentageShares(amount, validUids, splits)
  {
    amountsOwed := map[];
    for i := 0 to |validUids|
      invariant amountsOwed == PercentageShares(amount, validUids[..i], splits)
    {
      assert validUids[..i + 1] == validUids[..i] + [validUids[i]];
      var uid := validUids[i];
      ghost var target := PercentageShares(amount, validUids[..i + 1], splits);
      if uid in splits {
        amountsOwed := amountsOwed[uid := amount * (splits[uid] / 100.0)];
      }
      assert amountsOwed.Keys == target.Keys;
      assert forall u :: u in target ==> amountsOwed[u] == target[u];
    }
    assert validUids[..|validUids|] == validUids;
  }

  /** The computation itself: filter, reject an empty list, then dispatch on the method. */
  method ComputeExpense(amount: real, splitMethod: SplitMethod, resolved: seq<Option<Uid>>,
                        splits: Option<map<Uid, real>>) returns (r: Result<ExpenseRecord, SplitFailure>)
    ensures r == Split(amount, splitMethod, resolved, splits)
  {
    var validUids := ResolvedUids(resolved);
    if |validUids| == 0 {
      return Failure(NoValidUsers);
    }
    var amountsOwed: map<Uid, real>;
    if splitMethod == Equal {
      amountsOwed := EqualLoop(amount, validUids);
    } else if splitMethod == Exact && splits.Some? {
      amountsOwed := ExactLoop(validUids, splits.value);
    } else if splitMethod == Percentage && splits.Some? {
      var totalPercentage := SumOfSplits(splits.value);
      if totalPercentage != 100.0 {
        return Failure(PercentagesMustAddUp);
      }
      amountsOwed := PercentageLoop(amount, validUids, splits.value);
    } else {
      return Failure(InvalidSplit);
    }
    r := Success(ExpenseRecord(amount, validUids, splitMethod, amountsOwed));
  }

  // Properties of the filter.

  /** Filtering distributes over concatenation: the found UIDs keep the request's order. */
  lemma {:induction false} ResolvedUidsAppend(a: seq<Option<Uid>>, b: seq<Option<Uid>>)
    ensures ResolvedUids(a + b) == ResolvedUids(a) + ResolvedUids(b)
    decreases |a|
  {
    if a == [] {
      assert a + b == b;
    } else {
      assert (a + b)[1..] == a[1..] + b;
      ResolvedUidsAppend(a[1..], b);
    }
  }

  /** A found UID is kept, a missing one (`null`) is dropped. */
  lemma ResolvedUidsSingle(u: Uid)
    ensures ResolvedUids([Some(u)]) == [u]
    ensures ResolvedUids([None]) == []
  {
    assert [Some(u)][1..] == [];
    var none: seq<Option<Uid>> := [None];
    assert none[1..] == [];
  }

  /** The request is turned down with 404 exactly when no email was found. */
  lemma ResolvedUidsEmpty(resolved: seq<Option<Uid>>)
    ensures ResolvedUids(resolved) == [] <==> forall i :: 0 <= i < |resolved| ==> resolved[i] == None
  {
    if ResolvedUids(resolved) != [] {
      var u := ResolvedUids(resolved)[0];
      assert Some(u) in resolved;
    }
  }

  lemma {:induction false} DistinctElements(s: seq<Uid>)
    requires Distinct(s)
    ensures |Elements(s)| == |s|
    decreases |s|
  {
    if s != [] {
      var s' := s[..|s| - 1];
      assert Distinct(s');
      DistinctElements(s');
      assert Elements(s) == Elements(s') + {s[|s| - 1]};
      assert s[|s| - 1] !in Elements(s');
    }
  }

  // Which answer a request gets.

  /**
   * Error precedence: no resolved participant gives 404 whatever the method; then an
   * unknown method, or exact/percentage without `splits`, gives the invalid-method error;
   * the percentage-sum error is given only to a percentage request with `splits`.
   */
  lemma SplitOutcome(amount: real, splitMethod: SplitMethod, resolved: seq<Option<Uid>>, splits: Option<map<Uid, real>>)
    ensures var r := Split(amount, splitMethod, resolved, splits);
            var uids := ResolvedUids(resolved);
            && (r == Failure(NoValidUsers) <==> uids == [])
            && (r == Failure(InvalidSplit) <==>
                  uids != [] && splitMethod != Equal && !((splitMethod == Exact || splitMethod == Percentage) && splits.Some?))
            && (r == Failure(PercentagesMustAddUp) <==>
                  uids != [] && splitMethod == Percentage && splits.Some? && SumValues(splits.value) != 100.0)
            && (r.Success? ==> r.value.amount == amount && r.value.participants == uids && r.value.splitMethod == splitMethod)
  {
    assert NoValidUsers != InvalidSplit && NoValidUsers != PercentagesMustAddUp;
    assert InvalidSplit.message != PercentagesMustAddUp.message by {
      assert InvalidSplit.message[0] != PercentagesMustAddUp.message[0];
    }
  }

  /** Equal split: the owed map's keys are the found UIDs and each owes `amount / N`. */
  lemma EqualSplitShares(amount: real, resolved: seq<Option<Uid>>, splits: Option<map<Uid, real>>)
    requires ResolvedUids(resolved) != []
    ensures var uids := ResolvedUids(resolved);
            var r := Split(amount, Equal, resolved, splits);
            && r == Success(ExpenseRecord(amount, uids, Equal, EqualShares(amount, uids)))
            && r.value.amountsOwed.Keys == Elements(uids)
            && forall u :: u in r.value.amountsOwed ==> r.value.amountsOwed[u] == amount / (|uids| as real)
  {
  }

  /**
   * Equal split: the owed amounts add up to `amount / N * D`, D the number of distinct
   * UIDs and N the length of the list.
   */
  lemma EqualSharesSum(amount: real, uids: seq<Uid>)
    requires |uids| > 0
    ensures SumValues(EqualShares(amount, uids)) == amount / (|uids| as real) * (|Elements(uids)| as real)
  {
    var owed := EqualShares(amount, uids);
    assert owed.Keys == Elements(uids);
    SumOverConst(owed.Keys, owed, amount / (|uids| as real));
  }

  /** Equal split: with no participant repeated, the owed amounts add up to `amount`. */
  lemma EqualSharesSumDistinct(amount: real, uids: seq<Uid>)
    requires |uids| > 0 && Distinct(uids)
    ensures SumValues(EqualShares(amount, uids)) == amount
  {
    EqualSharesSum(amount, uids);
    DistinctElements(uids);
    var n := |uids| as real;
    assert amount / n * n == amount;
  }

  lemma ResolvedThreeExample()
    ensures ResolvedUids([Some("u1"), Some("u1"), Some("u2")]) == ["u1", "u1", "u2"]
  {
    ResolvedUidsAppend([Some("u1")], [Some("u1"), Some("u2")]);
    ResolvedUidsAppend([Some("u1")], [Some("u2")]);
    ResolvedUidsSingle("u1");
    ResolvedUidsSingle("u2");
    assert [Some("u1"), Some("u1"), Some("u2")] == [Some("u1")] + ([Some("u1")] + [Some("u2")]);
  }

  /** The UIDs repeat when the same email is listed twice. */
  lemma EqualSplitRepeatedParticipant()
    ensures var uids := ResolvedUids([Some("u1"), Some("u1"), Some("u2")]);
            && uids == ["u1", "u1", "u2"]
            && EqualShares(90.0, uids) == map["u1" := 30.0, "u2" := 30.0]
            && SumValues(EqualShares(90.0, uids)) == 60.0
  {
    ResolvedThreeExample();
    var owed := map["u1" := 30.0, "u2" := 30.0];
    assert EqualShares(90.0, ["u1", "u1", "u2"]) == owed;
    SumValuesPair("u1", "u2", 30.0, 30.0);
  }

  /**
   * Exact split: the keys are the found UIDs that have an entry in `splits`, and each
   * value is that entry, copied unchanged.
   */
  lemma ExactSplitShares(amount: real, resolved: seq<Option<Uid>>, table: map<Uid, real>)
    requires ResolvedUids(resolved) != []
    ensures var uids := ResolvedUids(resolved);
            var r := Split(amount, Exact, resolved, Some(table));
            && r == Success(ExpenseRecord(amount, uids, Exact, ExactShares(uids, table)))
            && r.value.amountsOwed.Keys == Elements(uids) * table.Keys
            && (forall u :: u in r.value.amountsOwed ==> r.value.amountsOwed[u] == table[u])
  {
  }

  /** Exact split: the owed amounts add up to the entries of the found UIDs only. */
  lemma ExactSharesSum(uids: seq<Uid>, table: map<Uid, real>)
    ensures SumValues(ExactShares(uids, table)) == SumOver(Elements(uids) * table.Keys, table)
  {
    var owed := ExactShares(uids, table);
    assert owed.Keys == Elements(uids) * table.Keys;
    SumOverAgree(owed.Keys, table, owed);
  }

  /** A participant without an entry is left out, so the owed amounts need not reach the total. */
  lemma ExactSplitOmission()
    ensures var uids := ResolvedUids([Some("a"), Some("b")]);
            && uids == ["a", "b"]
            && ExactShares(uids, map["a" := 30.0]) == map["a" := 30.0]
            && SumValues(ExactShares(uids, map["a" := 30.0])) == 30.0
  {
    var resolved := [Some("a"), Some("b")];
    ResolvedUidsAppend([Some("a")], [Some("b")]);
    ResolvedUidsSingle("a");
    ResolvedUidsSingle("b");
    assert resolved == [Some("a")] + [Some("b")];
    assert ExactShares(["a", "b"], map["a" := 30.0]) == map["a" := 30.0];
    SumValuesSingle("a", 30.0);
  }

  /**
   * Percentage split: rejected exactly when the values of `splits` do not add up to 100;
   * otherwise each found UID with an entry owes that percentage of `amount`.
   */
  lemma PercentageSplitShares(amount: real, resolved: seq<Option<Uid>>, table: map<Uid, real>)
    requires ResolvedUids(resolved) != []
    ensures var uids := ResolvedUids(resolved);
            var r := Split(amount, Percentage, resolved, Some(table));
            && (r == Failure(PercentagesMustAddUp) <==> SumValues(table) != 100.0)
            && (r.Success? <==> SumValues(table) == 100.0)
            && (r.Success? ==>
                  && r == Success(ExpenseRecord(amount, uids, Percentage, PercentageShares(amount, uids, table)))
                  && r.value.amountsOwed.Keys == Elements(uids) * table.Keys
                  && forall u :: u in r.value.amountsOwed ==> r.value.amountsOwed[u] == amount * (table[u] / 100.0))
  {
    var uids := ResolvedUids(resolved);
    if SumValues(table) == 100.0 {
      assert Split(amount, Percentage, resolved, Some(table))
          == Success(ExpenseRecord(amount, uids, Percentage, PercentageShares(amount, uids, table)));
    } else {
      assert Split(amount, Percentage, resolved, Some(table)) == Failure(PercentagesMustAddUp);
    }
  }

  lemma PercentageSharesScale(amount: real, uids: seq<Uid>, table: map<Uid, real>)
    ensures var owed := PercentageShares(amount, uids, table);
            SumOver(owed.Keys, owed) == amount / 100.0 * SumOver(owed.Keys, table)
  {
    var owed := PercentageShares(amount, uids, table);
    forall u | u in owed.Keys ensures owed[u] == amount / 100.0 * table[u] {
      assert owed[u] == amount * (table[u] / 100.0);
    }
    SumOverScale(owed.Keys, table, owed, amount / 100.0);
  }

  /** Percentage split: the owed amounts add up to the found UIDs' percentages of `amount`. */
  lemma PercentageSharesSum(amount: real, uids: seq<Uid>, table: map<Uid, real>)
    ensures SumValues(PercentageShares(amount, uids, table)) == amount / 100.0 * SumOver(Elements(uids) * table.Keys, table)
  {
    PercentageSharesScale(amount, uids, table);
    assert PercentageShares(amount, uids, table).Keys == Elements(uids) * table.Keys;
  }

  /**
   * Percentage split: when the percentages add up to 100 and every key of `splits` is a
   * found UID, the owed amounts add up to `amount`.
   */
  lemma PercentageSharesSumComplete(amount: real, uids: seq<Uid>, table: map<Uid, real>)
    requires SumValues(table) == 100.0 && table.Keys <= Elements(uids)
    ensures SumValues(PercentageShares(amount, uids, table)) == amount
  {
    PercentageSharesSum(amount, uids, table);
    assert Elements(uids) * table.Keys == table.Keys;
    assert SumOver(Elements(uids) * table.Keys, table) == 100.0;
  }

  /**
   * The sum check counts keys that are not participants: a share given to an unknown
   * UID passes the check and is then lost.
   */
  lemma PercentageSplitStrayKey()
    ensures var table := map["a" := 50.0, "b" := 50.0];
            && SumValues(table) == 100.0
            && ResolvedUids([Some("a")]) == ["a"]
            && PercentageShares(80.0, ["a"], table) == map["a" := 40.0]
            && SumValues(PercentageShares(80.0, ["a"], table)) == 40.0
  {
    var table := map["a" := 50.0, "b" := 50.0];
    ResolvedUidsSingle("a");
    SumValuesPair("a", "b", 50.0, 50.0);
    assert PercentageShares(80.0, ["a"], table) == map["a" := 40.0];
    SumValuesSingle("a", 40.0);
  }
}
