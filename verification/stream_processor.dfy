/** The topology of the transaction stream processor, one record at a time.
    Every record of the transaction-events topic goes through four paths:
      - expenses that look suspicious produce a fraud alert;
      - income is summed per user over 30-day windows (monthly income summary);
      - expenses are summarised per user over 1-day windows (daily spending summary);
      - expenses with a category are summed per (user, category) over 30-day windows, and a budget
        alert is produced whenever the window's total is above the threshold.
    A windowed aggregation emits its updated aggregate for every record it takes. `Expected` states
    the outputs of record `i` declaratively, as folds over the contents of the record's windows;
    `Process` computes them with three state stores, as the stream runtime does.
 */
module StreamProcessor {
  import opened Wrappers
  import opened Transactions
  import opened Windowing
  import opened StreamRules

  predicate IsExpense(r: Rec)
  {
    Classify(r.txn.kind) == Expenses
  }

  predicate IsIncome(r: Rec)
  {
    Classify(r.txn.kind) == Income
  }

  /** The budget path takes expenses whose category is not null. */
  predicate IsBudgeted(r: Rec)
  {
    IsExpense(r) && r.txn.categoryId.Some?
  }

  /** `groupByKey`: the record's own key, the user id as the transaction service sends it. */
  function RecordKey(r: Rec): string
  {
    r.key
  }

  /** `selectKey`: `userId + ":" + categoryId`. Records without a category never reach this point. */
  function BudgetKeyOf(r: Rec): string
  {
    BudgetKey(r.txn.userId.value, r.txn.categoryId.GetOr("null"))
  }

  const MonthlyIncome := Grouping(IsIncome, RecordKey, ThirtyDayMillis)
  const DailySpending := Grouping(IsExpense, RecordKey, DayMillis)
  const BudgetWatch := Grouping(IsBudgeted, BudgetKeyOf, ThirtyDayMillis)

  /** A MONTHLY_INCOME_SUMMARY message: user, start of the 30-day window, aggregate so far. */
  datatype IncomeSummary = IncomeSummary(userId: string, period: nat, data: IncomeAggregate)

  /** A DAILY_SPENDING_SUMMARY message: user, start of the day window, aggregate so far. */
  datatype DailySpendingSummary = DailySpendingSummary(userId: string, date: nat, data: SpendingAggregate)

  /** A BUDGET_THRESHOLD_EXCEEDED message, keyed by its user id. */
  datatype BudgetAlert = BudgetAlert(userId: string, categoryId: string, period: nat, totalSpent: Cents, transactionCount: nat)

  /** What one record makes the processor send, per output path (None: nothing sent). */
  datatype StepOutput = StepOutput(
    fraudAlert: Option<FraudAlert>,
    incomeSummary: Option<IncomeSummary>,
    dailySummary: Option<DailySpendingSummary>,
    budgetAlert: Option<BudgetAlert>)

  /** The outputs for record `r`, given the aggregates of its three windows after `r` was added: a fraud
      alert for a suspicious expense, the income summary for an income, the daily summary for an expense,
      and a budget alert naming the record's own user and category once the spend passes the threshold. */
  function Outputs(r: Rec, income: IncomeAggregate, daily: SpendingAggregate, budget: BudgetAggregate): (o: StepOutput)
    ensures o.fraudAlert.Some? <==> IsExpense(r) && IsSuspicious(r.txn)
    ensures o.incomeSummary.Some? <==> IsIncome(r)
    ensures o.dailySummary.Some? <==> IsExpense(r)
    ensures o.budgetAlert.Some? <==> IsBudgeted(r) && budget.totalSpent > BudgetThreshold
    ensures o.budgetAlert.Some? ==>
              o.budgetAlert.value.userId == r.txn.userId.value && o.budgetAlert.value.categoryId == r.txn.categoryId.value
  {
    var alert :=
      if IsBudgeted(r) && budget.totalSpent > BudgetThreshold then
        SplitBudgetKeyRoundTrip(r.txn.userId.value, r.txn.categoryId.value);
        match SplitBudgetKey(BudgetKeyOf(r))
        case None => None
        case Some(parts) =>
          Some(BudgetAlert(parts.0, parts.1, WindowStart(ThirtyDayMillis, r.ts / ThirtyDayMillis),
                           budget.totalSpent, budget.transactionCount))
      else None;
    StepOutput(
      if IsExpense(r) && IsSuspicious(r.txn) then Some(FraudAlertFor(r.txn)) else None,
      if IsIncome(r) then Some(IncomeSummary(r.key, WindowStart(ThirtyDayMillis, r.ts / ThirtyDayMillis), income)) else None,
      if IsExpense(r) then Some(DailySpendingSummary(r.key, WindowStart(DayMillis, r.ts / DayMillis), daily)) else None,
      alert)
  }

  /** The budget alert as the source builds it, from elements 0 and 1 of `key.split(":")`. Failure stands
      for the ArrayIndexOutOfBoundsException of a key that splits into fewer than two elements. */
  function BudgetAlertAsWritten(r: Rec, budget: BudgetAggregate): Result<Option<BudgetAlert>, string>
  {
    if IsBudgeted(r) && budget.totalSpent > BudgetThreshold then
      match SplitBudgetKeyAsWritten(BudgetKeyOf(r))
      case None => Failure("ArrayIndexOutOfBoundsException")
      case Some(parts) =>
        Success(Some(BudgetAlert(parts.0, parts.1, WindowStart(ThirtyDayMillis, r.ts / ThirtyDayMillis),
                                 budget.totalSpent, budget.transactionCount)))
    else Success(None)
  }

  /** A category the source's split recovers intact: non-empty and free of ':'. */
  predicate PlainCategory(r: Rec)
  {
    r.txn.categoryId.Some? ==> r.txn.categoryId.value != "" && ':' !in r.txn.categoryId.value
  }

  /** The source's split sends the same budget alert as the corrected one exactly when no alert is due or
      the category is plain; otherwise it throws (empty category) or names a shortened category. */
  lemma AsWrittenAlertAgrees(r: Rec, income: IncomeAggregate, daily: SpendingAggregate, budget: BudgetAggregate)
    ensures BudgetAlertAsWritten(r, budget) == Success(Outputs(r, income, daily, budget).budgetAlert)
            <==> !(IsBudgeted(r) && budget.totalSpent > BudgetThreshold) || PlainCategory(r)
  {
    if IsBudgeted(r) && budget.totalSpent > BudgetThreshold {
      SplitAsWrittenExactIff(r.txn.userId.value, r.txn.categoryId.value);
    }
  }

  /** The reference meaning of the topology: record `i`'s outputs computed from the folds over the
      contents of its windows among the records up to and including `i`. */
  function Expected(rs: seq<Rec>, i: nat): StepOutput
    requires i < |rs|
  {
    var r := rs[i];
    var seen := rs[..i + 1];
    Outputs(r,
            Fold(EmptyIncome, UpdateIncome, Contents(seen, MonthlyIncome, WindowOf(MonthlyIncome, r))),
            Fold(EmptySpending, UpdateSpending, Contents(seen, DailySpending, WindowOf(DailySpending, r))),
            Fold(EmptyBudget, UpdateBudget, Contents(seen, BudgetWatch, WindowOf(BudgetWatch, r))))
  }

  /** State stores that mirror the records up to and including `i` give record `i` its expected outputs. */
  lemma StoresGiveExpected(rs: seq<Rec>, i: nat, income: map<WindowKey, IncomeAggregate>,
                           daily: map<WindowKey, SpendingAggregate>, budget: map<WindowKey, BudgetAggregate>)
    requires i < |rs|
    requires Mirrors(income, rs[..i + 1], MonthlyIncome, EmptyIncome, UpdateIncome)
    requires Mirrors(daily, rs[..i + 1], DailySpending, EmptySpending, UpdateSpending)
    requires Mirrors(budget, rs[..i + 1], BudgetWatch, EmptyBudget, UpdateBudget)
    ensures Outputs(rs[i],
                    Lookup(income, WindowOf(MonthlyIncome, rs[i]), EmptyIncome),
                    Lookup(daily, WindowOf(DailySpending, rs[i]), EmptySpending),
                    Lookup(budget, WindowOf(BudgetWatch, rs[i]), EmptyBudget)) == Expected(rs, i)
  {
    var r := rs[i];
    assert Lookup(income, WindowOf(MonthlyIncome, r), EmptyIncome)
        == Fold(EmptyIncome, UpdateIncome, Contents(rs[..i + 1], MonthlyIncome, WindowOf(MonthlyIncome, r)));
    assert Lookup(daily, WindowOf(DailySpending, r), EmptySpending)
        == Fold(EmptySpending, UpdateSpending, Contents(rs[..i + 1], DailySpending, WindowOf(DailySpending, r)));
    assert Lookup(budget, WindowOf(BudgetWatch, r), EmptyBudget)
        == Fold(EmptyBudget, UpdateBudget, Contents(rs[..i + 1], BudgetWatch, WindowOf(BudgetWatch, r)));
  }

  /** One record through the topology: each state store takes the record, then the outputs are read
      off the record's three windows. Stores mirroring the records before `n` come out mirroring the
      records up to and including `n`, and the outputs are record `n`'s expected ones. */
  method Step(rs: seq<Rec>, n: nat, income: map<WindowKey, IncomeAggregate>,
              daily: map<WindowKey, SpendingAggregate>, budget: map<WindowKey, BudgetAggregate>)
    returns (income': map<WindowKey, IncomeAggregate>, daily': map<WindowKey, SpendingAggregate>,
             budget': map<WindowKey, BudgetAggregate>, out: StepOutput)
    requires n < |rs|
    requires Mirrors(income, rs[..n], MonthlyIncome, EmptyIncome, UpdateIncome)
    requires Mirrors(daily, rs[..n], DailySpending, EmptySpending, UpdateSpending)
    requires Mirrors(budget, rs[..n], BudgetWatch, EmptyBudget, UpdateBudget)
    ensures Mirrors(income', rs[..n + 1], MonthlyIncome, EmptyIncome, UpdateIncome)
    ensures Mirrors(daily', rs[..n + 1], DailySpending, EmptySpending, UpdateSpending)
    ensures Mirrors(budget', rs[..n + 1], BudgetWatch, EmptyBudget, UpdateBudget)
    ensures out == Expected(rs, n)
  {
    var r := rs[n];
    assert rs[..n] + [r] == rs[..n + 1];
    AdvanceMirrors(income, rs[..n], MonthlyIncome, EmptyIncome, UpdateIncome, r);
    AdvanceMirrors(daily, rs[..n], DailySpending, EmptySpending, UpdateSpending, r);
    AdvanceMirrors(budget, rs[..n], BudgetWatch, EmptyBudget, UpdateBudget, r);
    income' := Advance(income, MonthlyIncome, EmptyIncome, UpdateIncome, r);
    daily' := Advance(daily, DailySpending, EmptySpending, UpdateSpending, r);
    budget' := Advance(budget, BudgetWatch, EmptyBudget, UpdateBudget, r);
    StoresGiveExpected(rs, n, income', daily', budget');
    out := Outputs(r,
                   Lookup(income', WindowOf(MonthlyIncome, r), EmptyIncome),
                   Lookup(daily', WindowOf(DailySpending, r), EmptySpending),
                   Lookup(budget', WindowOf(BudgetWatch, r), EmptyBudget));
  }

  /** The topology run over the records in arrival order, with one state store per aggregation: each
      record's outputs are exactly the declarative ones. */
  method Process(rs: seq<Rec>) returns (outs: seq<StepOutput>)
    ensures |outs| == |rs|
    ensures forall i :: 0 <= i < |rs| ==> outs[i] == Expected(rs, i)
  {
    var income: map<WindowKey, IncomeAggregate> := map[];
    var daily: map<WindowKey, SpendingAggregate> := map[];
    var budget: map<WindowKey, BudgetAggregate> := map[];
    EmptyMirrors(MonthlyIncome, EmptyIncome, UpdateIncome);
    EmptyMirrors(DailySpending, EmptySpending, UpdateSpending);
    EmptyMirrors(BudgetWatch, EmptyBudget, UpdateBudget);
    assert rs[..0] == [];
    outs := [];
    for n := 0 to |rs|
      invariant |outs| == n
      invariant forall i :: 0 <= i < n ==> outs[i] == Expected(rs, i)
      invariant Mirrors(income, rs[..n], MonthlyIncome, EmptyIncome, UpdateIncome)
      invariant Mirrors(daily, rs[..n], DailySpending, EmptySpending, UpdateSpending)
      invariant Mirrors(budget, rs[..n], BudgetWatch, EmptyBudget, UpdateBudget)
    {
      var out;
      income, daily, budget, out := Step(rs, n, income, daily, budget);
      outs := outs + [out];
    }
  }


  // ---------------------------------------------------------------- what the outputs mean

  /** The transactions of record `i`'s own window of grouping `g`, among the records up to `i`. */
  function OwnWindow(rs: seq<Rec>, i: nat, g: Grouping): seq<CreatedTxn>
    requires i < |rs|
  {
    Contents(rs[..i + 1], g, WindowOf(g, rs[i]))
  }

  /** A selected record is the latest member of its own window. */
  lemma OwnWindowEndsWithRecord(rs: seq<Rec>, i: nat, g: Grouping)
    requires i < |rs| && g.selects(rs[i])
    ensures OwnWindow(rs, i, g) != [] && OwnWindow(rs, i, g)[|OwnWindow(rs, i, g)| - 1] == rs[i].txn
  {
    assert rs[..i + 1] == rs[..i] + [rs[i]];
    RecordJoinsOneWindow(rs[..i], g, rs[i], WindowOf(g, rs[i]));
  }

  /** Transfers (and any type other than EXPENSE and INCOME) produce no output at all. */
  lemma TransfersSendNothing(rs: seq<Rec>, i: nat)
    requires i < |rs| && rs[i].txn.kind != Some("EXPENSE") && rs[i].txn.kind != Some("INCOME")
    ensures Expected(rs, i) == StepOutput(None, None, None, None)
  {
  }

  /** Income produces a monthly income summary and nothing else: never a fraud alert, a daily summary
      or a budget alert. */
  lemma IncomeSendsOnlySummary(rs: seq<Rec>, i: nat)
    requires i < |rs| && rs[i].txn.kind == Some("INCOME")
    ensures Expected(rs, i).incomeSummary.Some?
    ensures Expected(rs, i).fraudAlert.None? && Expected(rs, i).dailySummary.None? && Expected(rs, i).budgetAlert.None?
  {
  }

  /** A fraud alert is sent exactly for an expense above 10,000,000 or with a flagged description; it
      carries the transaction's user, id and amount and the risk tier of the amount. */
  lemma FraudAlertIff(rs: seq<Rec>, i: nat)
    requires i < |rs|
    ensures Expected(rs, i).fraudAlert.Some? <==>
              rs[i].txn.kind == Some("EXPENSE")
              && (rs[i].txn.amount.value > 10_000_000_00 || DescriptionFlagged(rs[i].txn.description))
    ensures Expected(rs, i).fraudAlert.Some? ==>
              var a := Expected(rs, i).fraudAlert.value;
              a.alertType == "SUSPICIOUS_TRANSACTION" && a.userId == rs[i].txn.userId.value
              && a.transactionId == rs[i].txn.id.value && a.amount == rs[i].txn.amount.value
              && a.riskLevel == RiskLevelOf(rs[i].txn.amount.value)
  {
  }

  /** The monthly income summary of an income record holds the number and the sum of the income of the
      same key in the same 30-day window so far, the record itself included. */
  lemma IncomeSummaryMeans(rs: seq<Rec>, i: nat)
    requires i < |rs| && IsIncome(rs[i])
    ensures var c := OwnWindow(rs, i, MonthlyIncome);
            && c != [] && c[|c| - 1] == rs[i].txn
            && Expected(rs, i).incomeSummary
               == Some(IncomeSummary(rs[i].key, (rs[i].ts / ThirtyDayMillis) * ThirtyDayMillis,
                                     IncomeAggregate(Sum(Amounts(c)), |c|, map[])))
  {
    OwnWindowEndsWithRecord(rs, i, MonthlyIncome);
    IncomeFold(OwnWindow(rs, i, MonthlyIncome));
  }

  /** The daily spending summary of an expense: count, sum, mean, largest and smallest amount of the
      expenses of the same key on the same day so far, the record itself included. */
  lemma DailySummaryMeans(rs: seq<Rec>, i: nat)
    requires i < |rs| && IsExpense(rs[i])
    ensures var c := OwnWindow(rs, i, DailySpending);
            && c != [] && c[|c| - 1] == rs[i].txn
            && Expected(rs, i).dailySummary.Some?
            && var d := Expected(rs, i).dailySummary.value;
            && d.userId == rs[i].key && d.date == (rs[i].ts / DayMillis) * DayMillis
            && d.data.transactionCount == |c|
            && d.data.totalAmount == Sum(Amounts(c))
            && d.data.avgAmount == RoundHalfUp(Sum(Amounts(c)), |c|)
            && d.data.maxAmount == MaxOf(Amounts(c))
            && d.data.minAmount == MinOf(Amounts(c))
            && d.data.categories == map[]
  {
    OwnWindowEndsWithRecord(rs, i, DailySpending);
    SpendingFold(OwnWindow(rs, i, DailySpending));
  }

  /** A budget alert is sent for an expense with a category exactly when the 30-day spend of its user in
      its category, the expense included, is above 1,000,000; it names that user and category and
      carries the total and the count. */
  lemma BudgetAlertIff(rs: seq<Rec>, i: nat)
    requires i < |rs| && IsExpense(rs[i])
    ensures var c := OwnWindow(rs, i, BudgetWatch);
            Expected(rs, i).budgetAlert.Some? <==> rs[i].txn.categoryId.Some? && Sum(Amounts(c)) > BudgetThreshold
    ensures var c := OwnWindow(rs, i, BudgetWatch);
            Expected(rs, i).budgetAlert.Some? ==>
              Expected(rs, i).budgetAlert.value
              == BudgetAlert(rs[i].txn.userId.value, rs[i].txn.categoryId.value,
                             (rs[i].ts / ThirtyDayMillis) * ThirtyDayMillis, Sum(Amounts(c)), |c|)
  {
    BudgetFold(OwnWindow(rs, i, BudgetWatch));
    if rs[i].txn.categoryId.Some? {
      SplitBudgetKeyRoundTrip(rs[i].txn.userId.value, rs[i].txn.categoryId.value);
    }
  }

  /** Record `i`'s budget alert as the source computes it, from the same window aggregate. */
  function ExpectedBudgetAlertAsWritten(rs: seq<Rec>, i: nat): Result<Option<BudgetAlert>, string>
    requires i < |rs|
  {
    BudgetAlertAsWritten(rs[i], Fold(EmptyBudget, UpdateBudget, OwnWindow(rs, i, BudgetWatch)))
  }

  /** For a plain category, the source's budget alert is the one `Expected` states, so every budget-alert
      property of `Expected` holds of the source for such records. */
  lemma BudgetAlertAsWrittenAgrees(rs: seq<Rec>, i: nat)
    requires i < |rs| && PlainCategory(rs[i])
    ensures ExpectedBudgetAlertAsWritten(rs, i) == Success(Expected(rs, i).budgetAlert)
  {
    var seen := rs[..i + 1];
    var r := rs[i];
    AsWrittenAlertAgrees(r,
      Fold(EmptyIncome, UpdateIncome, Contents(seen, MonthlyIncome, WindowOf(MonthlyIncome, r))),
      Fold(EmptySpending, UpdateSpending, Contents(seen, DailySpending, WindowOf(DailySpending, r))),
      Fold(EmptyBudget, UpdateBudget, OwnWindow(rs, i, BudgetWatch)));
  }

  /** The sum of `n` equal terms. */
  lemma {:induction false} SumOfEqual(xs: seq<int>, a: int)
    requires forall k :: 0 <= k < |xs| ==> xs[k] == a
    ensures Sum(xs) == |xs| * a
    decreases |xs|
  {
    if xs != [] {
      SumOfEqual(xs[..|xs| - 1], a);
    }
  }

  /** Repeated expenses of one user, in one category and one 30-day window, each of amount `a`: the
      `(i + 1)`-th one raises a budget alert exactly when `(i + 1) * a` exceeds 1,000,000. */
  lemma RepeatedExpenseAlerts(rs: seq<Rec>, i: nat, a: Cents)
    requires i < |rs|
    requires forall k :: 0 <= k < |rs| ==> IsBudgeted(rs[k]) && rs[k].txn.amount == Some(a)
    requires forall k :: 0 <= k < |rs| ==> WindowOf(BudgetWatch, rs[k]) == WindowOf(BudgetWatch, rs[0])
    ensures Expected(rs, i).budgetAlert.Some? <==> (i + 1) * a > BudgetThreshold
  {
    var wk := WindowOf(BudgetWatch, rs[0]);
    var seen := rs[..i + 1];
    assert forall k :: 0 <= k < |seen| ==> BudgetWatch.selects(seen[k]) && WindowOf(BudgetWatch, seen[k]) == wk;
    WholeStreamInOneWindow(seen, BudgetWatch, wk);
    var c := OwnWindow(rs, i, BudgetWatch);
    assert c == Txns(seen);
    SumOfEqual(Amounts(c), a);
    BudgetAlertIff(rs, i);
  }

  /** Five expenses of 250,000 in one category and one window: the fifth raises the alert; the fourth,
      which brings the total to exactly 1,000,000, does not. */
  lemma FifthQuarterMillionAlerts(rs: seq<Rec>)
    requires |rs| == 5
    requires forall k :: 0 <= k < |rs| ==> IsBudgeted(rs[k]) && rs[k].txn.amount == Some(250_000_00)
    requires forall k :: 0 <= k < |rs| ==> WindowOf(BudgetWatch, rs[k]) == WindowOf(BudgetWatch, rs[0])
    ensures forall i :: 0 <= i < 4 ==> Expected(rs, i).budgetAlert.None?
    ensures Expected(rs, 4).budgetAlert.Some?
  {
    forall i | 0 <= i < 5
      ensures Expected(rs, i).budgetAlert.Some? <==> (i + 1) * 250_000_00 > BudgetThreshold
    {
      RepeatedExpenseAlerts(rs, i, 250_000_00);
    }
  }
}
