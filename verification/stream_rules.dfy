/** The per-transaction rules of the transaction stream processor: the three-way branch on the type, the
    fraud rules (suspicion and risk tier), the three aggregate updates and the budget-alert key.
    Amounts are cents, so the processor's thresholds 10,000,000, 50,000,000, 5,000,000 and 1,000,000
    appear here multiplied by 100.
 */
module StreamRules {
  import opened Wrappers
  import opened Text
  import opened Transactions
  import opened Windowing

  // ---------------------------------------------------------------- branching

  /** The branch a transaction is routed to. */
  datatype Branch = Expenses | Income | Transfers

  /** `"EXPENSE".equals(type)` first, then `"INCOME".equals(type)`, otherwise the default branch.
      The comparison is exact: case matters, and a null type is a transfer. */
  function Classify(kind: Option<string>): (b: Branch)
    ensures b == Expenses <==> kind == Some("EXPENSE")
    ensures b == Income <==> kind == Some("INCOME")
    ensures b == Transfers <==> kind != Some("EXPENSE") && kind != Some("INCOME")
  {
    if kind == Some("EXPENSE") then Expenses
    else if kind == Some("INCOME") then Income
    else Transfers
  }

  /** Lower-case and null types fall through to the transfers branch. */
  lemma ClassifyIsCaseSensitive()
    ensures Classify(Some("expense")) == Transfers
    ensures Classify(Some("Income")) == Transfers
    ensures Classify(None) == Transfers
  {
  }

  // ---------------------------------------------------------------- fraud rules

  const SuspiciousAmount: Cents := 10_000_000_00
  const CriticalAmount: Cents := 50_000_000_00
  const HighAmount: Cents := 10_000_000_00
  const MediumAmount: Cents := 5_000_000_00

  /** A non-null description whose lower-cased text contains "test", "fake" or "dummy". */
  predicate DescriptionFlagged(description: Option<string>)
  {
    description.Some? &&
    var lower := ToLower(description.value);
    Contains(lower, "test") || Contains(lower, "fake") || Contains(lower, "dummy")
  }

  /** `isSuspiciousTransaction`: the amount is above 10,000,000, or one of the three words occurs somewhere
      in the lower-cased description. */
  predicate IsSuspicious(t: CreatedTxn)
    ensures IsSuspicious(t) <==>
              || t.amount.value > SuspiciousAmount
              || (t.description.Some? && exists w, i :: FlaggedWord(w) && OccursAt(ToLower(t.description.value), w, i))
  {
    if t.description.Some? then
      FlaggedOccurs(t.description.value);
      t.amount.value > SuspiciousAmount || DescriptionFlagged(t.description)
    else
      t.amount.value > SuspiciousAmount
  }

  datatype RiskLevel = Low | Medium | High | Critical

  function Severity(r: RiskLevel): nat
  {
    match r
    case Low => 0
    case Medium => 1
    case High => 2
    case Critical => 3
  }

  /** `calculateRiskLevel`: four tiers with strict lower bounds 50,000,000, 10,000,000 and 5,000,000. */
  function RiskLevelOf(amount: Cents): (r: RiskLevel)
    ensures r == Critical <==> amount > CriticalAmount
    ensures r == High <==> HighAmount < amount <= CriticalAmount
    ensures r == Medium <==> MediumAmount < amount <= HighAmount
    ensures r == Low <==> amount <= MediumAmount
  {
    if amount > CriticalAmount then Critical
    else if amount > HighAmount then High
    else if amount > MediumAmount then Medium
    else Low
  }

  /** A larger amount never gets a lower tier. */
  lemma RiskLevelMonotone(a: Cents, b: Cents)
    requires a <= b
    ensures Severity(RiskLevelOf(a)) <= Severity(RiskLevelOf(b))
  {
  }

  /** The tiers at the documented sample amounts and at the 50,000,000 boundary. */
  lemma RiskLevelSamples()
    ensures RiskLevelOf(60_000_000_00) == Critical
    ensures RiskLevelOf(50_000_000_00) == High
    ensures RiskLevelOf(15_000_000_00) == High
    ensures RiskLevelOf(10_000_000_00) == Medium
    ensures RiskLevelOf(1_000_00) == Low
  {
  }

  /** An amount large enough to be suspicious on its own is always rated HIGH or CRITICAL. */
  lemma AmountTriggeredRisk(t: CreatedTxn)
    requires IsSuspicious(t) && !DescriptionFlagged(t.description)
    ensures RiskLevelOf(t.amount.value) in {High, Critical}
  {
  }

  /** Exactly 10,000,000 with no description is not suspicious; one cent more is. */
  lemma SuspicionBoundary(t: CreatedTxn)
    requires t.description.None?
    ensures IsSuspicious(t) <==> t.amount.value > 10_000_000_00
  {
  }

  /** Text without the first character of `p` does not contain `p`. */
  lemma {:induction false} MissingFirstChar(s: string, p: string)
    requires |p| > 0 && p[0] !in s
    ensures !Contains(s, p)
    decreases |s|
  {
    if s != [] {
      assert s[0] in s;
      MissingFirstChar(s[1..], p);
    }
  }

  /** The three words the check looks for. */
  predicate FlaggedWord(w: string)
  {
    w == "test" || w == "fake" || w == "dummy"
  }

  /** A description is flagged exactly when one of the three words occurs in its lower-cased text. */
  lemma FlaggedOccurs(s: string)
    ensures DescriptionFlagged(Some(s)) <==> exists w, i :: FlaggedWord(w) && OccursAt(ToLower(s), w, i)
  {
    var lower := ToLower(s);
    ContainsIff(lower, "test");
    ContainsIff(lower, "fake");
    ContainsIff(lower, "dummy");
    if DescriptionFlagged(Some(s)) {
      var w := if Contains(lower, "test") then "test" else if Contains(lower, "fake") then "fake" else "dummy";
      assert Contains(lower, w);
      var i :| OccursAt(lower, w, i);
      assert FlaggedWord(w) && OccursAt(ToLower(s), w, i);
    } else {
      forall w, i | FlaggedWord(w)
        ensures !OccursAt(lower, w, i)
      {
        assert w == "test" || w == "fake" || w == "dummy";
      }
    }
  }

  /** A flagged word in any mix of cases, anywhere in the description, even inside another word
      ("Contest"), makes it flagged. */
  lemma FlaggedWordAnywhere(before: string, w: string, after: string)
    requires FlaggedWord(ToLower(w))
    ensures DescriptionFlagged(Some(before + w + after))
  {
    var s := before + w + after;
    var lower := ToLower(s);
    assert lower[|before|..|before| + |w|] == ToLower(w);
    ContainsAt(lower, ToLower(w), |before|);
  }

  /** Lower-casing "TeSt" gives "test": upper-case variants are flagged too. */
  lemma MixedCaseWord()
    ensures FlaggedWord(ToLower("TeSt"))
  {
    assert ToLower("TeSt") == "test";
  }

  /** A description with no letter t, f or d in either case is never flagged. */
  lemma UnflaggedWithoutInitials(s: string)
    requires forall i :: 0 <= i < |s| ==> s[i] !in "tfdTFD"
    ensures !DescriptionFlagged(Some(s))
  {
    var lower := ToLower(s);
    assert forall i :: 0 <= i < |lower| ==> lower[i] !in "tfd";
    assert 't' !in lower && 'f' !in lower && 'd' !in lower;
    MissingFirstChar(lower, "test");
    MissingFirstChar(lower, "fake");
    MissingFirstChar(lower, "dummy");
  }

  /** The fraud alert for a suspicious expense. */
  datatype FraudAlert = FraudAlert(
    alertType: string,
    userId: Uuid,
    transactionId: Uuid,
    amount: Cents,
    description: Option<string>,
    riskLevel: RiskLevel)

  function FraudAlertFor(t: CreatedTxn): (a: FraudAlert)
    ensures a.userId == t.userId.value && a.transactionId == t.id.value && a.amount == t.amount.value
    ensures t.amount.value > SuspiciousAmount ==> a.riskLevel in {High, Critical}
  {
    FraudAlert("SUSPICIOUS_TRANSACTION", t.userId.value, t.id.value, t.amount.value, t.description,
               RiskLevelOf(t.amount.value))
  }

  /** A suspicious transaction of a small amount, flagged only by its description, is rated LOW. */
  lemma DescriptionOnlyAlertIsLow(t: CreatedTxn)
    requires t.amount.value <= MediumAmount
    ensures FraudAlertFor(t).riskLevel == Low
  {
  }

  // ---------------------------------------------------------------- arithmetic of the aggregates

  function Sum(xs: seq<int>): int
  {
    if xs == [] then 0 else Sum(xs[..|xs| - 1]) + xs[|xs| - 1]
  }

  function MinOf(xs: seq<int>): (m: int)
    requires |xs| > 0
    ensures m in xs && forall i :: 0 <= i < |xs| ==> m <= xs[i]
  {
    if |xs| == 1 then xs[0]
    else
      var rest := MinOf(xs[..|xs| - 1]);
      assert rest in xs[..|xs| - 1];
      if xs[|xs| - 1] < rest then xs[|xs| - 1] else rest
  }

  function MaxOf(xs: seq<int>): (m: int)
    requires |xs| > 0
    ensures m in xs && forall i :: 0 <= i < |xs| ==> xs[i] <= m
  {
    if |xs| == 1 then xs[0]
    else
      var rest := MaxOf(xs[..|xs| - 1]);
      assert rest in xs[..|xs| - 1];
      if xs[|xs| - 1] > rest then xs[|xs| - 1] else rest
  }

  function Amounts(s: seq<CreatedTxn>): (a: seq<int>)
    ensures |a| == |s| && forall i :: 0 <= i < |s| ==> a[i] == s[i].amount.value
  {
    if s == [] then [] else Amounts(s[..|s| - 1]) + [s[|s| - 1].amount.value]
  }

  lemma {:induction false} SumConcat(a: seq<int>, b: seq<int>)
    ensures Sum(a + b) == Sum(a) + Sum(b)
    decreases |b|
  {
    if b == [] {
      assert a + b == a;
    } else {
      assert (a + b)[..|a + b| - 1] == a + b[..|b| - 1];
      SumConcat(a, b[..|b| - 1]);
    }
  }

  /** A sum does not depend on the order of its terms. */
  lemma {:induction false} SumPermutation(a: seq<int>, b: seq<int>)
    requires multiset(a) == multiset(b)
    ensures Sum(a) == Sum(b)
    decreases |a|
  {
    if a != [] {
      var x := a[|a| - 1];
      assert x in multiset(b);
      var j :| 0 <= j < |b| && b[j] == x;
      var rest := b[..j] + b[j + 1..];
      assert b == b[..j] + [x] + b[j + 1..];
      assert a == a[..|a| - 1] + [x];
      assert multiset(b) == multiset(b[..j]) + multiset{x} + multiset(b[j + 1..]);
      assert multiset(a) == multiset(a[..|a| - 1]) + multiset{x};
      assert multiset(rest) == multiset(b[..j]) + multiset(b[j + 1..]);
      assert multiset(a[..|a| - 1]) + multiset{x} == multiset(rest) + multiset{x};
      assert multiset(a[..|a| - 1]) == multiset(a) - multiset{x} == multiset(rest);
      SumPermutation(a[..|a| - 1], rest);
      SumConcat(b[..j] + [x], b[j + 1..]);
      SumConcat(b[..j], [x]);
      SumConcat(b[..j], b[j + 1..]);
      assert Sum([x]) == x by {
        assert [x][..0] == [];
      }
    } else {
      assert |b| == |multiset(b)| == 0;
    }
  }

  lemma MinMaxPermutation(a: seq<int>, b: seq<int>)
    requires multiset(a) == multiset(b) && |a| > 0
    ensures |b| > 0 && MinOf(a) == MinOf(b) && MaxOf(a) == MaxOf(b)
  {
    assert |b| == |multiset(b)| == |multiset(a)| == |a|;
    var ma, mb := MinOf(a), MinOf(b);
    assert ma in multiset(b) && mb in multiset(a);
    var xa, xb := MaxOf(a), MaxOf(b);
    assert xa in multiset(b) && xb in multiset(a);
  }

  /** `BigDecimal.divide(divisor, 2, ROUND_HALF_UP)` on amounts in cents: the quotient rounded to scale 2,
      that is to whole cents, a half rounded away from zero. */
  function RoundHalfUp(n: int, d: int): (q: int)
    requires d > 0
    ensures n >= 0 ==> -d <= 2 * (n - q * d) < d
    ensures n < 0 ==> -d < 2 * (n - q * d) <= d
  {
    if n >= 0 then
      var q := (2 * n + d) / (2 * d);
      assert 2 * n + d == (2 * d) * q + (2 * n + d) % (2 * d);
      assert (2 * d) * q == 2 * (q * d);
      q
    else
      var p := (2 * -n + d) / (2 * d);
      assert 2 * -n + d == (2 * d) * p + (2 * -n + d) % (2 * d);
      assert (2 * d) * p == 2 * (p * d);
      assert -p * d == -(p * d);
      -p
  }

  // ---------------------------------------------------------------- daily spending

  /** The daily spending aggregate; amounts in cents. `categories` is created empty and never filled. */
  datatype SpendingAggregate = SpendingAggregate(
    totalAmount: Cents,
    transactionCount: nat,
    categories: map<string, Cents>,
    avgAmount: Cents,
    maxAmount: Cents,
    minAmount: Cents)

  /** `createEmptySpendingAggregate`: everything zero. */
  const EmptySpending := SpendingAggregate(0, 0, map[], 0, 0, 0)

  /** `aggregateSpendingData`: one more expense in the count and the total, the mean recomputed, and the
      extremes widened to take the amount in; the minimum starts from the first amount of the window. */
  function UpdateSpending(a: SpendingAggregate, t: CreatedTxn): (r: SpendingAggregate)
    ensures r.transactionCount == a.transactionCount + 1 && r.totalAmount == a.totalAmount + t.amount.value
    ensures r.avgAmount == RoundHalfUp(r.totalAmount, r.transactionCount) && r.categories == a.categories
    ensures t.amount.value <= r.maxAmount && a.maxAmount <= r.maxAmount
    ensures r.maxAmount == t.amount.value || r.maxAmount == a.maxAmount
    ensures a.transactionCount == 0 ==> r.minAmount == t.amount.value
    ensures a.transactionCount > 0 ==>
              && r.minAmount <= t.amount.value && r.minAmount <= a.minAmount
              && (r.minAmount == t.amount.value || r.minAmount == a.minAmount)
  {
    var amount := t.amount.value;
    var total := a.totalAmount + amount;
    var count := a.transactionCount + 1;
    SpendingAggregate(
      total,
      count,
      a.categories,
      RoundHalfUp(total, count),
      if amount > a.maxAmount then amount else a.maxAmount,
      if a.transactionCount == 0 then amount else if amount < a.minAmount then amount else a.minAmount)
  }

  /** The running count and sum of a daily window; `categories` stays empty. */
  lemma {:induction false} SpendingFoldTotals(s: seq<CreatedTxn>)
    ensures Fold(EmptySpending, UpdateSpending, s).transactionCount == |s|
    ensures Fold(EmptySpending, UpdateSpending, s).totalAmount == Sum(Amounts(s))
    ensures Fold(EmptySpending, UpdateSpending, s).categories == map[]
    decreases |s|
  {
    if s != [] {
      var init := s[..|s| - 1];
      SpendingFoldTotals(init);
      assert Amounts(s)[..|s| - 1] == Amounts(init);
    }
  }

  /** The smallest and the largest amount of a non-empty daily window. */
  lemma {:induction false} SpendingFoldExtremes(s: seq<CreatedTxn>)
    requires s != []
    ensures Fold(EmptySpending, UpdateSpending, s).minAmount == MinOf(Amounts(s))
    ensures Fold(EmptySpending, UpdateSpending, s).maxAmount == MaxOf(Amounts(s))
    decreases |s|
  {
    var init := s[..|s| - 1];
    var amount := s[|s| - 1].amount.value;
    var prev := Fold(EmptySpending, UpdateSpending, init);
    var next := Fold(EmptySpending, UpdateSpending, s);
    assert next == UpdateSpending(prev, s[|s| - 1]);
    var xs := Amounts(s);
    var ys := Amounts(init);
    assert xs[..|xs| - 1] == ys && xs[|xs| - 1] == amount;
    if init == [] {
      assert |xs| == 1;
      assert next.minAmount == amount && next.maxAmount == amount;
    } else {
      SpendingFoldTotals(init);
      SpendingFoldExtremes(init);
      assert next.minAmount == if amount < MinOf(ys) then amount else MinOf(ys);
      assert next.maxAmount == if amount > MaxOf(ys) then amount else MaxOf(ys);
    }
  }

  /** What a daily window holds after its expenses `s`: their number and sum, the smallest and largest
      amount, and the mean rounded half up; `categories` stays empty. */
  lemma SpendingFold(s: seq<CreatedTxn>)
    requires s != []
    ensures Fold(EmptySpending, UpdateSpending, s).transactionCount == |s|
    ensures Fold(EmptySpending, UpdateSpending, s).totalAmount == Sum(Amounts(s))
    ensures Fold(EmptySpending, UpdateSpending, s).categories == map[]
    ensures Fold(EmptySpending, UpdateSpending, s).minAmount == MinOf(Amounts(s))
    ensures Fold(EmptySpending, UpdateSpending, s).maxAmount == MaxOf(Amounts(s))
    ensures Fold(EmptySpending, UpdateSpending, s).avgAmount == RoundHalfUp(Sum(Amounts(s)), |s|)
  {
    SpendingFoldTotals(s);
    SpendingFoldExtremes(s);
  }

  /** The daily aggregate depends only on the multiset of amounts, not on the order they arrived in. */
  lemma SpendingOrderIndependent(s1: seq<CreatedTxn>, s2: seq<CreatedTxn>)
    requires multiset(Amounts(s1)) == multiset(Amounts(s2))
    ensures Fold(EmptySpending, UpdateSpending, s1) == Fold(EmptySpending, UpdateSpending, s2)
  {
    SumPermutation(Amounts(s1), Amounts(s2));
    assert |s1| == |Amounts(s1)| == |multiset(Amounts(s1))| == |multiset(Amounts(s2))| == |s2|;
    if s1 != [] {
      SpendingFold(s1);
      SpendingFold(s2);
      MinMaxPermutation(Amounts(s1), Amounts(s2));
    }
  }

  // ---------------------------------------------------------------- monthly income

  /** The 30-day income aggregate. `sources` is created empty and never filled. */
  datatype IncomeAggregate = IncomeAggregate(totalIncome: Cents, transactionCount: nat, sources: map<string, Cents>)

  const EmptyIncome := IncomeAggregate(0, 0, map[])

  /** `aggregateIncomeData`: one more income in the count and the total; `sources` is passed through. */
  function UpdateIncome(a: IncomeAggregate, t: CreatedTxn): (r: IncomeAggregate)
    ensures r.transactionCount == a.transactionCount + 1
    ensures r.totalIncome - a.totalIncome == t.amount.value
    ensures r.sources == a.sources
  {
    IncomeAggregate(a.totalIncome + t.amount.value, a.transactionCount + 1, a.sources)
  }

  /** An income window holds the number and the sum of its amounts; `sources` stays empty. */
  lemma {:induction false} IncomeFold(s: seq<CreatedTxn>)
    ensures Fold(EmptyIncome, UpdateIncome, s) == IncomeAggregate(Sum(Amounts(s)), |s|, map[])
    decreases |s|
  {
    if s != [] {
      IncomeFold(s[..|s| - 1]);
      assert Amounts(s)[..|s| - 1] == Amounts(s[..|s| - 1]);
    }
  }

  // ---------------------------------------------------------------- budget monitoring

  /** The 30-day spend of one user in one category. */
  datatype BudgetAggregate = BudgetAggregate(totalSpent: Cents, transactionCount: nat)

  const EmptyBudget := BudgetAggregate(0, 0)

  /** The hard-coded budget limit, 1,000,000, compared strictly. */
  const BudgetThreshold: Cents := 1_000_000_00

  /** The budget aggregator: one more expense in the count and the spend. */
  function UpdateBudget(a: BudgetAggregate, t: CreatedTxn): (r: BudgetAggregate)
    ensures r.transactionCount == a.transactionCount + 1
    ensures r.totalSpent - a.totalSpent == t.amount.value
  {
    BudgetAggregate(a.totalSpent + t.amount.value, a.transactionCount + 1)
  }

  /** A budget window holds the number and the sum of its amounts. */
  lemma {:induction false} BudgetFold(s: seq<CreatedTxn>)
    ensures Fold(EmptyBudget, UpdateBudget, s) == BudgetAggregate(Sum(Amounts(s)), |s|)
    decreases |s|
  {
    if s != [] {
      BudgetFold(s[..|s| - 1]);
      assert Amounts(s)[..|s| - 1] == Amounts(s[..|s| - 1]);
    }
  }

  /** The grouping key of the budget aggregation: `userId + ":" + categoryId`. */
  function BudgetKey(userId: Uuid, categoryId: string): (k: string)
    ensures |k| == |userId| + 1 + |categoryId|
    ensures ':' !in k[..|userId|] && k[..|userId|] == userId
    ensures k[|userId|] == ':' && k[|userId| + 1..] == categoryId
  {
    UuidHasNoColon(userId);
    userId + ":" + categoryId
  }

  /** How the alert recovers user and category from the key, as written: `key.split(":")`, then
      elements 0 and 1. None stands for the ArrayIndexOutOfBoundsException thrown when the split
      yields fewer than two elements. */
  function SplitBudgetKeyAsWritten(key: string): (r: Option<(string, string)>)
    ensures ':' !in key ==> r.None?
    ensures r.None? ==> forall i :: 1 <= i < |Pieces(key, ':')| ==> Pieces(key, ':')[i] == ""
    ensures r.Some? ==> |Pieces(key, ':')| >= 2 && r.value == (Pieces(key, ':')[0], Pieces(key, ':')[1])
    ensures r.Some? ==> ':' !in r.value.0 && ':' !in r.value.1
  {
    var parts := SplitOn(key, ':');
    if |parts| < 2 then None else Some((parts[0], parts[1]))
  }

  lemma BudgetKeyPieces(u: Uuid, c: string)
    ensures Pieces(BudgetKey(u, c), ':') == [u] + Pieces(c, ':')
    ensures ':' in BudgetKey(u, c)
  {
    UuidHasNoColon(u);
    assert BudgetKey(u, c) == u + [':'] + c;
    PiecesAfterFirst(u, c, ':');
    assert BudgetKey(u, c)[|u|] == ':';
  }

  /** As written, the split gives back exactly the user and the category if and only if the category is
      non-empty and free of ':'. */
  lemma SplitAsWrittenExactIff(u: Uuid, c: string)
    ensures SplitBudgetKeyAsWritten(BudgetKey(u, c)) == Some((u, c)) <==> c != "" && ':' !in c
  {
    var key := BudgetKey(u, c);
    BudgetKeyPieces(u, c);
    var parts := SplitOn(key, ':');
    if c == "" {
      assert Pieces(key, ':') == [u, ""];
      assert |parts| < 2;
    } else if ':' in c {
      if |parts| >= 2 {
        assert ':' !in parts[1];
      }
    } else {
      PiecesOfFree(c, ':');
      assert Pieces(key, ':') == [u, c];
      assert c[|c| - 1] in c;
      assert parts == [u, c];
    }
  }

  /** A concrete input the split as written cannot handle: the empty category makes it throw. */
  lemma SplitAsWrittenThrowsOnEmptyCategory(u: Uuid)
    ensures SplitBudgetKeyAsWritten(BudgetKey(u, "")).None?
  {
    SplitAsWrittenExactIff(u, "");
    BudgetKeyPieces(u, "");
    assert Pieces("", ':') == [""];
  }

  /** As written, a category with a second ':' is cut at it: only the part before it comes back. */
  lemma SplitAsWrittenCutsAtColon(u: Uuid, a: string, b: string)
    requires ':' !in a && ':' !in b && b != ""
    ensures SplitBudgetKeyAsWritten(BudgetKey(u, a + [':'] + b)) == Some((u, a))
  {
    var key := BudgetKey(u, a + [':'] + b);
    BudgetKeyPieces(u, a + [':'] + b);
    PiecesAfterFirst(a, b, ':');
    PiecesOfFree(b, ':');
    var ps := Pieces(key, ':');
    assert ps == [u, a, b];
    assert ps[2] != "";
    assert SplitOn(key, ':') == ps;
  }

  /** A concrete input the split as written gets wrong: the category "food:lunch" comes back as "food". */
  lemma SplitAsWrittenTruncatesCategory(u: Uuid)
    ensures SplitBudgetKeyAsWritten(BudgetKey(u, "food:lunch")) == Some((u, "food"))
  {
    assert "food:lunch" == "food" + [':'] + "lunch";
    SplitAsWrittenCutsAtColon(u, "food", "lunch");
  }

  /** The text before the first `d` and the text after it; None when `d` does not occur. */
  function SplitAtFirst(s: string, d: char): (r: Option<(string, string)>)
    ensures r.None? <==> d !in s
    ensures r.Some? ==> d !in r.value.0 && s == r.value.0 + [d] + r.value.1
  {
    if s == [] then None
    else if s[0] == d then Some(([], s[1..]))
    else
      match SplitAtFirst(s[1..], d)
      case None => None
      case Some(parts) => Some(([s[0]] + parts.0, parts.1))
  }

  /** When `a` is free of `d`, the first `d` of `a + [d] + b` is the one after `a`. */
  lemma {:induction false} SplitAtFirstAfterFree(a: string, b: string, d: char)
    requires d !in a
    ensures SplitAtFirst(a + [d] + b, d) == Some((a, b))
    decreases |a|
  {
    var s := a + [d] + b;
    if a == [] {
      assert s[1..] == b;
    } else {
      assert s[1..] == a[1..] + [d] + b;
      SplitAtFirstAfterFree(a[1..], b, d);
      assert [a[0]] + a[1..] == a;
    }
  }

  /** The evidently intended recovery of user and category: split at the first ':' only. */
  function SplitBudgetKey(key: string): Option<(string, string)>
  {
    SplitAtFirst(key, ':')
  }

  /** Splitting at the first ':' recovers user and category for every category, the empty one and ones
      containing ':' included. */
  lemma SplitBudgetKeyRoundTrip(u: Uuid, c: string)
    ensures SplitBudgetKey(BudgetKey(u, c)) == Some((u, c))
  {
    UuidHasNoColon(u);
    assert BudgetKey(u, c) == u + [':'] + c;
    SplitAtFirstAfterFree(u, c, ':');
  }
}
