/** The expenses screen: expected outflow (due expenses plus the yearly
    taxes), the yearly gross it is compared with, and the expense list that
    the add and delete actions update. */
module Expenses {
  import opened Wrappers
  import opened Dates
  import Finance

  datatype Expense = Expense(id: string, description: string, payDate: string, amount: real)

  /** The clock reading `new Date()`: a local day and the milliseconds since
      its midnight. */
  datatype Instant = Instant(day: string, millisOfDay: nat)

  const MillisPerDay: nat := 86400000

  predicate ValidInstant(now: Instant)
  {
    IsDate(now.day) && now.millisOfDay < MillisPerDay
  }

  /** `parseISO(payDate) >= now`. A due day parses to its local midnight, so it
      is reached only by a later day, or by today at exactly midnight. A text
      not of the form YYYY-MM-DD is treated as no date, which compares false
      (`parseISO` reads some other ISO shapes too; they are not modelled). */
  predicate IsDue(payDate: string, now: Instant)
  {
    IsDate(payDate) && (LexLess(now.day, payDate) || (payDate == now.day && now.millisOfDay == 0))
  }

  /** The `reduce` of `calculateExpectedExpenses`: a left fold adding the amount
      of each due expense. */
  function DueTotal(expenses: seq<Expense>, now: Instant): real
  {
    if expenses == [] then 0.0
    else
      var last := expenses[|expenses| - 1];
      DueTotal(expenses[..|expenses| - 1], now) + (if IsDue(last.payDate, now) then last.amount else 0.0)
  }

  /** `calculateExpectedExpenses(expenses, taxes)`. */
  function ExpectedExpenses(expenses: seq<Expense>, taxes: real, now: Instant): real
  {
    DueTotal(expenses, now) + taxes
  }

  /** The expenses still due at `now`, in list order. */
  function DueExpenses(expenses: seq<Expense>, now: Instant): (due: seq<Expense>)
    ensures forall e :: e in due <==> e in expenses && IsDue(e.payDate, now)
    ensures |due| <= |expenses|
  {
    if expenses == [] then []
    else (if IsDue(expenses[0].payDate, now) then [expenses[0]] else []) + DueExpenses(expenses[1..], now)
  }

  function SumAmounts(expenses: seq<Expense>): real
  {
    if expenses == [] then 0.0 else expenses[0].amount + SumAmounts(expenses[1..])
  }

  lemma {:induction false} SumAmountsAppend(a: seq<Expense>, b: seq<Expense>)
    ensures SumAmounts(a + b) == SumAmounts(a) + SumAmounts(b)
  {
    if a == [] {
      assert a + b == b;
    } else {
      assert (a + b)[0] == a[0] && (a + b)[1..] == a[1..] + b;
      SumAmountsAppend(a[1..], b);
    }
  }

  lemma {:induction false} DueExpensesAppend(a: seq<Expense>, b: seq<Expense>, now: Instant)
    ensures DueExpenses(a + b, now) == DueExpenses(a, now) + DueExpenses(b, now)
  {
    if a == [] {
      assert a + b == b;
    } else {
      assert (a + b)[0] == a[0] && (a + b)[1..] == a[1..] + b;
      DueExpensesAppend(a[1..], b, now);
      var head := if IsDue(a[0].payDate, now) then [a[0]] else [];
      calc {
        DueExpenses(a + b, now);
        head + DueExpenses(a[1..] + b, now);
        head + (DueExpenses(a[1..], now) + DueExpenses(b, now));
        (head + DueExpenses(a[1..], now)) + DueExpenses(b, now);
      }
    }
  }

  /** Expected outflow is the yearly taxes plus the amounts of exactly the
      expenses still due, whatever their order. */
  lemma {:induction false} ExpectedIsTaxesPlusDue(expenses: seq<Expense>, taxes: real, now: Instant)
    ensures ExpectedExpenses(expenses, taxes, now) == taxes + SumAmounts(DueExpenses(expenses, now))
  {
    DueTotalIsSum(expenses, now);
  }

  lemma {:induction false} DueTotalIsSum(expenses: seq<Expense>, now: Instant)
    ensures DueTotal(expenses, now) == SumAmounts(DueExpenses(expenses, now))
  {
    if expenses != [] {
      var n := |expenses| - 1;
      var init, last := expenses[..n], expenses[n];
      assert expenses == init + [last];
      DueTotalIsSum(init, now);
      DueExpensesAppend(init, [last], now);
      SumAmountsAppend(DueExpenses(init, now), DueExpenses([last], now));
      assert DueExpenses([last], now) == if IsDue(last.payDate, now) then [last] else [];
    }
  }

  /** Adding one expense adds its amount to the outflow if and only if it is
      due, and nothing otherwise. */
  lemma AppendExpense(expenses: seq<Expense>, e: Expense, taxes: real, now: Instant)
    ensures ExpectedExpenses(expenses + [e], taxes, now) ==
            ExpectedExpenses(expenses, taxes, now) + (if IsDue(e.payDate, now) then e.amount else 0.0)
  {
    assert (expenses + [e])[..|expenses|] == expenses;
  }

  predicate NonNegativeAmounts(expenses: seq<Expense>)
  {
    forall i :: 0 <= i < |expenses| ==> expenses[i].amount >= 0.0
  }

  /** With non-negative amounts the outflow is at least the taxes. */
  lemma {:induction false} ExpectedAtLeastTaxes(expenses: seq<Expense>, taxes: real, now: Instant)
    requires NonNegativeAmounts(expenses)
    ensures ExpectedExpenses(expenses, taxes, now) >= taxes
  {
    if expenses != [] {
      var n := |expenses| - 1;
      assert NonNegativeAmounts(expenses[..n]);
      ExpectedAtLeastTaxes(expenses[..n], taxes, now);
    }
  }

  /** ... and never falls when an expense of non-negative amount is added. */
  lemma ExpectedMonotone(expenses: seq<Expense>, e: Expense, taxes: real, now: Instant)
    requires e.amount >= 0.0
    ensures ExpectedExpenses(expenses + [e], taxes, now) >= ExpectedExpenses(expenses, taxes, now)
  {
    AppendExpense(expenses, e, taxes, now);
  }

  /** An expense due today is not counted once the day has begun, and one due
      on an earlier day is never counted. */
  lemma TodayAndPastExcluded(payDate: string, now: Instant)
    ensures payDate == now.day && now.millisOfDay > 0 ==> !IsDue(payDate, now)
    ensures LexLess(payDate, now.day) ==> !IsDue(payDate, now)
  {
    if LexLess(payDate, now.day) { LexLessAsymmetric(payDate, now.day); LexLessIrreflexive(now.day); }
  }

  lemma ExamplePastDate()
    ensures !IsDue("2025-01-10", Instant("2025-06-01", 43200000))
  {
    var p, t := "2025-01-10", "2025-06-01";
    assert p[..6] == t[..6];
    LexLessAt(p, t, 6);
    LexLessAsymmetric(p, t);
    assert p[6] != t[6];
  }

  lemma ExampleFutureDate()
    ensures IsDue("2025-12-31", Instant("2025-06-01", 43200000))
  {
    var t, f := "2025-06-01", "2025-12-31";
    assert t[..5] == f[..5];
    LexLessAt(t, f, 5);
    assert IsDate(f);
  }

  /** A past expense of 100 and a future one of 200 with taxes of 50 give 250. */
  lemma ExpectedExample()
    ensures ExpectedExpenses([Expense("1", "rent", "2025-01-10", 100.0), Expense("2", "insurance", "2025-12-31", 200.0)],
                             50.0, Instant("2025-06-01", 43200000)) == 250.0
  {
    var now := Instant("2025-06-01", 43200000);
    var past, future := Expense("1", "rent", "2025-01-10", 100.0), Expense("2", "insurance", "2025-12-31", 200.0);
    ExamplePastDate();
    ExampleFutureDate();
    var list := [past, future];
    assert list[..1] == [past] && list[..1][..0] == [];
    assert DueTotal([past], now) == 0.0;
  }

  // ---- Yearly gross and taxes ----

  /** The worked entries dated in the year of `now` (`getFullYear()` equal).
      Keys not of the form YYYY-MM-DD are treated as no date. */
  function YearWorkedDays(workDays: map<string, bool>, now: Instant): set<string>
    requires ValidInstant(now)
  {
    set d | d in workDays && workDays[d] && IsDate(d) && YearKey(d) == YearKey(now.day)
  }

  datatype YearlyFigures = YearlyFigures(workedDays: nat, gross: real, taxes: real)

  /** `fetchData`'s yearly gross and taxes. */
  function Yearly(workDays: map<string, bool>, rate: real, now: Instant): (y: YearlyFigures)
    requires ValidInstant(now)
    ensures y.workedDays == |YearWorkedDays(workDays, now)|
    ensures y.gross == Finance.Earnings(y.workedDays, rate)
    ensures y.taxes == Finance.Taxes(Finance.CalculateNetFromGross(y.gross))
    ensures y.taxes == 0.242346 * y.gross
  {
    var days := |YearWorkedDays(workDays, now)|;
    var gross := Finance.Earnings(days, rate);
    var t := Finance.CalculateNetFromGross(gross);
    YearlyFigures(days, gross, t.substituteTax + t.inpsContribution)
  }

  /** Entries of other years, and false entries, do not change the yearly figures. */
  lemma YearlyIgnoresOtherEntries(workDays: map<string, bool>, d: string, rate: real, now: Instant)
    requires ValidInstant(now)
    requires d in workDays && (!workDays[d] || !IsDate(d) || YearKey(d) != YearKey(now.day))
    ensures Yearly(workDays - {d}, rate, now) == Yearly(workDays, rate, now)
  {
    assert YearWorkedDays(workDays - {d}, now) == YearWorkedDays(workDays, now);
  }

  /** `isNetLowerThanExpenses`. */
  predicate Shortfall(yearlyGross: real, expectedOutflow: real)
  {
    yearlyGross < expectedOutflow
  }

  lemma ShortfallExamples()
    ensures Shortfall(1000.0, 1200.0)
    ensures !Shortfall(1000.0, 800.0)
  {
  }

  /** The warning shows exactly when the due expenses exceed the yearly net. */
  lemma ShortfallIffDueExceedsNet(workDays: map<string, bool>, rate: real, expenses: seq<Expense>, now: Instant)
    requires ValidInstant(now)
    ensures var y := Yearly(workDays, rate, now);
      Shortfall(y.gross, ExpectedExpenses(expenses, y.taxes, now)) <==>
      Finance.CalculateNetFromGross(y.gross).net < SumAmounts(DueExpenses(expenses, now))
  {
    var y := Yearly(workDays, rate, now);
    ExpectedIsTaxesPlusDue(expenses, y.taxes, now);
  }

  lemma {:induction false} NothingDue(expenses: seq<Expense>, now: Instant)
    requires forall e :: e in expenses ==> !IsDue(e.payDate, now)
    ensures DueExpenses(expenses, now) == []
  {
    if expenses != [] {
      assert expenses[0] in expenses;
      NothingDue(expenses[1..], now);
    }
  }

  /** With nothing due and a non-negative rate there is no shortfall. */
  lemma NoShortfallWithoutDueExpenses(workDays: map<string, bool>, rate: real, expenses: seq<Expense>, now: Instant)
    requires ValidInstant(now) && rate >= 0.0
    requires forall e :: e in expenses ==> !IsDue(e.payDate, now)
    ensures !Shortfall(Yearly(workDays, rate, now).gross, ExpectedExpenses(expenses, Yearly(workDays, rate, now).taxes, now))
  {
    var y := Yearly(workDays, rate, now);
    ExpectedIsTaxesPlusDue(expenses, y.taxes, now);
    NothingDue(expenses, now);
    Finance.EarningsNonNegative(y.workedDays, rate);
  }

  // ---- The expense list ----

  /** `newExpense`: the form's partial expense (absent fields are undefined). */
  datatype Draft = Draft(description: Option<string>, payDate: Option<string>, amount: Option<real>)

  /** `!newExpense.description || !newExpense.payDate || !newExpense.amount`
      is false: every field present, no empty text and no zero amount. */
  predicate Complete(d: Draft)
  {
    && d.description.Some? && d.description.value != ""
    && d.payDate.Some? && d.payDate.value != ""
    && d.amount.Some? && d.amount.value != 0.0
  }

  function FromDraft(d: Draft, id: string): (e: Expense)
    requires Complete(d)
    ensures e.id == id && Some(e.description) == d.description && Some(e.payDate) == d.payDate
    ensures Some(e.amount) == d.amount
  {
    Expense(id, d.description.value, d.payDate.value, d.amount.value)
  }

  /** `prev.filter((exp) => exp.id !== id)`. */
  function WithoutId(expenses: seq<Expense>, id: string): (r: seq<Expense>)
    ensures forall e :: e in r <==> e in expenses && e.id != id
    ensures |r| <= |expenses|
  {
    if expenses == [] then []
    else (if expenses[0].id == id then [] else [expenses[0]]) + WithoutId(expenses[1..], id)
  }

  /** The filter keeps the order of what it keeps: it distributes over concatenation. */
  lemma {:induction false} WithoutIdAppend(a: seq<Expense>, b: seq<Expense>, id: string)
    ensures WithoutId(a + b, id) == WithoutId(a, id) + WithoutId(b, id)
  {
    if a == [] {
      assert a + b == b;
    } else {
      assert (a + b)[0] == a[0] && (a + b)[1..] == a[1..] + b;
      WithoutIdAppend(a[1..], b, id);
      var head := if a[0].id == id then [] else [a[0]];
      calc {
        WithoutId(a + b, id);
        head + WithoutId(a[1..] + b, id);
        head + (WithoutId(a[1..], id) + WithoutId(b, id));
        (head + WithoutId(a[1..], id)) + WithoutId(b, id);
      }
    }
  }

  /** Deleting an id nobody has changes nothing. */
  lemma {:induction false} WithoutAbsentId(expenses: seq<Expense>, id: string)
    requires forall e :: e in expenses ==> e.id != id
    ensures WithoutId(expenses, id) == expenses
  {
    if expenses != [] {
      assert expenses == [expenses[0]] + expenses[1..];
      WithoutAbsentId(expenses[1..], id);
    }
  }

  /** Deleting the fresh id of an expense just added undoes the add. */
  lemma DeleteUndoesAdd(expenses: seq<Expense>, d: Draft, id: string)
    requires Complete(d)
    requires forall e :: e in expenses ==> e.id != id
    ensures WithoutId(expenses + [FromDraft(d, id)], id) == expenses
  {
    WithoutIdAppend(expenses, [FromDraft(d, id)], id);
    WithoutAbsentId(expenses, id);
  }

  /** The `expenses` state of the screen. */
  class ExpenseList {
    var expenses: seq<Expense>

    constructor ()
      ensures expenses == []
    {
      expenses := [];
    }

    /** `handleAddExpense`: rejects an incomplete draft, else appends the
        expense built from it under the new id (`Date.now()`'s text). */
    method AddExpense(draft: Draft, newId: string) returns (added: bool)
      modifies this
      ensures added <==> Complete(draft)
      ensures added ==> expenses == old(expenses) + [FromDraft(draft, newId)]
      ensures !added ==> expenses == old(expenses)
    {
      if !Complete(draft) {
        return false;
      }
      var expense := FromDraft(draft, newId);
      expenses := expenses + [expense];
      added := true;
    }

    /** `handleDeleteExpense` once confirmed: drops every entry with `id`. */
    method DeleteExpense(id: string)
      modifies this
      ensures expenses == WithoutId(old(expenses), id)
    {
      expenses := WithoutId(expenses, id);
    }
  }
}
