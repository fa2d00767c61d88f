/** The web client's pure logic in Frontend/src/App.jsx: the summary it
    folds over the fetched records, and the all-fields-filled check that
    guards adding an expense. Amounts are whole units, dates are millisecond
    timestamps, the clock is read once as `now`, and the local-time
    month-of-year is a parameter. */
module App {

  import opened ExpenseModel

  /** Seven days of milliseconds: the width of the rolling week. */
  const WeekMs: int := 7 * 24 * 60 * 60 * 1000

  /** What the dashboard shows: the week and month totals and the total per
      category. */
  datatype Summary = Summary(week: int, month: int, byCategory: map<string, int>)

  /** The reduce's initial accumulator. */
  const EmptySummary := Summary(0, 0, map[])

  /** Less than a week has passed between the record's date and `now`. There
      is no lower guard, so a future-dated record qualifies. */
  function ThisWeek(now: Timestamp): Expense -> bool {
    (e: Expense) => now - e.date < WeekMs
  }

  /** The record's month of year equals `now`'s; the year plays no part. */
  function ThisMonth(now: Timestamp, monthOf: Timestamp -> int): Expense -> bool {
    (e: Expense) => monthOf(now) == monthOf(e.date)
  }

  /** The record is in category `c`. */
  function InCategory(c: string): Expense -> bool {
    (e: Expense) => e.category == c
  }

  /** The reduce callback: add the record's amount to the week and month
      totals when it qualifies, and always to its category's total, starting
      that total at zero the first time the category is seen. */
  function Accumulate(acc: Summary, curr: Expense, now: Timestamp, monthOf: Timestamp -> int): (r: Summary)
    ensures r.byCategory.Keys == acc.byCategory.Keys + {curr.category}
    ensures forall c :: c in acc.byCategory && c != curr.category ==> r.byCategory[c] == acc.byCategory[c]
    ensures r.byCategory[curr.category] ==
      (if curr.category in acc.byCategory then acc.byCategory[curr.category] else 0) + curr.amount
    ensures r.week - acc.week == (if now - curr.date < 604800000 then curr.amount else 0)
    ensures r.month - acc.month == (if monthOf(curr.date) == monthOf(now) then curr.amount else 0)
  {
    var previous := if curr.category in acc.byCategory then acc.byCategory[curr.category] else 0;
    Summary(
      if ThisWeek(now)(curr) then acc.week + curr.amount else acc.week,
      if ThisMonth(now, monthOf)(curr) then acc.month + curr.amount else acc.month,
      acc.byCategory[curr.category := previous + curr.amount])
  }

  /** The summary: a left fold of `Accumulate` over the records, in order. */
  function Summarize(expenses: seq<Expense>, now: Timestamp, monthOf: Timestamp -> int): (r: Summary)
    decreases |expenses|
  {
    if |expenses| == 0 then EmptySummary
    else
      var last := |expenses| - 1;
      Accumulate(Summarize(expenses[..last], now, monthOf), expenses[last], now, monthOf)
  }

  // ------------------------------------------------ reference definitions

  /** The sum of the amounts of the records that satisfy `p`. */
  function AmountWhere(rs: seq<Expense>, p: Expense -> bool): int {
    if |rs| == 0 then 0
    else (if p(rs[0]) then rs[0].amount else 0) + AmountWhere(rs[1..], p)
  }

  /** The sum of all amounts. */
  function TotalAmount(rs: seq<Expense>): int {
    if |rs| == 0 then 0 else rs[0].amount + TotalAmount(rs[1..])
  }

  /** The categories that occur among the records. */
  function Categories(rs: seq<Expense>): set<string> {
    set e | e in rs :: e.category
  }

  /** The sum of a map's values. */
  ghost function SumValues(m: map<string, int>): int
    decreases |m.Keys|
  {
    if m.Keys == {} then 0
    else
      var k :| k in m.Keys;
      m[k] + SumValues(m - {k})
  }

  // ------------------------------------------------ properties

  /** Appending a record adds its amount to a conditional sum exactly when
      the condition holds of it. */
  lemma {:induction false} AmountWhereAppend(rs: seq<Expense>, x: Expense, p: Expense -> bool)
    ensures AmountWhere(rs + [x], p) == AmountWhere(rs, p) + (if p(x) then x.amount else 0)
  {
    if |rs| > 0 {
      assert (rs + [x])[1..] == rs[1..] + [x];
      AmountWhereAppend(rs[1..], x, p);
    }
  }

  /** Appending a record adds its amount to the total. */
  lemma {:induction false} TotalAmountAppend(rs: seq<Expense>, x: Expense)
    ensures TotalAmount(rs + [x]) == TotalAmount(rs) + x.amount
  {
    if |rs| > 0 {
      assert (rs + [x])[1..] == rs[1..] + [x];
      TotalAmountAppend(rs[1..], x);
    }
  }

  /** Summarizing no records gives zero totals and no categories. */
  lemma SummaryOfNothing(now: Timestamp, monthOf: Timestamp -> int)
    ensures Summarize([], now, monthOf) == Summary(0, 0, map[])
  {
  }

  /** The week total is the sum over exactly the records dated less than
      604800000 ms before `now`, future-dated ones included. */
  lemma {:induction false} WeekTotal(expenses: seq<Expense>, now: Timestamp, monthOf: Timestamp -> int)
    ensures Summarize(expenses, now, monthOf).week == AmountWhere(expenses, ThisWeek(now))
    ensures forall e :: ThisWeek(now)(e) <==> now - e.date < 604800000
    decreases |expenses|
  {
    if |expenses| > 0 {
      var last := |expenses| - 1;
      WeekTotal(expenses[..last], now, monthOf);
      AmountWhereAppend(expenses[..last], expenses[last], ThisWeek(now));
      assert expenses[..last] + [expenses[last]] == expenses;
    }
  }

  /** The month total is the sum over exactly the records whose month of
      year is `now`'s, whatever their year. */
  lemma {:induction false} MonthTotal(expenses: seq<Expense>, now: Timestamp, monthOf: Timestamp -> int)
    ensures Summarize(expenses, now, monthOf).month == AmountWhere(expenses, ThisMonth(now, monthOf))
    decreases |expenses|
  {
    if |expenses| > 0 {
      var last := |expenses| - 1;
      MonthTotal(expenses[..last], now, monthOf);
      AmountWhereAppend(expenses[..last], expenses[last], ThisMonth(now, monthOf));
      assert expenses[..last] + [expenses[last]] == expenses;
    }
  }

  /** One record on its own: it counts towards the month total exactly when
      its month of year is `now`'s. Nothing else about its date is looked
      at, so a record from the same month of any other year counts too. */
  lemma MonthTotalIgnoresYear(e: Expense, now: Timestamp, monthOf: Timestamp -> int)
    ensures Summarize([e], now, monthOf).month == if monthOf(e.date) == monthOf(now) then e.amount else 0
  {
  }

  /** A worked example: Food 100 from two months back, Food 50 from earlier
      this month, Transport 30 dated `now`. Only Transport falls in the week;
      both this month's records count towards the month. */
  lemma SummaryExample(now: Timestamp, monthOf: Timestamp -> int)
    requires monthOf(now - 75 * 86400000) != monthOf(now)
    requires monthOf(now - 14 * 86400000) == monthOf(now)
    ensures var rs := [
        Expense(0, "u", "groceries", 100, "Food", now - 75 * 86400000),
        Expense(1, "u", "dinner", 50, "Food", now - 14 * 86400000),
        Expense(2, "u", "bus", 30, "Transport", now)];
      Summarize(rs, now, monthOf) == Summary(30, 80, map["Food" := 150, "Transport" := 30])
  {
    var rs := [
      Expense(0, "u", "groceries", 100, "Food", now - 75 * 86400000),
      Expense(1, "u", "dinner", 50, "Food", now - 14 * 86400000),
      Expense(2, "u", "bus", 30, "Transport", now)];
    assert rs[..2][..1] == rs[..1] && rs[..1][..0] == [];
    assert Summarize(rs[..1], now, monthOf) == Summary(0, 0, map["Food" := 100]);
    assert Summarize(rs[..2], now, monthOf) == Summary(0, 50, map["Food" := 150]);
  }

  /** The category map has a key for exactly the categories that occur, and
      each key holds the sum of the amounts of that category's records. */
  lemma {:induction false} CategoryTotals(expenses: seq<Expense>, now: Timestamp, monthOf: Timestamp -> int)
    ensures Summarize(expenses, now, monthOf).byCategory.Keys == Categories(expenses)
    ensures forall c :: c in Summarize(expenses, now, monthOf).byCategory ==>
      Summarize(expenses, now, monthOf).byCategory[c] == AmountWhere(expenses, InCategory(c))
    decreases |expenses|
  {
    if |expenses| > 0 {
      var last := |expenses| - 1;
      var init := expenses[..last];
      var x := expenses[last];
      CategoryTotals(init, now, monthOf);
      assert init + [x] == expenses;
      LastRecordStep(init, x, now, monthOf);
      assert Categories(expenses) == Categories(init) + {x.category};
      var m := Summarize(expenses, now, monthOf).byCategory;
      forall c | c in m
        ensures m[c] == AmountWhere(expenses, InCategory(c))
      {
        CategoryTotalStep(init, x, c, now, monthOf);
      }
    }
  }

  /** The induction step of `CategoryTotals` for one category `c`. */
  lemma CategoryTotalStep(init: seq<Expense>, x: Expense, c: string, now: Timestamp, monthOf: Timestamp -> int)
    requires Summarize(init, now, monthOf).byCategory.Keys == Categories(init)
    requires c in Summarize(init, now, monthOf).byCategory ==>
      Summarize(init, now, monthOf).byCategory[c] == AmountWhere(init, InCategory(c))
    requires c in Summarize(init + [x], now, monthOf).byCategory
    ensures Summarize(init + [x], now, monthOf).byCategory[c] == AmountWhere(init + [x], InCategory(c))
  {
    LastRecordStep(init, x, now, monthOf);
    AmountWhereAppend(init, x, InCategory(c));
    if c != x.category {
      assert c in Summarize(init, now, monthOf).byCategory;
    } else if c !in Categories(init) {
      AmountWhereNone(init, InCategory(c));
    }
  }

  /** No record satisfies `p`: the conditional sum is zero. */
  lemma {:induction false} AmountWhereNone(rs: seq<Expense>, p: Expense -> bool)
    requires forall e :: e in rs ==> !p(e)
    ensures AmountWhere(rs, p) == 0
  {
    if |rs| > 0 {
      assert forall e :: e in rs[1..] ==> e in rs;
      AmountWhereNone(rs[1..], p);
    }
  }

  /** With non-negative amounts, a conditional sum lies between zero and the
      total. */
  lemma {:induction false} AmountWhereBounded(rs: seq<Expense>, p: Expense -> bool)
    requires forall e :: e in rs ==> e.amount >= 0
    ensures 0 <= AmountWhere(rs, p) <= TotalAmount(rs)
  {
    if |rs| > 0 {
      assert forall e :: e in rs[1..] ==> e in rs;
      AmountWhereBounded(rs[1..], p);
    }
  }

  /** With non-negative amounts, the week and month totals never exceed the
      sum of all amounts, nor fall below zero. */
  lemma WeekAndMonthBounded(expenses: seq<Expense>, now: Timestamp, monthOf: Timestamp -> int)
    requires forall e :: e in expenses ==> e.amount >= 0
    ensures 0 <= Summarize(expenses, now, monthOf).week <= TotalAmount(expenses)
    ensures 0 <= Summarize(expenses, now, monthOf).month <= TotalAmount(expenses)
  {
    WeekTotal(expenses, now, monthOf);
    MonthTotal(expenses, now, monthOf);
    AmountWhereBounded(expenses, ThisWeek(now));
    AmountWhereBounded(expenses, ThisMonth(now, monthOf));
  }

  /** A record that satisfies `p` and positive amounts make the conditional
      sum positive. */
  lemma {:induction false} AmountWherePositive(rs: seq<Expense>, p: Expense -> bool, x: Expense)
    requires forall e :: e in rs ==> e.amount > 0
    requires x in rs && p(x)
    ensures AmountWhere(rs, p) > 0
  {
    assert forall e :: e in rs[1..] ==> e in rs;
    AmountWhereBounded(rs[1..], p);
    if rs[0] != x {
      assert x in rs[1..];
      AmountWherePositive(rs[1..], p, x);
    }
  }

  /** With positive amounts no category total is zero. (An amount of zero
      does get through the client's check, since the text "0" is not empty,
      and then its category is listed with a zero total.) */
  lemma {:induction false} PositiveAmountsGivePositiveTotals(expenses: seq<Expense>, now: Timestamp, monthOf: Timestamp -> int)
    requires forall e :: e in expenses ==> e.amount > 0
    ensures forall c :: c in Summarize(expenses, now, monthOf).byCategory ==>
      Summarize(expenses, now, monthOf).byCategory[c] > 0
  {
    CategoryTotals(expenses, now, monthOf);
    var m := Summarize(expenses, now, monthOf).byCategory;
    forall c | c in m ensures m[c] > 0 {
      assert c in Categories(expenses);
      var x :| x in expenses && x.category == c;
      AmountWherePositive(expenses, InCategory(c), x);
    }
  }

  /** Removing any key splits the sum of a map's values the same way. */
  lemma SumValuesRemove(m: map<string, int>, k: string)
    requires k in m
    ensures SumValues(m) == m[k] + SumValues(m - {k})
    decreases |m.Keys|
  {
    var j :| j in m.Keys && SumValues(m) == m[j] + SumValues(m - {j});
    if j != k {
      assert (m - {j}).Keys == m.Keys - {j};
      assert (m - {k}).Keys == m.Keys - {k};
      SumValuesRemove(m - {j}, k);
      SumValuesRemove(m - {k}, j);
      assert m - {j} - {k} == m - {k} - {j};
    }
  }

  /** Setting one key changes the sum of the values by the difference. */
  lemma SumValuesUpdate(m: map<string, int>, k: string, v: int)
    ensures SumValues(m[k := v]) == SumValues(m) - (if k in m then m[k] else 0) + v
  {
    var m' := m[k := v];
    SumValuesRemove(m', k);
    if k in m {
      SumValuesRemove(m, k);
      assert m' - {k} == m - {k};
    } else {
      assert m' - {k} == m;
    }
  }

  /** One step of the fold: the last record adds its amount to its own
      category's total, starting from zero, and touches no other category. */
  lemma LastRecordStep(init: seq<Expense>, x: Expense, now: Timestamp, monthOf: Timestamp -> int)
    ensures var m := Summarize(init, now, monthOf).byCategory;
      Summarize(init + [x], now, monthOf).byCategory
        == m[x.category := (if x.category in m then m[x.category] else 0) + x.amount]
  {
  }

  /** The category totals add up to the total of all amounts. */
  lemma {:induction false} CategoryTotalsSumToTotal(expenses: seq<Expense>, now: Timestamp, monthOf: Timestamp -> int)
    ensures SumValues(Summarize(expenses, now, monthOf).byCategory) == TotalAmount(expenses)
    decreases |expenses|
  {
    if |expenses| > 0 {
      var last := |expenses| - 1;
      var init := expenses[..last];
      var x := expenses[last];
      CategoryTotalsSumToTotal(init, now, monthOf);
      var m := Summarize(init, now, monthOf).byCategory;
      var previous := if x.category in m then m[x.category] else 0;
      assert init + [x] == expenses;
      LastRecordStep(init, x, now, monthOf);
      SumValuesUpdate(m, x.category, previous + x.amount);
      TotalAmountAppend(init, x);
    }
  }

  // ------------------------------------------------ adding an expense

  /** The add-expense form as the user typed it: every field is text. */
  datatype ExpenseForm = ExpenseForm(title: string, amount: string, category: string, date: string)

  /** What pressing "add" does: alert and send nothing, or post the form. */
  datatype Submission = Alerted | Posted(form: ExpenseForm)

  /** Posts the form only when all four fields are non-empty; otherwise no
      request is made. */
  function AddExpense(form: ExpenseForm): (r: Submission)
    ensures r.Alerted? <==>
      form.title == "" || form.amount == "" || form.category == "" || form.date == ""
    ensures r.Posted? ==> r.form == form
  {
    if form.title == "" || form.amount == "" || form.category == "" || form.date == "" then Alerted
    else Posted(form)
  }

  /** The check is on text, not on value: an amount of "0" is sent. */
  lemma ZeroAmountIsSent(title: string, category: string, date: string)
    requires title != "" && category != "" && date != ""
    ensures AddExpense(ExpenseForm(title, "0", category, date)).Posted?
  {
  }
}
