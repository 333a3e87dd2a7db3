/** The summary report: validate the query, step one unit back from the end
    date, select the income and expense documents dated on or after that
    start, and total them with per-item rounding. "Today" and the two
    collections are parameters; the handler only reads them. */
module Summary {
  import opened Replies
  import opened Calendar
  import opened Store
  import opened Models

  const FilterMessage: string := "Only day/week/month/year filters are allowed"
  const NoRecordsMessage: string := "No records of income and expense"
  const FetchedMessage: string := "Summary fetched successfully"

  /** The success payload: `{ totalExpense, totalIncome, net, incomes, expenses }`. */
  datatype Report = Report(totalExpense: int, totalIncome: int, net: int, incomes: seq<Entry>, expenses: seq<Entry>)

  /** The spelling of each window unit in the `filter` query parameter. */
  function UnitName(u: Unit): string
  {
    match u
    case Day => "day"
    case Week => "week"
    case Month => "month"
    case Year => "year"
  }

  /** The filter whitelist: an absent filter (`null`) and every string other
      than the four unit names are refused; comparison is exact. */
  function ParseFilter(filter: Option<string>): (u: Option<Unit>)
    ensures u.Some? ==> filter == Some(UnitName(u.value))
    ensures forall v: Unit :: filter == Some(UnitName(v)) ==> u == Some(v)
  {
    match filter
    case None => None
    case Some(f) =>
      if f == "day" then Some(Day)
      else if f == "week" then Some(Week)
      else if f == "month" then Some(Month)
      else if f == "year" then Some(Year)
      else None
  }

  /** `Math.round`: the nearest integer, halves rounded up. */
  function Round(x: real): (n: int)
    ensures n as real - 0.5 <= x < n as real + 0.5
  {
    (x + 0.5).Floor
  }

  /** `entries.reduce(getSum, 0)`: a left fold adding each rounded amount. */
  function Total(entries: seq<Entry>): (n: int)
    ensures (forall i :: 0 <= i < |entries| ==> entries[i].amount >= 0.0) ==> n >= 0
    ensures |entries| == 0 ==> n == 0
  {
    if |entries| == 0 then 0
    else Total(entries[..|entries| - 1]) + Round(entries[|entries| - 1].amount)
  }

  /** The exact sum of the amounts, the reference the rounded total is
      compared with. */
  function Sum(entries: seq<Entry>): real
  {
    if |entries| == 0 then 0.0
    else Sum(entries[..|entries| - 1]) + entries[|entries| - 1].amount
  }

  /** Rounding each item moves the total at most half a unit per item away
      from the exact sum. */
  lemma {:induction false} TotalNearSum(entries: seq<Entry>)
    ensures Sum(entries) - (|entries| as real) / 2.0 <= Total(entries) as real
    ensures Total(entries) as real <= Sum(entries) + (|entries| as real) / 2.0
  {
    if |entries| > 0 {
      TotalNearSum(entries[..|entries| - 1]);
      var x := entries[|entries| - 1].amount;
      assert Round(x) as real - 0.5 <= x < Round(x) as real + 0.5;
    }
  }

  /** Rounding is per item: two amounts of 0.4 total 0, although their sum
      0.8 rounds to 1; amounts 10.4 and 10.6 total 10 + 11. */
  lemma PerItemRounding()
    ensures Total([Entry("abc", None, 0.4, 0), Entry("abc", None, 0.4, 0)]) == 0
    ensures Round(0.8) == 1
    ensures Total([Entry("abc", None, 10.4, 0), Entry("abc", None, 10.6, 0)]) == 21
  {
    var a := [Entry("abc", None, 0.4, 0), Entry("abc", None, 0.4, 0)];
    assert a[..1] == [a[0]] && [a[0]][..0] == [];
    var b := [Entry("abc", None, 10.4, 0), Entry("abc", None, 10.6, 0)];
    assert b[..1] == [b[0]] && [b[0]][..0] == [];
  }

  /** `{ date: { $gte: start } }`: a document with a null date never matches. */
  predicate InWindow(start: CalDate, e: Entry)
  {
    e.date.Some? && AtOrAfter(e.date.value, start)
  }

  /** The query `{ date: { $gte: start } }`. */
  function Dated(start: CalDate): Entry -> bool
  {
    (e: Entry) => InWindow(start, e)
  }

  /** The documents the summary's `find` returns: every live document dated
      on or after `start`, one per stored row, in insertion order, and
      nothing else; there is no upper bound. */
  function Select(t: Table<Entry>, start: CalDate): (r: seq<Entry>)
    ensures Enumerates(t, Dated(start), r)
    ensures forall j :: 0 <= j < |t| && IsLive(t, j) && InWindow(start, t[j].doc) ==> t[j].doc in r
    ensures forall i :: 0 <= i < |r| ==> InWindow(start, r[i]) && exists j :: 0 <= j < |t| && IsLive(t, j) && t[j].doc == r[i]
  {
    LiveWhere(t, Dated(start))
  }

  /** Identical documents in two rows are both selected, in row order. */
  lemma DuplicateRowsBothSelected(e: Entry, start: CalDate)
    requires InWindow(start, e)
    ensures Select([Row(e, false), Row(e, false)], start) == [e, e]
  {
    var t := [Row(e, false), Row(e, false)];
    assert Dated(start)(t[0].doc) && Dated(start)(t[1].doc);
    assert Increasing([0, 1]);
    LiveWhereUnique(t, Dated(start), [0, 1], [e, e]);
  }

  /** ... and both counted: the total of two equal in-window amounts is
      twice the rounded amount. */
  lemma DuplicateRowsCountTwice(e: Entry, start: CalDate)
    requires InWindow(start, e)
    ensures Total(Select([Row(e, false), Row(e, false)], start)) == 2 * Round(e.amount)
  {
    DuplicateRowsBothSelected(e, start);
    TotalOfTwo(e, e);
  }

  /** The fold over two documents. */
  lemma TotalOfTwo(a: Entry, b: Entry)
    ensures Total([a, b]) == Round(a.amount) + Round(b.amount)
  {
    assert [a, b][..1] == [a] && [a][..0] == [];
    assert Total([a]) == Total([]) + Round(a.amount);
    assert Total([a, b]) == Total([a]) + Round(b.amount);
  }

  /** The query passes both validations. */
  predicate QueryValid(end: Option<string>, filter: Option<string>)
  {
    (end.None? || StrictDate(end.value)) && ParseFilter(filter).Some?
  }

  /** `current`: the `end` parameter, or today when it is absent. */
  function WindowEnd(end: Option<string>, today: CalDate): CalDate
    requires end.None? || StrictDate(end.value)
  {
    if end.Some? then ParseDate(end.value).value else today
  }

  /** The start of the window, one unit before `current`. */
  function WindowStart(end: Option<string>, filter: Option<string>, today: CalDate): (start: CalDate)
    requires QueryValid(end, filter) && Valid(today)
    ensures Valid(start) && Before(start, WindowEnd(end, today))
  {
    SubtractUnit(WindowEnd(end, today), ParseFilter(filter).value)
  }

  /** `getSummaryByFilter`. The empty `end` string is excluded: it passes the
      truthiness guard but is then parsed by moment's lenient path. */
  function GetSummaryByFilter(end: Option<string>, filter: Option<string>, today: CalDate,
                              incomes: Table<Entry>, expenses: Table<Entry>): (r: Response<Report>)
    requires end != Some("")
    requires Valid(today)
    ensures r.code == 200
    ensures end.Some? && !StrictDate(end.value) ==> r == Refuse(DateFormatMessage)
    ensures (end.None? || StrictDate(end.value)) && ParseFilter(filter).None? ==> r == Refuse(FilterMessage)
    ensures r.status ==> QueryValid(end, filter)
    ensures QueryValid(end, filter) ==>
              var start := WindowStart(end, filter, today);
              && (r.status <==> AnyLive(incomes, Dated(start))
                                || AnyLive(expenses, Dated(start)))
              && (!r.status ==> r == Refuse(NoRecordsMessage))
              && (r.status ==> && r.message == FetchedMessage && r.payload.Some?
                               && r.payload.value.incomes == Select(incomes, start)
                               && r.payload.value.expenses == Select(expenses, start))
    ensures r.status ==> && r.payload.Some?
                         && r.payload.value.totalIncome == Total(r.payload.value.incomes)
                         && r.payload.value.totalExpense == Total(r.payload.value.expenses)
                         && r.payload.value.net == r.payload.value.totalIncome - r.payload.value.totalExpense
  {
    if end.Some? && !StrictDate(end.value) then Refuse(DateFormatMessage)
    else if ParseFilter(filter).None? then Refuse(FilterMessage)
    else
      var start := WindowStart(end, filter, today);
      var selectedIncomes := Select(incomes, start);
      var selectedExpenses := Select(expenses, start);
      LiveWhereEmpty(incomes, Dated(start));
      LiveWhereEmpty(expenses, Dated(start));
      if |selectedIncomes| == 0 && |selectedExpenses| == 0 then Refuse(NoRecordsMessage)
      else
        var totalExpense := Total(selectedExpenses);
        var totalIncome := Total(selectedIncomes);
        Ok(FetchedMessage, Some(Report(totalExpense, totalIncome, totalIncome - totalExpense,
                                       selectedIncomes, selectedExpenses)))
  }

  /** No upper bound: a live income dated on or after `current` (even after
      it) is part of the report. */
  lemma FutureIncomeCounted(end: Option<string>, filter: Option<string>, today: CalDate,
                            incomes: Table<Entry>, expenses: Table<Entry>, j: nat)
    requires end != Some("") && Valid(today) && QueryValid(end, filter)
    requires IsLive(incomes, j) && incomes[j].doc.date.Some?
    requires AtOrAfter(incomes[j].doc.date.value, WindowEnd(end, today))
    ensures var r := GetSummaryByFilter(end, filter, today, incomes, expenses);
            r.status && incomes[j].doc in r.payload.value.incomes
  {
    var start := WindowStart(end, filter, today);
    assert InWindow(start, incomes[j].doc);
    assert AnyLive(incomes, Dated(start));
  }

  /** Passing today's date explicitly gives the same outcome as leaving
      `end` out. */
  lemma ExplicitTodayIsDefault(filter: Option<string>, today: CalDate,
                               incomes: Table<Entry>, expenses: Table<Entry>)
    requires Valid(today) && 0 <= today.year <= 9999
    ensures GetSummaryByFilter(Some(FormatDate(today)), filter, today, incomes, expenses)
         == GetSummaryByFilter(None, filter, today, incomes, expenses)
  {
    var end := FormatDate(today);
    FormatThenParse(today);
    assert StrictDate(end) && end != "";
    assert WindowEnd(Some(end), today) == today == WindowEnd(None, today);
    var r1 := GetSummaryByFilter(Some(end), filter, today, incomes, expenses);
    var r2 := GetSummaryByFilter(None, filter, today, incomes, expenses);
    if ParseFilter(filter).Some? {
      assert WindowStart(Some(end), filter, today) == WindowStart(None, filter, today);
      assert r1.status == r2.status;
      if r1.status {
        assert r1.payload.value == r2.payload.value;
      }
    }
  }

  /** The date check comes first: a malformed `end` is reported even when
      the filter is also wrong. */
  lemma DateCheckedBeforeFilter(end: string, filter: Option<string>, today: CalDate,
                                incomes: Table<Entry>, expenses: Table<Entry>)
    requires end != "" && !StrictDate(end) && Valid(today)
    ensures GetSummaryByFilter(Some(end), filter, today, incomes, expenses).message == DateFormatMessage
  {
  }
}
