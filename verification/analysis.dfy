/**
 * The analysis screen: the current user's records, normalised, grouped by
 * month and by week of the month with income and expense summed per group,
 * the bar-chart scale of the selected month, and the list of that month's
 * records.
 */
module Analysis {
  import opened Wrappers
  import opened Seqs
  import opened Text
  import opened Money
  import opened Records

  /** The Feather icon names a record may carry; any other falls back to "dollar-sign". */
  const ValidFeatherIcons: set<string> :=
    {"dollar-sign", "shopping-cart", "home", "calendar", "credit-card",
     "briefcase", "book", "coffee", "gift", "tag"}

  const IncomeColor := "#00D09E"
  const ExpenseColor := "#FF6B6B"

  /** `Math.ceil(day / 7)`: the week of the month, 1 to 5. */
  function WeekOfMonth(day: DayOfMonth): (w: nat)
    ensures 1 <= w <= 5
    ensures (w - 1) * 7 < day <= w * 7
  {
    (day + 6) / 7
  }

  /** "Semana " followed by the week of the month. */
  function WeekLabel(day: DayOfMonth): (r: string)
    ensures |r| == 8 && r[..7] == "Semana "
    ensures '1' <= r[7] <= '5' && DigitValue(r[7]) == WeekOfMonth(day)
  {
    var w := WeekOfMonth(day);
    assert NatToDecimal(w) == [Digit(w)];
    "Semana " + NatToDecimal(w)
  }

  /** Days 1 to 7 are week 1, days 8 to 14 week 2, and days 29 to 31 week 5 whatever the month's length. */
  lemma WeekLabelBoundaries(day: DayOfMonth)
    ensures day <= 7 ==> WeekLabel(day) == "Semana 1"
    ensures 8 <= day <= 14 ==> WeekLabel(day) == "Semana 2"
    ensures 29 <= day ==> WeekLabel(day) == "Semana 5"
  {
    var r := WeekLabel(day);
    assert r == r[..7] + [r[7]];
  }

  /** One record as the screen keeps it: the stored fields it uses and the derived display fields. */
  datatype AnalysisItem = AnalysisItem(
    valor: nat,
    setor: string,
    mes: string,
    semana: string,
    labelText: string,  // the `label` field
    category: string,
    value: string,
    icon: string,
    iconColor: string,
    time: string)

  /** The amount as listed: "R$" directly followed by the amount with two decimals and a decimal point. */
  function AnalysisValue(valor: nat): (r: string)
    ensures |r| >= 2 && r[..2] == "R$" && AmountText(r[2..], '.')
    ensures ParseCents(r) == Some(valor)
  {
    var amount := Fixed2(valor);
    Fixed2RoundTrip("R$", valor);
    PrefixedAmount("R$", amount, '.');
    "R$" + amount
  }

  /** The normalisation of one record: defaults, the icon whitelist, the week label and the amount text. */
  function ToAnalysisItem(d: FinanceDoc): (r: AnalysisItem)
    ensures r.labelText != "" && (d.nome != "" ==> r.labelText == d.nome)
    ensures d.nome == "" ==> r.labelText == "Sem título"
    ensures r.category != "" && (d.categoria != "" ==> r.category == d.categoria)
    ensures d.categoria == "" ==> r.category == "Outros"
    ensures r.icon in ValidFeatherIcons
    ensures r.icon == d.icon || (d.icon !in ValidFeatherIcons && r.icon == "dollar-sign")
    ensures r.iconColor == IncomeColor <==> d.setor == "entrada"
    ensures r.iconColor == ExpenseColor <==> d.setor != "entrada"
    ensures r.value == AnalysisValue(d.valor) && ParseCents(r.value) == Some(d.valor)
    ensures r.mes == d.data.monthName && r.semana == WeekLabel(d.data.day)
    ensures r.valor == d.valor && r.setor == d.setor && r.time == d.data.clockText
  {
    var value := AnalysisValue(d.valor);
    AnalysisItem(
      valor := d.valor,
      setor := d.setor,
      mes := d.data.monthName,
      semana := WeekLabel(d.data.day),
      labelText := if d.nome != "" then d.nome else "Sem título",
      category := if d.categoria != "" then d.categoria else "Outros",
      value := value,
      icon := if d.icon in ValidFeatherIcons then d.icon else "dollar-sign",
      iconColor := if d.setor == "entrada" then IncomeColor else ExpenseColor,
      time := d.data.clockText)
  }

  // ----- Grouping by month and week -----

  /** The totals of one week of a month. */
  datatype WeekData = WeekData(week: string, income: nat, expense: nat)

  /** The weeks of one month, in the order in which they were first seen. */
  datatype MonthData = MonthData(month: string, weeks: seq<WeekData>)

  /** The grouping key of a month: its name with the first letter in upper case. */
  function MonthKey(mes: string): (r: string)
    ensures |r| == |mes| && (mes != [] ==> r[0] == UpperChar(mes[0]) && r[1..] == mes[1..])
    ensures Lower(r) == Lower(mes)
  {
    LowerCapitalize(mes);
    Capitalize(mes)
  }

  function ItemMonth(t: AnalysisItem): string
  {
    MonthKey(t.mes)
  }

  /** `income += valor` for "entrada", `expense += valor` for "saida", nothing for any other sector. */
  function Bump(w: WeekData, setor: string, valor: nat): (r: WeekData)
    ensures r.week == w.week
    ensures r.income == w.income + (if setor == "entrada" then valor else 0)
    ensures r.expense == w.expense + (if setor == "saida" then valor else 0)
  {
    WeekData(w.week,
             w.income + (if setor == "entrada" then valor else 0),
             w.expense + (if setor == "saida" then valor else 0))
  }

  /** Adding two records to a week gives the same totals in either order. */
  lemma BumpCommutes(w: WeekData, setor1: string, valor1: nat, setor2: string, valor2: nat)
    ensures Bump(Bump(w, setor1, valor1), setor2, valor2) == Bump(Bump(w, setor2, valor2), setor1, valor1)
  {
  }

  /** Add one record to the week `week`, creating it at the end when it is not there yet. */
  function AddToWeeks(ws: seq<WeekData>, week: string, setor: string, valor: nat): seq<WeekData>
  {
    if ws == [] then [Bump(WeekData(week, 0, 0), setor, valor)]
    else if ws[0].week == week then [Bump(ws[0], setor, valor)] + ws[1..]
    else [ws[0]] + AddToWeeks(ws[1..], week, setor, valor)
  }

  /** Add one record to the month `month`, creating it at the end when it is not there yet. */
  function AddToMonths(ms: seq<MonthData>, month: string, week: string, setor: string, valor: nat): seq<MonthData>
  {
    if ms == [] then [MonthData(month, AddToWeeks([], week, setor, valor))]
    else if ms[0].month == month then [MonthData(month, AddToWeeks(ms[0].weeks, week, setor, valor))] + ms[1..]
    else [ms[0]] + AddToMonths(ms[1..], month, week, setor, valor)
  }

  /** The grouping of the records, one record at a time, in order. */
  function Grouped(ts: seq<AnalysisItem>): seq<MonthData>
  {
    if ts == [] then []
    else
      var t := ts[|ts| - 1];
      AddToMonths(Grouped(ts[..|ts| - 1]), ItemMonth(t), t.semana, t.setor, t.valor)
  }

  /**
   * The grouping loop: the records are added one by one to the nested
   * month and week dictionaries.
   */
  method GroupByMonthAndWeek(ts: seq<AnalysisItem>) returns (grouped: seq<MonthData>)
    ensures grouped == Grouped(ts)
  {
    grouped := [];
    for i := 0 to |ts|
      invariant grouped == Grouped(ts[..i])
    {
      var t := ts[i];
      assert ts[..i + 1][..i] == ts[..i];
      grouped := AddToMonths(grouped, MonthKey(t.mes), t.semana, t.setor, t.valor);
    }
    assert ts[..|ts|] == ts;
  }

  /** The month keys, in order. */
  function Months(ms: seq<MonthData>): seq<string>
  {
    if ms == [] then [] else [ms[0].month] + Months(ms[1..])
  }

  /** The week labels, in order. */
  function WeekKeys(ws: seq<WeekData>): seq<string>
  {
    if ws == [] then [] else [ws[0].week] + WeekKeys(ws[1..])
  }

  /** `monthData[month] || []`. */
  function WeeksOf(ms: seq<MonthData>, month: string): seq<WeekData>
  {
    if ms == [] then []
    else if ms[0].month == month then ms[0].weeks
    else WeeksOf(ms[1..], month)
  }

  /** The totals of week `week` in a list of weeks, if it is there. */
  function LookupWeek(ws: seq<WeekData>, week: string): (r: Option<WeekData>)
    ensures r.Some? ==> r.value.week == week
  {
    if ws == [] then None
    else if ws[0].week == week then Some(ws[0])
    else LookupWeek(ws[1..], week)
  }

  /** The totals of week `week` of month `month`, if there are any. */
  function Lookup(ms: seq<MonthData>, month: string, week: string): Option<WeekData>
  {
    LookupWeek(WeeksOf(ms, month), week)
  }

  // ----- Specification of the grouping -----

  predicate InBucket(t: AnalysisItem, month: string, week: string)
  {
    ItemMonth(t) == month && t.semana == week
  }

  /** Some record falls in the bucket. */
  predicate Seen(ts: seq<AnalysisItem>, month: string, week: string)
  {
    exists k :: 0 <= k < |ts| && InBucket(ts[k], month, week)
  }

  /** The sum of the amounts of the "entrada" records of the bucket. */
  function Income(ts: seq<AnalysisItem>, month: string, week: string): nat
  {
    if ts == [] then 0
    else
      var t := ts[|ts| - 1];
      Income(ts[..|ts| - 1], month, week)
      + (if InBucket(t, month, week) && t.setor == "entrada" then t.valor else 0)
  }

  /** The sum of the amounts of the "saida" records of the bucket. */
  function Expense(ts: seq<AnalysisItem>, month: string, week: string): nat
  {
    if ts == [] then 0
    else
      var t := ts[|ts| - 1];
      Expense(ts[..|ts| - 1], month, week)
      + (if InBucket(t, month, week) && t.setor == "saida" then t.valor else 0)
  }

  /** The week labels of the records of one month, in record order (with repeats). */
  function WeeksIn(ts: seq<AnalysisItem>, month: string): seq<string>
  {
    if ts == [] then []
    else
      var t := ts[|ts| - 1];
      WeeksIn(ts[..|ts| - 1], month) + (if ItemMonth(t) == month then [t.semana] else [])
  }

  lemma {:induction false} LookupWeekAdd(ws: seq<WeekData>, week: string, setor: string, valor: nat, other: string)
    ensures LookupWeek(AddToWeeks(ws, week, setor, valor), other)
            == if other == week then Some(Bump(LookupWeek(ws, week).GetOr(WeekData(week, 0, 0)), setor, valor))
               else LookupWeek(ws, other)
  {
    if ws != [] && ws[0].week != week {
      LookupWeekAdd(ws[1..], week, setor, valor, other);
    }
  }

  lemma {:induction false} WeeksOfAdd(ms: seq<MonthData>, month: string, week: string, setor: string, valor: nat, other: string)
    ensures WeeksOf(AddToMonths(ms, month, week, setor, valor), other)
            == if other == month then AddToWeeks(WeeksOf(ms, month), week, setor, valor)
               else WeeksOf(ms, other)
  {
    if ms != [] && ms[0].month != month {
      WeeksOfAdd(ms[1..], month, week, setor, valor, other);
    }
  }

  lemma {:induction false} WeekKeysAdd(ws: seq<WeekData>, week: string, setor: string, valor: nat)
    ensures WeekKeys(AddToWeeks(ws, week, setor, valor))
            == if week in WeekKeys(ws) then WeekKeys(ws) else WeekKeys(ws) + [week]
  {
    if ws != [] && ws[0].week != week {
      WeekKeysAdd(ws[1..], week, setor, valor);
      assert WeekKeys(ws) == [ws[0].week] + WeekKeys(ws[1..]);
    }
  }

  lemma {:induction false} MonthsAdd(ms: seq<MonthData>, month: string, week: string, setor: string, valor: nat)
    ensures Months(AddToMonths(ms, month, week, setor, valor))
            == if month in Months(ms) then Months(ms) else Months(ms) + [month]
  {
    if ms != [] && ms[0].month != month {
      MonthsAdd(ms[1..], month, week, setor, valor);
      assert Months(ms) == [ms[0].month] + Months(ms[1..]);
    }
  }

  /**
   * Each (month, week) bucket exists exactly when some record falls in it,
   * and then holds the income and expense sums of its records.
   */
  lemma {:induction false} GroupedTotals(ts: seq<AnalysisItem>, month: string, week: string)
    ensures Lookup(Grouped(ts), month, week)
            == if Seen(ts, month, week) then Some(WeekData(week, Income(ts, month, week), Expense(ts, month, week)))
               else None
  {
    if ts != [] {
      var init, t := ts[..|ts| - 1], ts[|ts| - 1];
      GroupedTotals(init, month, week);
      SeenSnoc(ts, month, week);
      var before := Grouped(init);
      assert Grouped(ts) == AddToMonths(before, ItemMonth(t), t.semana, t.setor, t.valor);
      WeeksOfAdd(before, ItemMonth(t), t.semana, t.setor, t.valor, month);
      if ItemMonth(t) == month {
        LookupWeekAdd(WeeksOf(before, month), t.semana, t.setor, t.valor, week);
        if t.semana == week {
          var prev := LookupWeek(WeeksOf(before, month), week).GetOr(WeekData(week, 0, 0));
          if !Seen(init, month, week) {
            UnseenIsZero(init, month, week);
          }
          assert prev == WeekData(week, Income(init, month, week), Expense(init, month, week));
        }
      } else {
        assert Lookup(Grouped(ts), month, week) == Lookup(before, month, week);
      }
    }
  }

  /** A bucket no record falls in sums to nothing. */
  lemma {:induction false} UnseenIsZero(ts: seq<AnalysisItem>, month: string, week: string)
    requires !Seen(ts, month, week)
    ensures Income(ts, month, week) == 0 && Expense(ts, month, week) == 0
  {
    if ts != [] {
      SeenSnoc(ts, month, week);
      UnseenIsZero(ts[..|ts| - 1], month, week);
    }
  }

  /** A record falls in the bucket when an earlier one does or the last one does. */
  lemma SeenSnoc(ts: seq<AnalysisItem>, month: string, week: string)
    requires ts != []
    ensures Seen(ts, month, week) <==> Seen(ts[..|ts| - 1], month, week) || InBucket(ts[|ts| - 1], month, week)
  {
    var init := ts[..|ts| - 1];
    if Seen(ts, month, week) && !InBucket(ts[|ts| - 1], month, week) {
      var k :| 0 <= k < |ts| && InBucket(ts[k], month, week);
      assert init[k] == ts[k];
    }
    if Seen(init, month, week) {
      var k :| 0 <= k < |init| && InBucket(init[k], month, week);
      assert ts[k] == init[k];
    }
  }

  /** The months appear once each, in the order in which the records first mention them. */
  lemma {:induction false} GroupedMonths(ts: seq<AnalysisItem>)
    ensures Months(Grouped(ts)) == Dedup(Map(ts, ItemMonth))
  {
    if ts != [] {
      var init, t := ts[..|ts| - 1], ts[|ts| - 1];
      GroupedMonths(init);
      MonthsAdd(Grouped(init), ItemMonth(t), t.semana, t.setor, t.valor);
      assert ts == init + [t];
      MapSnoc(init, t, ItemMonth);
      var keys := Map(ts, ItemMonth);
      assert keys[..|keys| - 1] == Map(init, ItemMonth);
    }
  }

  /** The weeks of each month appear once each, in the order in which that month's records first mention them. */
  lemma {:induction false} GroupedWeeks(ts: seq<AnalysisItem>, month: string)
    ensures WeekKeys(WeeksOf(Grouped(ts), month)) == Dedup(WeeksIn(ts, month))
  {
    if ts != [] {
      var init, t := ts[..|ts| - 1], ts[|ts| - 1];
      GroupedWeeks(init, month);
      WeeksOfAdd(Grouped(init), ItemMonth(t), t.semana, t.setor, t.valor, month);
      var before := Grouped(init);
      assert Grouped(ts) == AddToMonths(before, ItemMonth(t), t.semana, t.setor, t.valor);
      if ItemMonth(t) == month {
        WeekKeysAdd(WeeksOf(before, month), t.semana, t.setor, t.valor);
        var ws := WeeksIn(ts, month);
        assert ws == WeeksIn(init, month) + [t.semana];
        assert ws[..|ws| - 1] == WeeksIn(init, month) && ws[|ws| - 1] == t.semana;
        assert Dedup(ws) == if t.semana in Dedup(WeeksIn(init, month)) then Dedup(WeeksIn(init, month))
                            else Dedup(WeeksIn(init, month)) + [t.semana];
      } else {
        assert WeeksIn(ts, month) == WeeksIn(init, month);
      }
    }
  }

  // ----- The selected month -----

  /** The first month key of the grouping, or "" when there is none. */
  function SelectedMonth(ms: seq<MonthData>): string
  {
    if ms == [] then "" else ms[0].month
  }

  /** The month selected after loading is the month of the first record, or "" when there is none. */
  lemma FirstMonthSelected(ts: seq<AnalysisItem>)
    ensures SelectedMonth(Grouped(ts)) == if ts == [] then "" else ItemMonth(ts[0])
  {
    GroupedMonths(ts);
    var ms := Grouped(ts);
    if ts != [] {
      DedupHead(Map(ts, ItemMonth));
      MapAt(ts, ItemMonth, 0);
      assert Months(ms) != [];
    }
  }

  /** One real in cents: the chart scale works in reais, so its floor of 1 is 100 cents. */
  const OneReal: nat := 100

  /**
   * The chart scale: the largest of every week's income and expense and one
   * real, in cents. It is at least one real and at least every income and
   * expense, and equal to one of them or to one real. With no weeks at all
   * the maximum of no numbers is -Infinity, here `None`.
   */
  function MaxValue(ws: seq<WeekData>): (r: Option<nat>)
    ensures r.None? <==> ws == []
    ensures r.Some? ==> r.value >= OneReal
    ensures r.Some? ==> forall k :: 0 <= k < |ws| ==> ws[k].income <= r.value && ws[k].expense <= r.value
    ensures r.Some? && r.value != OneReal ==> exists k :: 0 <= k < |ws| && (r.value == ws[k].income || r.value == ws[k].expense)
  {
    if ws == [] then None
    else
      var rest := MaxValue(ws[1..]).GetOr(OneReal);
      var head := if ws[0].income < ws[0].expense then ws[0].expense else ws[0].income;
      var m := if head < rest then rest else head;
      Some(if m < OneReal then OneReal else m)
  }

  /** The records listed under the chart: those whose month equals the selected one, ignoring case. */
  function ItemsOfMonth(ts: seq<AnalysisItem>, selected: string): (r: seq<AnalysisItem>)
    ensures Subseq(r, ts)
    ensures forall t :: t in r <==> t in ts && Lower(t.mes) == Lower(selected)
    ensures forall t :: multiset(r)[t] == if Lower(t.mes) == Lower(selected) then multiset(ts)[t] else 0
  {
    var inMonth := (t: AnalysisItem) => Lower(t.mes) == Lower(selected);
    FilterIsSubseq(ts, inMonth);
    FilterMembers(ts, inMonth);
    FilterCount(ts, inMonth);
    Filter(ts, inMonth)
  }

  /** Every record grouped under a month is listed when that month is selected. */
  lemma GroupedRecordsListed(ts: seq<AnalysisItem>, t: AnalysisItem)
    requires t in ts
    ensures t in ItemsOfMonth(ts, ItemMonth(t))
  {
  }

  /** A filter that keeps every record of a bucket keeps the bucket's sums. */
  lemma {:induction false} FilterKeepsTotals(ts: seq<AnalysisItem>, p: AnalysisItem -> bool, month: string, week: string)
    requires forall t :: InBucket(t, month, week) ==> p(t)
    ensures Income(Filter(ts, p), month, week) == Income(ts, month, week)
    ensures Expense(Filter(ts, p), month, week) == Expense(ts, month, week)
  {
    if ts != [] {
      var init, t := ts[..|ts| - 1], ts[|ts| - 1];
      FilterKeepsTotals(init, p, month, week);
      assert ts == init + [t];
      FilterSnoc(init, t, p);
      var before, kept := Filter(init, p), Filter(ts, p);
      if p(t) {
        assert kept == before + [t];
        TotalsSnoc(before, t, month, week);
      } else {
        assert kept == before;
        assert !InBucket(t, month, week);
      }
      assert Income(ts, month, week)
             == Income(init, month, week) + (if InBucket(t, month, week) && t.setor == "entrada" then t.valor else 0);
      assert Expense(ts, month, week)
             == Expense(init, month, week) + (if InBucket(t, month, week) && t.setor == "saida" then t.valor else 0);
    }
  }

  /** Appending a record adds its own amount to its bucket's sums. */
  lemma TotalsSnoc(ts: seq<AnalysisItem>, t: AnalysisItem, month: string, week: string)
    ensures Income(ts + [t], month, week)
            == Income(ts, month, week) + (if InBucket(t, month, week) && t.setor == "entrada" then t.valor else 0)
    ensures Expense(ts + [t], month, week)
            == Expense(ts, month, week) + (if InBucket(t, month, week) && t.setor == "saida" then t.valor else 0)
  {
    assert (ts + [t])[..|ts|] == ts;
  }

  /**
   * The list and the chart agree: the records listed under a month give
   * the same income and expense per week as the chart shows for it.
   */
  lemma ListMatchesChart(ts: seq<AnalysisItem>, month: string, week: string)
    ensures Income(ItemsOfMonth(ts, month), month, week) == Income(ts, month, week)
    ensures Expense(ItemsOfMonth(ts, month), month, week) == Expense(ts, month, week)
  {
    var inMonth := (t: AnalysisItem) => Lower(t.mes) == Lower(month);
    forall t | InBucket(t, month, week) ensures inMonth(t) {
      assert Lower(MonthKey(t.mes)) == Lower(t.mes);
    }
    FilterKeepsTotals(ts, inMonth, month, week);
  }

  // ----- Loading -----

  /** What the screen holds after loading: the month data, the selected month and the records. */
  datatype AnalysisView = AnalysisView(monthData: seq<MonthData>, selectedMonth: string, transactions: seq<AnalysisItem>)

  /**
   * The load: nothing happens without a signed-in user; otherwise the
   * user's records are normalised in store order, grouped, and the first
   * month is selected.
   */
  method FetchTransactions(user: Option<string>, docs: seq<FinanceDoc>) returns (view: Option<AnalysisView>)
    ensures user.None? ==> view.None?
    ensures user.Some? ==> view.Some?
    ensures user.Some? ==> view.value.transactions == Map(Filter(docs, (d: FinanceDoc) => OwnedBy(d, user.value)), ToAnalysisItem)
    ensures user.Some? ==> view.value.monthData == Grouped(view.value.transactions)
    ensures user.Some? ==> view.value.selectedMonth == SelectedMonth(view.value.monthData)
  {
    if user.None? {
      return None;
    }
    var transactions := CollectWhere(docs, (d: FinanceDoc) => OwnedBy(d, user.value), ToAnalysisItem);
    var grouped := GroupByMonthAndWeek(transactions);
    var selected := if grouped == [] then "" else grouped[0].month;
    return Some(AnalysisView(grouped, selected, transactions));
  }
}
