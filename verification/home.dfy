/**
 * The transaction list of the home screen: the current user's records,
 * normalised for display, and the "hoje" / "semana" / "mes" period tabs
 * that filter them relative to the present moment.
 */
module Home {
  import opened Wrappers
  import opened Seqs
  import opened Text
  import opened Money
  import opened Records

  const IncomeIcon := "arrow-down-circle"
  const ExpenseIcon := "arrow-up-circle"
  const IncomeColor := "#6C63FF"
  const ExpenseColor := "#29ABE2"

  /** One row of the list, as the screen builds it from a stored record. */
  datatype HomeItem = HomeItem(
    icon: string,
    labelText: string,  // the `label` field
    time: string,
    category: string,
    value: string,
    iconColor: string,
    rawDate: Moment,
    setor: string,
    valor: nat,
    nome: string,
    gasto: string)

  /**
   * The amount as shown: a minus sign for an expense only, then "R$ " and
   * the amount with two decimals and a decimal comma. Read back through the
   * masked-input parser it gives the stored cents again.
   */
  function DisplayValue(setor: string, valor: nat): (r: string)
    ensures |r| > 0 && (r[0] == '-' <==> setor == "saida")
    ensures var k := if setor == "saida" then 1 else 0;
            |r| >= k + 3 && r[k..k + 3] == "R$ " && AmountText(r[k + 3..], ',')
    ensures ParseCents(r) == Some(valor)
  {
    var sign := if setor == "saida" then "-" else "";
    var prefix := sign + "R$ ";
    var amount := CommaFixed2(valor);
    var r := prefix + amount;
    ParseSkipsText(prefix, amount);
    PrefixedAmount(prefix, amount, ',');
    assert r[|sign|..|sign| + 3] == prefix[|sign|..] == "R$ ";
    r
  }

  /** The row for one record: the defaults for a missing name and category, and icon and colour by sector. */
  function ToHomeItem(d: FinanceDoc): (r: HomeItem)
    ensures r.labelText != "" && (d.nome != "" ==> r.labelText == d.nome)
    ensures d.nome == "" ==> r.labelText == "Gasto"
    ensures r.category != ""
    ensures d.gasto != "" ==> r.category == d.gasto
    ensures d.gasto == "" && d.setor != "" ==> r.category == d.setor
    ensures d.gasto == "" && d.setor == "" ==> r.category == "Outros"
    ensures r.icon == IncomeIcon <==> d.setor == "entrada"
    ensures r.icon == ExpenseIcon <==> d.setor != "entrada"
    ensures r.iconColor == IncomeColor <==> d.setor == "entrada"
    ensures r.iconColor == ExpenseColor <==> d.setor != "entrada"
    ensures r.value == DisplayValue(d.setor, d.valor)
    ensures |r.value| > 0 && (r.value[0] == '-' <==> d.setor == "saida")
    ensures ParseCents(r.value) == Some(d.valor)
    ensures r.rawDate == d.data && r.time == d.data.dateTimeText
    ensures r.setor == d.setor && r.valor == d.valor && r.nome == d.nome && r.gasto == d.gasto
  {
    var entrada := d.setor == "entrada";
    var v := DisplayValue(d.setor, d.valor);
    HomeItem(
      icon := if entrada then IncomeIcon else ExpenseIcon,
      labelText := if d.nome != "" then d.nome else "Gasto",
      time := d.data.dateTimeText,
      category := if d.gasto != "" then d.gasto else if d.setor != "" then d.setor else "Outros",
      value := v,
      iconColor := if entrada then IncomeColor else ExpenseColor,
      rawDate := d.data,
      setor := d.setor,
      valor := d.valor,
      nome := d.nome,
      gasto := d.gasto)
  }

  /**
   * The fetch loop: with nobody signed in the list stays as it was
   * (`None`); otherwise it becomes exactly the signed-in user's records,
   * normalised, in the order the store returned them.
   */
  method FetchTransactions(user: Option<string>, docs: seq<FinanceDoc>) returns (loaded: Option<seq<HomeItem>>)
    ensures user.None? ==> loaded.None?
    ensures user.Some? ==> loaded == Some(Map(Filter(docs, (d: FinanceDoc) => OwnedBy(d, user.value)), ToHomeItem))
  {
    if user.None? {
      return None;
    }
    var all := CollectWhere(docs, (d: FinanceDoc) => OwnedBy(d, user.value), ToHomeItem);
    return Some(all);
  }

  /** The period tabs; the screen opens on "semana". */
  datatype Period = Hoje | Semana | Mes

  const OneWeekSeconds := 7 * 24 * 60 * 60

  /**
   * "hoje": same day, month and year as now; "semana": from seven days
   * before now up to now, both ends included; "mes": same month and year.
   */
  predicate InPeriod(date: Moment, period: Period, now: Moment)
  {
    match period
    case Hoje => date.day == now.day && date.month == now.month && date.year == now.year
    case Semana => now.seconds - OneWeekSeconds <= date.seconds <= now.seconds
    case Mes => date.month == now.month && date.year == now.year
  }

  /**
   * The list under the selected tab: the items whose date lies in the
   * period, as an order-preserving subsequence of all items.
   */
  function FilterByPeriod(items: seq<HomeItem>, period: Period, now: Moment): (r: seq<HomeItem>)
    ensures Subseq(r, items)
    ensures forall it :: it in r <==> it in items && InPeriod(it.rawDate, period, now)
    ensures forall it :: multiset(r)[it] == if InPeriod(it.rawDate, period, now) then multiset(items)[it] else 0
  {
    FilterCount(items, (it: HomeItem) => InPeriod(it.rawDate, period, now));
    var r := Filter(items, (it: HomeItem) => InPeriod(it.rawDate, period, now));
    FilterIsSubseq(items, (it: HomeItem) => InPeriod(it.rawDate, period, now));
    FilterMembers(items, (it: HomeItem) => InPeriod(it.rawDate, period, now));
    r
  }

  /** Choosing the same tab again (filtering the filtered list) changes nothing. */
  lemma FilterByPeriodIdempotent(items: seq<HomeItem>, period: Period, now: Moment)
    ensures FilterByPeriod(FilterByPeriod(items, period, now), period, now) == FilterByPeriod(items, period, now)
  {
    FilterIdempotent(items, (it: HomeItem) => InPeriod(it.rawDate, period, now));
  }

  /**
   * Everything "hoje" keeps, "mes" keeps too, in the same order; and
   * "hoje" applied to the "mes" list is "hoje" applied to all items.
   */
  lemma TodayWithinMonth(items: seq<HomeItem>, now: Moment)
    ensures Subseq(FilterByPeriod(items, Hoje, now), FilterByPeriod(items, Mes, now))
    ensures FilterByPeriod(FilterByPeriod(items, Mes, now), Hoje, now) == FilterByPeriod(items, Hoje, now)
  {
    var today := (it: HomeItem) => InPeriod(it.rawDate, Hoje, now);
    var month := (it: HomeItem) => InPeriod(it.rawDate, Mes, now);
    FilterMonotone(items, today, month);
    FilterNarrow(items, today, month);
  }
}
