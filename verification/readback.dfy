/**
 * A record written by the entry form as the two list screens read it
 * back: the form writes `gasto`/`icone`, the analysis screen reads
 * `categoria`/`icon`.
 */
module ReadBack {
  import opened Wrappers
  import opened Money
  import opened Records
  import Add
  import Home
  import Analysis

  /**
   * The stored document of a written record with a numeric amount; `null`
   * fields and fields the form never writes read as the empty string.
   */
  function Stored(rec: Add.NewTransaction): (d: FinanceDoc)
    requires rec.valor.Some?
    ensures d.valor == rec.valor.value && d.setor == rec.setor && d.userId == rec.userId && d.data == rec.data
    ensures d.categoria == "" && d.icon == ""
  {
    FinanceDoc(
      nome := rec.nome,
      valor := rec.valor.value,
      setor := rec.setor,
      gasto := rec.gasto.GetOr(""),
      icone := rec.icone.GetOr(""),
      categoria := "",
      icon := "",
      descricao := rec.descricao,
      userId := rec.userId,
      data := rec.data)
  }

  /**
   * On the home screen a written expense shows under its chosen category
   * (or "saida" when none was chosen), with a minus sign and the amount
   * that was typed.
   */
  lemma ExpenseOnHome(rec: Add.NewTransaction)
    requires rec.valor.Some? && rec.setor == "saida"
    requires rec.gasto.Some?
    ensures var it := Home.ToHomeItem(Stored(rec));
            it.category == (if rec.gasto.value != "" then rec.gasto.value else "saida")
            && it.value[0] == '-' && ParseCents(it.value) == rec.valor
  {
  }

  /**
   * On the analysis screen every record the form writes falls back to the
   * category "Outros" and the icon "dollar-sign", whatever category and
   * icon were chosen.
   */
  lemma WrittenRecordOnAnalysis(rec: Add.NewTransaction)
    requires rec.valor.Some?
    ensures var it := Analysis.ToAnalysisItem(Stored(rec));
            it.category == "Outros" && it.icon == "dollar-sign" && ParseCents(it.value) == rec.valor
  {
    assert "" !in Analysis.ValidFeatherIcons;
  }
}
