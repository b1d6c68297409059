/**
 * What the screens read from the `financeiro` collection of the document
 * store, with each record's date already split into the fields the screens
 * ask a JavaScript `Date` for.
 */
module Records {

  /** `getMonth() + 1`: January is 1. */
  type Month = m: int | 1 <= m <= 12 witness 1

  /** `getDate()`. */
  type DayOfMonth = d: int | 1 <= d <= 31 witness 1

  /**
   * A point in time: the epoch seconds of the stored `Timestamp`, the local
   * calendar fields, and the texts the pt-BR locale prints for it, which are
   * taken as given.
   */
  datatype Moment = Moment(
    seconds: int,
    year: int,
    month: Month,
    day: DayOfMonth,
    monthName: string,    // toLocaleString("pt-BR", { month: "long" })
    clockText: string,    // toLocaleTimeString("pt-BR", { hour: "2-digit", minute: "2-digit" })
    dateTimeText: string) // toLocaleString("pt-BR")

  /**
   * A stored transaction. A text field that is missing, `null` or empty
   * is the empty string here (all of them are falsy to the screens).
   * `valor` is in cents; `setor` is "entrada" (income), "saida" (expense)
   * or anything else.
   */
  datatype FinanceDoc = FinanceDoc(
    nome: string,
    valor: nat,
    setor: string,
    gasto: string,
    icone: string,
    categoria: string,
    icon: string,
    descricao: string,
    userId: string,
    data: Moment)

  /** The records of one user, as both list screens select them. */
  predicate OwnedBy(d: FinanceDoc, uid: string)
  {
    d.userId == uid
  }
}
