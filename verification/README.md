# Personal finance app: screen logic in Dafny

This project models the logic inside four screens of a React Native
personal-finance app that stores its data in Firestore.

- **Entry form** (`Add`): the user's expense categories and the submission of
  a new income (`entrada`) or expense (`saida`) record. The categories can be
  loaded, added, and deleted after confirmation. The amount is typed into a
  masked money input and stored as integer cents.
- **Analysis screen** (`Analysis`): the user's records are normalised, then
  grouped by month name and by week of the month ("Semana 1" … "Semana 5").
  Income and expense are summed per group. The screen also computes the
  bar-chart scale and lists the records of the selected month.
- **Home screen** (`Home`): the user's records are normalised for the list,
  with a sign-prefixed amount in Brazilian format. The "hoje" (today),
  "semana" (week) and "mes" (month) tabs filter them relative to the current
  moment.
- **Reminder calendar** (`Reminders`): the month's reminders appear as marked
  days. Selecting a day shows a tooltip. The add/edit form has a time input
  typed as "HH:MM". The month is fetched with a "YYYY-MM-01".."YYYY-MM-31"
  range query.

Supporting modules:

- `Seqs`: `filter`, `map`, the `forEach`/`push` loop, and first-seen key
  order.
- `Text`: the JavaScript string operations involved: `trim`, `\d`,
  `parseInt`, `Number`, `toString`, `padStart`, case mapping and `split`.
- `Money`: parsing the masked amount, and `toFixed(2)` with a decimal point
  or a decimal comma.
- `Records`: the stored `financeiro` record.
- `ReadBack`: how the two list screens read back a record written by the
  form.

How the model treats the outside world:

- Database reads are input sequences.
- A database write either succeeds or fails, and which one is a parameter.
- "Now" is a parameter.
- Locale-formatted texts (month name, clock text, date-time text) are given
  fields of a `Moment`.
- Amounts are integer cents throughout. Where the source divides by 100 and
  works in reais, the model keeps cents: the chart scale's floor of 1 real is
  `Analysis.OneReal` = 100 cents.

Screens whose fields change step by step are classes:

- `Add.GreyBox` for the entry form.
- `Reminders.LembretesScreen` for the reminder calendar.

Their handlers are methods with `modifies this`, and each method states the
whole new state. Loops in the source are methods with loop invariants:

- `Seqs.CollectWhere`, the fetch loops.
- `Analysis.GroupByMonthAndWeek`, the `+=` grouping.
- `Reminders.GetMarkedDates`, which fills the marks object.

Each loop method is proved against a specification function, and the
lemmas beside it state what that function means.

Three behaviours of the source the model keeps as written:

- A record without a timestamp makes `new Date(data.data.seconds * 1000)`
  throw inside the `forEach`. The `catch` then drops the whole fetch, so no
  "now" is substituted for the missing date. In the model every record has
  a date.
- The analysis screen reads `categoria` and `icon`, but the entry form writes
  `gasto` and `icone`. So every record the app itself writes shows up there
  as "Outros" with the "dollar-sign" icon. `ReadBack.WrittenRecordOnAnalysis`
  proves this.
- `Math.max(...[])` is `-Infinity`. So for a selected month without weeks
  (no records at all) the chart maximum is not at least 1. `MaxValue` returns
  `None` there. No bar is drawn in that case.

## Model

| member | source | states |
|---|---|---|
| Seqs.CollectWhere | src/screens/Home/components/GreyBox.tsx:62-87 | the `forEach` loop that pushes the image of every accepted element yields exactly `map` of `filter`, in input order |
| Seqs.FilterMembers | src/screens/Home/components/GreyBox.tsx:100-126 | an element is in the filtered list exactly when it is in the input and satisfies the predicate |
| Seqs.FilterCount | src/screens/Home/components/GreyBox.tsx:100-126 | `filter` keeps every element that satisfies the predicate as often as it occurs in the input, and drops every other |
| Seqs.FilterIsSubseq | src/screens/Home/components/GreyBox.tsx:100-126 | `filter` yields an order-preserving subsequence of its input |
| Seqs.FilterNarrow | src/screens/Home/components/GreyBox.tsx:100-126 | filtering by a stronger predicate after a weaker one equals filtering by the stronger one alone |
| Seqs.FilterIdempotent | src/screens/Home/components/GreyBox.tsx:100-126 | filtering twice by the same predicate changes nothing more |
| Seqs.FilterMonotone | src/screens/Home/components/GreyBox.tsx:100-126 | the result of a stronger filter is a subsequence of the result of a weaker one |
| Seqs.MapAt | src/screens/Home/components/GreyBox.tsx:68-85 | each mapped element is the image of the element at the same position |
| Seqs.MapMembers | src/screens/Add/components/GreyBox.tsx:67-73 | the mapped list holds exactly the images of the input elements |
| Seqs.Dedup | src/screens/Analysis/components/GreyBox.tsx:89-93 | the key order of an object filled key by key: every key once, and exactly the keys seen |
| Seqs.DedupHead | src/screens/Analysis/components/GreyBox.tsx:113-115 | the first key of that order is the first key seen |
| Seqs.DedupFirstSeen | src/screens/Analysis/components/GreyBox.tsx:89-93 | the keys are listed in the order of their first occurrence in the input |
| Text.Trim | src/screens/Add/components/GreyBox.tsx:83 | `trim` drops exactly the leading and trailing white space, and leaves a slice that neither starts nor ends with it; empty iff the input is all white space |
| Text.TrimIdempotent | src/screens/Add/components/GreyBox.tsx:83 | trimming a trimmed name changes nothing |
| Text.DigitsOf | src/screens/Add/components/GreyBox.tsx:160 | removing every non-digit leaves only digits, and a single character is kept exactly when it is a digit |
| Text.DigitsOfExactly | src/screens/Add/components/GreyBox.tsx:160 | what is left is the input's digits in order, each as often as it occurs in the input |
| Text.NatToDecimal | src/screens/Lembretes/LembretesScreen.tsx:71-72 | `toString` of a non-negative integer is a digit string without a leading zero that reads back as the integer |
| Text.TwoDigits | src/screens/Lembretes/LembretesScreen.tsx:72 | the two-digit numeral of a number below 100 reads back as that number |
| Text.PadStart | src/screens/Lembretes/LembretesScreen.tsx:72 | `padStart` reaches the width with fill characters in front and keeps the text at the end |
| Text.PadStartTwoDigits | src/screens/Lembretes/LembretesScreen.tsx:72 | `toString().padStart(2, "0")` of a number below 100 is its two-digit numeral |
| Text.Lower | src/screens/Analysis/components/GreyBox.tsx:136-138 | `toLowerCase` maps every character, keeping the length |
| Text.LowerCapitalize | src/screens/Analysis/components/GreyBox.tsx:91 | upper-casing the first letter does not change a case-insensitive comparison |
| Text.ToNumber | src/screens/Lembretes/LembretesScreen.tsx:195 | `Number` of a trimmed digit string is its value, and of an all-space string 0 |
| Text.Split | src/screens/Lembretes/LembretesScreen.tsx:195 | `split(":")` gives at least one piece, no piece contains ":", and joining the pieces gives the input back |
| Text.SplitJoin | src/screens/Lembretes/LembretesScreen.tsx:195 | splitting joined separator-free pieces gives the pieces back |
| Money.ParseCents | src/screens/Add/components/GreyBox.tsx:160-161 | the amount is the integer spelt by the digits of the masked text, every other character ignored; `NaN` (None) exactly when there is no digit |
| Money.ParseIgnoresNonDigit | src/screens/Add/components/GreyBox.tsx:160-161 | inserting a non-digit anywhere in the masked text does not change the amount |
| Money.ParseSkipsText | src/screens/Add/components/GreyBox.tsx:160-161 | a digit-free prefix such as "R$ " does not change the amount |
| Money.Fixed2 | src/screens/Analysis/components/GreyBox.tsx:75 | `(cents / 100).toFixed(2)` is digits without a leading zero, a point and exactly two digits |
| Money.Fixed2RoundTrip | src/screens/Analysis/components/GreyBox.tsx:75 | the printed amount, after any digit-free prefix, parses back to the same cents |
| Money.ReplaceFirst | src/screens/Home/components/GreyBox.tsx:78 | `replace` with a string pattern keeps the length and leaves a text without the pattern unchanged |
| Money.ReplaceFirstOccurrence | src/screens/Home/components/GreyBox.tsx:78 | with the pattern present, exactly its first occurrence is replaced and the text before and after it is kept |
| Money.ReplaceAfter | src/screens/Home/components/GreyBox.tsx:78 | the first occurrence lies after a prefix that does not contain the pattern |
| Money.ReplaceKeepsDigits | src/screens/Home/components/GreyBox.tsx:78 | replacing one non-digit by another leaves the digits unchanged |
| Money.CommaFixed2 | src/screens/Home/components/GreyBox.tsx:78 | the amount with a decimal comma is digits without a leading zero, a comma and exactly two digits, and parses back to the same cents |
| Home.DisplayValue | src/screens/Home/components/GreyBox.tsx:76-78 | the shown value starts with "-" exactly for "saida", then "R$ " and the amount with a decimal comma and two decimals, and parses back to the stored cents |
| Home.ToHomeItem | src/screens/Home/components/GreyBox.tsx:68-85 | label is `nome`, or "Gasto" when empty; category is `gasto`, else `setor`, else "Outros"; icon and colour are the income ones exactly for "entrada"; the value is the signed "R$ " amount of `DisplayValue`; the raw fields are copied |
| Home.FetchTransactions | src/screens/Home/components/GreyBox.tsx:52-93 | without a user nothing is loaded; otherwise exactly the user's records, normalised, in store order |
| Home.FilterByPeriod | src/screens/Home/components/GreyBox.tsx:100-126 | the tab keeps, in order and with their multiplicity, exactly the items dated in the period: same day for "hoje", the last seven days up to now for "semana", same month and year for "mes" |
| Home.FilterByPeriodIdempotent | src/screens/Home/components/GreyBox.tsx:100-126 | filtering the filtered list again by the same tab changes nothing |
| Home.TodayWithinMonth | src/screens/Home/components/GreyBox.tsx:104-123 | what "hoje" keeps is a subsequence of what "mes" keeps, and "hoje" over the "mes" list equals "hoje" over all items |
| Analysis.WeekOfMonth | src/screens/Analysis/components/GreyBox.tsx:72 | `ceil(day / 7)` lies in 1..5 and is the week whose seven days contain the day |
| Analysis.WeekLabel | src/screens/Analysis/components/GreyBox.tsx:72 | the label is "Semana " followed by that week's single digit |
| Analysis.WeekLabelBoundaries | src/screens/Analysis/components/GreyBox.tsx:72 | days 1-7 are "Semana 1", 8-14 "Semana 2", 29-31 "Semana 5" |
| Analysis.AnalysisValue | src/screens/Analysis/components/GreyBox.tsx:75 | the value is "R$" directly followed by digits without a leading zero, a point and two digits, and parses back to the cents |
| Analysis.ToAnalysisItem | src/screens/Analysis/components/GreyBox.tsx:65-82 | label defaults to "Sem título", category to "Outros"; the icon is whitelisted or "dollar-sign"; the colour is green exactly for "entrada"; the value is `AnalysisValue` of the cents |
| Analysis.MonthKey | src/screens/Analysis/components/GreyBox.tsx:91 | the month key is the month name with its first character upper-cased and the rest kept, so it compares equal to the name case-insensitively |
| Analysis.BumpCommutes | src/screens/Analysis/components/GreyBox.tsx:97-98 | two updates of one week's totals commute: the week keeps its label and the sums do not depend on which record is added first |
| Analysis.GroupByMonthAndWeek | src/screens/Analysis/components/GreyBox.tsx:85-100 | the grouping loop computes the record-by-record grouping |
| Analysis.LookupWeekAdd | src/screens/Analysis/components/GreyBox.tsx:93-98 | adding a record changes only its own week's totals |
| Analysis.WeeksOfAdd | src/screens/Analysis/components/GreyBox.tsx:92-93 | adding a record changes only its own month's weeks |
| Analysis.WeekKeysAdd | src/screens/Analysis/components/GreyBox.tsx:93-94 | a new week is appended, a known week keeps its place |
| Analysis.MonthsAdd | src/screens/Analysis/components/GreyBox.tsx:92 | a new month is appended, a known month keeps its place |
| Analysis.GroupedTotals | src/screens/Analysis/components/GreyBox.tsx:85-111 | a (month, week) bucket exists exactly when some record falls in it, and holds the sum of its "entrada" amounts as income and of its "saida" amounts as expense |
| Analysis.UnseenIsZero | src/screens/Analysis/components/GreyBox.tsx:94-98 | a bucket no record falls in sums to zero |
| Analysis.SeenSnoc | src/screens/Analysis/components/GreyBox.tsx:89 | a record falls in a bucket when an earlier one or the last one does |
| Analysis.GroupedMonths | src/screens/Analysis/components/GreyBox.tsx:102-113 | the months appear once each in the order the records first mention them |
| Analysis.GroupedWeeks | src/screens/Analysis/components/GreyBox.tsx:102-111 | each month's weeks appear once each in the order that month's records first mention them |
| Analysis.FirstMonthSelected | src/screens/Analysis/components/GreyBox.tsx:113-115 | the selected month is the month key of the first record, or "" without records |
| Analysis.MaxValue | src/screens/Analysis/components/GreyBox.tsx:127-130 | the scale is at least one real and at least every income and expense of the month, and equals one of them or one real; no weeks gives `-Infinity` (None) |
| Analysis.ItemsOfMonth | src/screens/Analysis/components/GreyBox.tsx:136-138 | the listed records are, in order and with their multiplicity, exactly those whose month equals the selected one ignoring case |
| Analysis.GroupedRecordsListed | src/screens/Analysis/components/GreyBox.tsx:136-138 | every record is listed when its own month key is selected |
| Analysis.FilterKeepsTotals | src/screens/Analysis/components/GreyBox.tsx:94-98 | a filter that keeps all records of a bucket keeps its sums |
| Analysis.ListMatchesChart | src/screens/Analysis/components/GreyBox.tsx:85-138 | the records listed under a month sum, week by week, to the chart's income and expense for that month |
| Analysis.FetchTransactions | src/screens/Analysis/components/GreyBox.tsx:53-120 | without a user nothing happens; otherwise the user's records are normalised in order, grouped, and the first month is selected |
| Add.IconOf | src/screens/Add/components/GreyBox.tsx:169-175 | `find` gives the icon of the first category with the name, and exists exactly when some category has it |
| Add.Without | src/screens/Add/components/GreyBox.tsx:139-141 | `filter` keeps, in order and with their multiplicity, exactly the categories of other names, so none of the removed name is left |
| Add.LoadedCategories | src/screens/Add/components/GreyBox.tsx:61-73 | loaded categories are exactly those of the user's documents with both a name and an icon |
| Add.UniqueAfterAdd | src/screens/Add/components/GreyBox.tsx:89-110 | appending a category of a new name keeps names unique |
| Add.UniqueAfterWithout | src/screens/Add/components/GreyBox.tsx:139-141 | removing a name keeps names unique |
| Add.UniqueAfterFilter | src/screens/Add/components/GreyBox.tsx:139-141 | dropping any categories from a list with unique names keeps the names unique |
| Add.WithoutAbsent | src/screens/Add/components/GreyBox.tsx:139-141 | removing a name no category has changes nothing |
| Add.IconOfAdded | src/screens/Add/components/GreyBox.tsx:107-175 | a category appended under a new name is found with its icon |
| Add.RecordIcon | src/screens/Add/components/GreyBox.tsx:168-175 | an icon is saved only for an expense with a chosen category that exists, and it is that category's first icon |
| Add.GreyBox.constructor | src/screens/Add/components/GreyBox.tsx:36-54 | the form opens empty with no dialog |
| Add.GreyBox.CarregarCategorias | src/screens/Add/components/GreyBox.tsx:56-79 | with an authenticated user and a successful query the list becomes the loadable documents in order; otherwise nothing changes |
| Add.GreyBox.AdicionarCategoria | src/screens/Add/components/GreyBox.tsx:82-117 | missing name or icon, a duplicate name, no user and a failed write are rejected with nothing changed; success appends exactly one trimmed category and clears both inputs; unique names stay unique |
| Add.GreyBox.PedirExcluirCategoria | src/screens/Add/components/GreyBox.tsx:119-122 | the name is remembered and the confirmation opens |
| Add.GreyBox.ExcluirCategoria | src/screens/Add/components/GreyBox.tsx:124-151 | no pending name or no user: nothing changes; failed query: only the dialog closes; success: every category of that name is removed, a matching selection is cleared, the dialog closes and forgets the name |
| Add.GreyBox.HandleSubmit | src/screens/Add/components/GreyBox.tsx:153-201 | name, amount and sector are required and the user must be authenticated; the record has the cents of the digits typed, `gasto`/`icone` only for "saida", the current moment; success clears the five fields |
| Reminders.SetHours | src/screens/Lembretes/LembretesScreen.tsx:196-198 | `setHours(h, m)` on a valid date short of the time limit, with an hour below 24 and minutes below 60, gives a valid date on the same day with that hour and minute and the seconds and milliseconds kept; a `NaN` argument or an invalid date gives the invalid date |
| Reminders.ParseTimeInput | src/screens/Lembretes/LembretesScreen.tsx:195-196 | the hour is `Number` of the text before the first ":", the minutes `Number` of the piece after it, and a text without ":" has no minutes |
| Reminders.TrimUnspaced | src/screens/Lembretes/LembretesScreen.tsx:195 | a text without surrounding white space is its own trim |
| Reminders.NumberOfTwoDigits | src/screens/Lembretes/LembretesScreen.tsx:195 | `Number` of a two-digit numeral is its value |
| Reminders.TimeInputRoundTrip | src/screens/Lembretes/LembretesScreen.tsx:195-196 | "HH:MM" reads back as that hour and minute |
| Reminders.TimeInputSetsClock | src/screens/Lembretes/LembretesScreen.tsx:191-199 | typing "HH:MM" on a valid date keeps it valid and sets that hour and minute on the same day, seconds and milliseconds kept |
| Reminders.GetMarkedDates | src/screens/Lembretes/LembretesScreen.tsx:108-132 | one entry per reminder day plus the selected day when non-empty; reminder days are marked and selected exactly when they are the selected day; a selected day without reminders is selected and unmarked |
| Reminders.HasReminderOn | src/screens/Lembretes/LembretesScreen.tsx:187-188 | the tooltip condition holds exactly when some reminder of the month is on that day |
| Reminders.RemindersOn | src/screens/Lembretes/LembretesScreen.tsx:90-106 | the day query gives, in order, exactly the reminders of that day |
| Reminders.SaveRequest | src/screens/Lembretes/LembretesScreen.tsx:134-151 | empty text or day is rejected; an invalid time throws before any write; otherwise the edited reminder is updated by its id, or a new one is added, with text, day and time |
| Reminders.MonthRange | src/screens/Lembretes/LembretesScreen.tsx:70-77 | the bounds are year, "-", the month as two digits, then "-01" and "-31" |
| Reminders.LexPrefix | src/screens/Lembretes/LembretesScreen.tsx:75-76 | a common prefix does not change the string order |
| Reminders.MonthRangeCoversMonth | src/screens/Lembretes/LembretesScreen.tsx:73-77 | every day of the month lies within the bounds |
| Reminders.TwoDigitsOrder | src/screens/Lembretes/LembretesScreen.tsx:72-77 | zero-padded months order as strings as they order as numbers |
| Reminders.MonthRangeExcludesOtherMonths | src/screens/Lembretes/LembretesScreen.tsx:73-77 | a day of another month of the same year lies outside the bounds |
| Reminders.MonthQuerySelectsMonth | src/screens/Lembretes/LembretesScreen.tsx:69-88 | a reminder of the query's year is fetched exactly when it is of the query's month |
| Reminders.LembretesScreen.constructor | src/screens/Lembretes/LembretesScreen.tsx:46-57 | the screen opens with nothing selected, no reminders, an empty closed form and the time set to now |
| Reminders.LembretesScreen.FetchLembretesMes | src/screens/Lembretes/LembretesScreen.tsx:69-88 | the month list becomes the stored reminders within the month's bounds |
| Reminders.LembretesScreen.FetchLembretes | src/screens/Lembretes/LembretesScreen.tsx:90-106 | with a selected day the list becomes that day's reminders; otherwise nothing changes |
| Reminders.LembretesScreen.OnDayPress | src/screens/Lembretes/LembretesScreen.tsx:184-189 | the day is selected and the tooltip shows exactly when the month has a reminder on it |
| Reminders.LembretesScreen.AbrirEditar | src/screens/Lembretes/LembretesScreen.tsx:170-175 | the form opens in edit mode with the reminder's text and time |
| Reminders.LembretesScreen.LimparFormulario | src/screens/Lembretes/LembretesScreen.tsx:177-182 | empty text, time reset to now, not editing, form closed |
| Reminders.LembretesScreen.SalvarLembrete | src/screens/Lembretes/LembretesScreen.tsx:134-158 | the write is decided by `SaveRequest`; a successful write clears the form, anything else leaves it as it was |
| Reminders.LembretesScreen.HandleTimeInputChange | src/screens/Lembretes/LembretesScreen.tsx:191-199 | the time becomes `setHours` of the typed hour and minute |
| ReadBack.ExpenseOnHome | src/screens/Home/components/GreyBox.tsx:75-78 | a written expense appears under its chosen category (or "saida"), with a minus sign and the typed amount |
| ReadBack.WrittenRecordOnAnalysis | src/screens/Analysis/components/GreyBox.tsx:74-76 | every written record appears as "Outros" with the "dollar-sign" icon and the typed amount |

## Left out

- Firestore and authentication I/O. Query results are input sequences and
  each write's success is a parameter. Queries scoped by user are filters on
  `userId`. Range and equality queries are filters. The order Firestore
  returns results in is taken to be store order.
- AdicionarCategoria, CarregarCategorias, ExcluirCategoria, HandleSubmit and
  the reminder handlers are modelled as atomic steps taken one after another.
  Overlapping calls across an `await` are not modelled. For example, a double
  tap on "add category" runs the duplicate-name check twice on the list
  captured before the write, and both appends then happen. So in the source
  the names stay unique only when calls do not overlap.
- The unawaited `deleteDoc` calls inside `forEach(async …)` when a category
  is deleted. They are concurrent. `ExcluirCategoria` returns the user and
  name whose documents are deleted, as one step.
- Floating point. Amounts stay in integer cents instead of `valor / 100`.
  `Fixed2` is exact, which `toFixed` is not for amounts above about 2^52 cents.
- ParseCents: the amount is the exact integer spelt by the digits. `parseInt`
  returns a double, which rounds above 2^53 cents (for example
  "9007199254740993" reads as 9007199254740992) and is `Infinity` for very
  long digit strings.
  Bar heights are not modelled.
- Locale and clock formatting. Month names, time texts and the current
  moment are inputs.
- `ToNumber` handles only `Number` of an optional sign and decimal digits
  (plus surrounding space). Fractions, exponents, hexadecimal and `Infinity`
  read as `NaN` here, so `setHours` on such input gives the invalid date in
  the model.
- Letter case: `Capitalize` and `Lower` map only ASCII letters. Accented
  capitals are not case-folded.
- `Reminders.Horario` is a local time value with a fixed offset.
  - Daylight-saving changes are not modelled.
  - The ISO text written by `toISOString` and read back by `new Date(…)` is
    represented by the time value it encodes.
- Home's "semana" tab subtracts seven days with `setDate`. The model
  subtracts `7 * 24 * 60 * 60` seconds, so a daylight-saving change in that
  week is not modelled. Timestamps are compared in seconds.
- A stored amount that is `NaN` cannot be read back: `FinanceDoc.valor` is a
  `nat`, and `ReadBack.Stored` requires a numeric amount.
- Home's filter ends with `return false` for an unknown period. The three
  tabs never reach it, so `Period` has only the three cases.
- `excluirLembrete` only deletes a document and refetches. This is I/O only.
- After a successful save the screen refetches the day and the month. The
  model has these as the separate methods `FetchLembretes` and
  `FetchLembretesMes`; `SalvarLembrete` does not call them.
- The month query of the reminders is not scoped by user, as in the source.
  The model keeps that.
- Presentation is not modelled:
  - modals for icons and categories;
  - the time picker;
  - navigation after submit;
  - alerts, which are represented by outcome values;
  - the `gastoPeriodo` and `gastoComida` states of the home screen, which are
    never updated from data;
  - the icon choice list.
