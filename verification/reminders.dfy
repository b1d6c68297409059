/**
 * The reminder calendar: the month's reminders shown as marked days, the
 * selected day and its tooltip, the add/edit form with its time input, and
 * the date range of the month query.
 */
module Reminders {
  import opened Wrappers
  import opened Seqs
  import opened Text
  import opened Records

  // ----- Time values -----

  const MsPerMinute: int := 60000
  const MsPerHour: int := 3600000
  const MsPerDay: int := 86400000

  /** The largest distance from the epoch a JavaScript `Date` may have (`TimeClip`). */
  const MaxTime: int := 8640000000000000

  /**
   * The time value of a JavaScript `Date`, in milliseconds of local time
   * (the local offset is taken as fixed), or the invalid date (`NaN`).
   */
  datatype Horario = At(ms: int) | InvalidDate

  /** The day number, hour and minute of a local time value (floor division, as `Day`, `HourFromTime`, `MinFromTime`). */
  function DayOf(ms: int): int { ms / MsPerDay }
  function HourOf(ms: int): int { (ms % MsPerDay) / MsPerHour }
  function MinuteOf(ms: int): int { (ms % MsPerHour) / MsPerMinute }

  /** A positive multiple of a positive number is at least that number. */
  lemma {:induction false} MultipleAtLeast(k: int, d: int)
    requires k >= 1 && d > 0
    ensures k * d >= d
  {
    if k > 1 {
      MultipleAtLeast(k - 1, d);
      assert k * d == (k - 1) * d + d;
    }
  }

  /** Quotient and remainder of `q * d + x` for `0 <= x < d`. */
  lemma DivModSplit(q: int, d: int, x: int)
    requires d > 0 && 0 <= x < d
    ensures (q * d + x) / d == q && (q * d + x) % d == x
  {
    var n := q * d + x;
    var q', x' := n / d, n % d;
    assert n == q' * d + x';
    assert 0 <= x' < d;
    if q' < q {
      MultipleAtLeast(q - q', d);
    } else if q' > q {
      MultipleAtLeast(q' - q, d);
    }
  }

  /**
   * Setting the hours and minutes of a date: the same local day with the
   * given hour and minute and the seconds and milliseconds kept. A `NaN`
   * argument, an invalid date or a result beyond `MaxTime` gives the invalid
   * date; a valid date short of `MaxTime` set to an hour and minute of the
   * day stays valid.
   */
  function SetHours(h: Horario, hours: Option<int>, minutes: Option<int>): (r: Horario)
    ensures h.InvalidDate? || hours.None? || minutes.None? ==> r.InvalidDate?
    ensures (h.At? && -MaxTime <= h.ms < MaxTime && hours.Some? && minutes.Some?
             && 0 <= hours.value < 24 && 0 <= minutes.value < 60) ==> r.At?
    ensures r.At? ==> -MaxTime <= r.ms <= MaxTime
    ensures r.At? && 0 <= hours.value < 24 && 0 <= minutes.value < 60 ==>
      DayOf(r.ms) == DayOf(h.ms) && HourOf(r.ms) == hours.value && MinuteOf(r.ms) == minutes.value
      && r.ms % MsPerMinute == h.ms % MsPerMinute
  {
    if h.InvalidDate? || hours.None? || minutes.None? then InvalidDate
    else
      var t, hh, mm := h.ms, hours.value, minutes.value;
      var kept := t % MsPerMinute;
      var ms := DayOf(t) * MsPerDay + hh * MsPerHour + mm * MsPerMinute + kept;
      assert 0 <= hh < 24 && 0 <= mm < 60 && -MaxTime <= t < MaxTime ==> -MaxTime <= ms <= MaxTime by {
        if 0 <= hh < 24 && 0 <= mm < 60 && -MaxTime <= t < MaxTime {
          assert t == DayOf(t) * MsPerDay + t % MsPerDay && 0 <= t % MsPerDay < MsPerDay;
          assert -100000000 <= DayOf(t) < 100000000;
          assert 0 <= hh * MsPerHour + mm * MsPerMinute + kept < MsPerDay;
        }
      }
      if ms < -MaxTime || MaxTime < ms then InvalidDate
      else
        assert 0 <= hh < 24 && 0 <= mm < 60 ==>
          (DayOf(ms) == DayOf(t) && HourOf(ms) == hh && MinuteOf(ms) == mm && ms % MsPerMinute == kept) by {
          if 0 <= hh < 24 && 0 <= mm < 60 {
            var inDay := hh * MsPerHour + mm * MsPerMinute + kept;
            DivModSplit(DayOf(t), MsPerDay, inDay);
            var inHour := mm * MsPerMinute + kept;
            DivModSplit(hh, MsPerHour, inHour);
            DivModSplit(DayOf(t) * 24 + hh, MsPerHour, inHour);
            assert ms == (DayOf(t) * 24 + hh) * MsPerHour + inHour;
            DivModSplit(mm, MsPerMinute, kept);
            DivModSplit((DayOf(t) * 24 + hh) * 60 + mm, MsPerMinute, kept);
            assert ms == ((DayOf(t) * 24 + hh) * 60 + mm) * MsPerMinute + kept;
          }
        }
        At(ms)
  }

  /**
   * The "HH:MM" text of the time input, split at ":" with each of the first
   * two pieces read with `Number`; a missing minutes part is `undefined`,
   * which setting the hours reads as `NaN`.
   */
  function ParseTimeInput(text: string): (r: (Option<int>, Option<int>))
    ensures r.0 == ToNumber(Split(text, ':')[0])
    ensures |Split(text, ':')| >= 2 ==> r.1 == ToNumber(Split(text, ':')[1])
    ensures |Split(text, ':')| < 2 ==> r.1.None?
  {
    var parts := Split(text, ':');
    (ToNumber(parts[0]), if |parts| >= 2 then ToNumber(parts[1]) else None)
  }

  /** A text without surrounding white space is its own trim. */
  lemma TrimUnspaced(s: string)
    requires s != [] && !IsJsSpace(s[0]) && !IsJsSpace(s[|s| - 1])
    ensures Trim(s) == s
  {
    assert LeadingSpaces(s) == 0;
    assert s[0..] == s;
    assert TrailingSpaces(s) == 0;
  }

  /** The two-digit numeral of a number below 100 reads back as that number. */
  lemma NumberOfTwoDigits(n: nat)
    requires n < 100
    ensures ToNumber(TwoDigits(n)) == Some(n)
  {
    TrimUnspaced(TwoDigits(n));
  }

  /** The input "HH:MM" reads back as the hour and minute it spells. */
  lemma TimeInputRoundTrip(hours: nat, minutes: nat)
    requires hours < 24 && minutes < 60
    ensures ParseTimeInput(TwoDigits(hours) + ":" + TwoDigits(minutes)) == (Some(hours), Some(minutes))
  {
    var hh, mm := TwoDigits(hours), TwoDigits(minutes);
    assert ':' !in hh && ':' !in mm;
    SplitPrefix(hh, mm, ':');
    SplitNoSeparator(mm, ':');
    NumberOfTwoDigits(hours);
    NumberOfTwoDigits(minutes);
  }

  /**
   * Typing "HH:MM" into the time of a valid date keeps it valid, keeps the
   * day, seconds and milliseconds, and sets that hour and minute.
   */
  lemma TimeInputSetsClock(t: int, hours: nat, minutes: nat)
    requires hours < 24 && minutes < 60
    requires -MaxTime <= t < MaxTime
    ensures var (h, m) := ParseTimeInput(TwoDigits(hours) + ":" + TwoDigits(minutes));
            var r := SetHours(At(t), h, m);
            r.At? && DayOf(r.ms) == DayOf(t) && HourOf(r.ms) == hours && MinuteOf(r.ms) == minutes
            && r.ms % MsPerMinute == t % MsPerMinute
  {
    TimeInputRoundTrip(hours, minutes);
  }

  // ----- Reminders and the calendar marks -----

  /** A stored reminder: `data` is the "YYYY-MM-DD" day, `horario` the time value of its ISO text. */
  datatype Reminder = Reminder(id: string, texto: string, data: string, horario: Horario)

  /** The fields a save writes. */
  datatype ReminderData = ReminderData(texto: string, data: string, horario: int)

  /** One entry of the calendar's marked-dates object; an absent property is `false` or `None`. */
  datatype Mark = Mark(marked: bool, dotColor: Option<string>, selected: bool, selectedColor: Option<string>)

  const DotColor := "#2563EB"
  const SelectedColor := "#4F46E5"

  /** The entry of a day with reminders. */
  function ReminderMark(isSelected: bool): (m: Mark)
    ensures m.marked && m.dotColor == Some(DotColor) && m.selected == isSelected
    ensures m.selectedColor.Some? <==> isSelected
  {
    Mark(true, Some(DotColor), isSelected, if isSelected then Some(SelectedColor) else None)
  }

  /** The entry of a selected day without reminders. */
  const SelectedOnly: Mark := Mark(false, None, true, Some(SelectedColor))

  /** The days that carry at least one reminder. */
  function Dates(rs: seq<Reminder>): set<string>
  {
    set r | r in rs :: r.data
  }

  /**
   * `getMarkedDates`: one entry per day with reminders, marked with a dot and
   * selected exactly when it is the selected day, plus an unmarked selected
   * entry for a selected day without reminders.
   */
  method GetMarkedDates(lembretesMes: seq<Reminder>, selectedDate: string) returns (marks: map<string, Mark>)
    ensures marks.Keys == Dates(lembretesMes) + (if selectedDate != "" then {selectedDate} else {})
    ensures forall r :: r in lembretesMes ==> marks[r.data] == ReminderMark(r.data == selectedDate)
    ensures selectedDate != "" && selectedDate !in Dates(lembretesMes) ==> marks[selectedDate] == SelectedOnly
    ensures forall d :: d in marks ==> (marks[d].selected <==> d == selectedDate)
    ensures forall d :: d in marks ==> (marks[d].marked <==> d in Dates(lembretesMes))
  {
    marks := map[];
    for i := 0 to |lembretesMes|
      invariant marks.Keys == Dates(lembretesMes[..i])
      invariant forall r :: r in lembretesMes[..i] ==> marks[r.data] == ReminderMark(r.data == selectedDate)
    {
      var lem := lembretesMes[i];
      assert lembretesMes[..i + 1] == lembretesMes[..i] + [lem];
      var isSelected := lem.data == selectedDate;
      if lem.data !in marks {
        marks := marks[lem.data := ReminderMark(isSelected)];
      }
    }
    assert lembretesMes[..|lembretesMes|] == lembretesMes;
    if selectedDate != "" && selectedDate !in marks {
      marks := marks[selectedDate := SelectedOnly];
    }
  }

  /** The tooltip condition: some reminder of the month falls on the day. */
  function HasReminderOn(rs: seq<Reminder>, day: string): (b: bool)
    ensures b <==> day in Dates(rs)
  {
    var onDay := (r: Reminder) => r.data == day;
    FilterMembers(rs, onDay);
    var found := Filter(rs, onDay);
    assert found != [] ==> found[0] in found;
    |found| > 0
  }

  /** The query by day: the reminders of that day, in order. */
  function RemindersOn(rs: seq<Reminder>, day: string): (r: seq<Reminder>)
    ensures Subseq(r, rs)
    ensures forall x :: x in r <==> x in rs && x.data == day
  {
    var onDay := (x: Reminder) => x.data == day;
    FilterIsSubseq(rs, onDay);
    FilterMembers(rs, onDay);
    Filter(rs, onDay)
  }

  // ----- Saving -----

  /** What `salvarLembrete` does with the form. */
  datatype SaveDecision =
    | Rejected                            // the alert: text and day are required
    | Crash                               // `toISOString` throws on an invalid date; nothing is written
    | Update(id: string, data: ReminderData)
    | Insert(data: ReminderData)

  /**
   * Text and day are required; the time must be a valid date; the reminder
   * being edited is overwritten, otherwise a new one is added.
   */
  function SaveRequest(texto: string, selectedDate: string, horario: Horario, editing: Option<Reminder>): (d: SaveDecision)
    ensures d == Rejected <==> texto == "" || selectedDate == ""
    ensures d == Crash <==> texto != "" && selectedDate != "" && horario.InvalidDate?
    ensures d.Update? <==> texto != "" && selectedDate != "" && horario.At? && editing.Some?
    ensures d.Update? ==> d.id == editing.value.id
    ensures d.Update? || d.Insert? ==> d.data == ReminderData(texto, selectedDate, horario.ms)
  {
    if texto == "" || selectedDate == "" then Rejected
    else if horario.InvalidDate? then Crash
    else
      var data := ReminderData(texto, selectedDate, horario.ms);
      if editing.Some? then Update(editing.value.id, data) else Insert(data)
  }

  // ----- The month query -----

  /** Firestore's order on strings, for the characters used here: lexicographic by character. */
  predicate LexLe(a: string, b: string)
  {
    a == [] || (b != [] && (a[0] < b[0] || (a[0] == b[0] && LexLe(a[1..], b[1..]))))
  }

  /** A day as the calendar names it: "YYYY-MM-DD". */
  function DateKey(year: nat, month: Month, day: DayOfMonth): string
  {
    NatToDecimal(year) + "-" + TwoDigits(month) + "-" + TwoDigits(day)
  }

  /**
   * `fetchLembretesMes`'s bounds: the year, a dash, the month padded to two
   * digits, then "-01" and "-31".
   */
  function MonthRange(year: nat, month: Month): (r: (string, string))
    ensures r.0 == NatToDecimal(year) + "-" + TwoDigits(month) + "-01"
    ensures r.1 == NatToDecimal(year) + "-" + TwoDigits(month) + "-31"
  {
    var mm := PadStart(NatToDecimal(month), 2, '0');
    PadStartTwoDigits(month);
    (NatToDecimal(year) + "-" + mm + "-01", NatToDecimal(year) + "-" + mm + "-31")
  }

  predicate InMonthQuery(r: Reminder, year: nat, month: Month)
  {
    LexLe(MonthRange(year, month).0, r.data) && LexLe(r.data, MonthRange(year, month).1)
  }

  /** A common prefix does not change the order. */
  lemma {:induction false} LexPrefix(p: string, a: string, b: string)
    ensures LexLe(p + a, p + b) <==> LexLe(a, b)
  {
    if p != [] {
      assert (p + a)[0] == p[0] && (p + a)[1..] == p[1..] + a;
      assert (p + b)[0] == p[0] && (p + b)[1..] == p[1..] + b;
      LexPrefix(p[1..], a, b);
    } else {
      assert p + a == a && p + b == b;
    }
  }

  /** Every day of the month lies within the month's bounds. */
  lemma MonthRangeCoversMonth(year: nat, month: Month, day: DayOfMonth)
    ensures LexLe(MonthRange(year, month).0, DateKey(year, month, day))
    ensures LexLe(DateKey(year, month, day), MonthRange(year, month).1)
  {
    var p := NatToDecimal(year) + "-" + TwoDigits(month) + "-";
    var dd := TwoDigits(day);
    assert DateKey(year, month, day) == p + dd;
    assert MonthRange(year, month).0 == p + "01";
    assert MonthRange(year, month).1 == p + "31";
    LexPrefix(p, "01", dd);
    LexPrefix(p, dd, "31");
    assert dd == [Digit(day / 10), Digit(day % 10)];
    assert dd[1..] == [Digit(day % 10)] && dd[2..] == [];
    assert "01"[1..] == "1" && "31"[1..] == "1";
  }

  /** Two different months below 100 order their two-digit numerals the same way, whatever follows. */
  lemma TwoDigitsOrder(a: nat, b: nat, x: string, y: string)
    requires a < b < 100
    ensures !LexLe(TwoDigits(b) + x, TwoDigits(a) + y)
  {
    var ta, tb := TwoDigits(a), TwoDigits(b);
    assert ta == [Digit(a / 10), Digit(a % 10)] && tb == [Digit(b / 10), Digit(b % 10)];
    var u, v := tb + x, ta + y;
    assert u[0] == tb[0] && v[0] == ta[0];
    assert u[1..][0] == tb[1] && v[1..][0] == ta[1];
  }

  /** A day of another month of the same year lies outside the month's bounds. */
  lemma MonthRangeExcludesOtherMonths(year: nat, month: Month, other: Month, day: DayOfMonth)
    requires other != month
    ensures !(LexLe(MonthRange(year, month).0, DateKey(year, other, day))
              && LexLe(DateKey(year, other, day), MonthRange(year, month).1))
  {
    var p := NatToDecimal(year) + "-";
    var key := TwoDigits(other) + "-" + TwoDigits(day);
    var lo, hi := TwoDigits(month) + "-01", TwoDigits(month) + "-31";
    assert DateKey(year, other, day) == p + key;
    assert MonthRange(year, month).0 == p + lo;
    assert MonthRange(year, month).1 == p + hi;
    LexPrefix(p, lo, key);
    LexPrefix(p, key, hi);
    if other < month {
      TwoDigitsOrder(other, month, "-01", "-" + TwoDigits(day));
      assert lo == TwoDigits(month) + "-01" && key == TwoDigits(other) + ("-" + TwoDigits(day));
    } else {
      TwoDigitsOrder(month, other, "-" + TwoDigits(day), "-31");
      assert hi == TwoDigits(month) + "-31" && key == TwoDigits(other) + ("-" + TwoDigits(day));
    }
  }

  /** A reminder dated in the query's year is fetched exactly when it is dated in the query's month. */
  lemma MonthQuerySelectsMonth(r: Reminder, year: nat, month: Month, other: Month, day: DayOfMonth)
    requires r.data == DateKey(year, other, day)
    ensures InMonthQuery(r, year, month) <==> other == month
  {
    if other == month {
      MonthRangeCoversMonth(year, month, day);
    } else {
      MonthRangeExcludesOtherMonths(year, month, other, day);
    }
  }

  // ----- The screen -----

  /** The screen's state: the selected day, the fetched reminders, the form and the tooltip. */
  class LembretesScreen {
    var selectedDate: string
    var lembretes: seq<Reminder>
    var lembretesMes: seq<Reminder>
    var modalVisible: bool
    var texto: string
    var horario: Horario
    var editingLembrete: Option<Reminder>
    var tooltipVisible: bool

    /** The screen as it opens at local time `now`. */
    constructor (now: int)
      ensures selectedDate == "" && lembretes == [] && lembretesMes == []
      ensures !modalVisible && texto == "" && horario == At(now) && editingLembrete.None? && !tooltipVisible
    {
      selectedDate, lembretes, lembretesMes := "", [], [];
      modalVisible, texto, horario, editingLembrete, tooltipVisible := false, "", At(now), None, false;
    }

    /** `fetchLembretesMes`: the stored reminders whose day lies within the bounds of the current month. */
    method FetchLembretesMes(year: nat, month: Month, stored: seq<Reminder>)
      modifies this
      ensures lembretesMes == Filter(stored, (r: Reminder) => InMonthQuery(r, year, month))
      ensures selectedDate == old(selectedDate) && lembretes == old(lembretes) && modalVisible == old(modalVisible)
      ensures texto == old(texto) && horario == old(horario) && editingLembrete == old(editingLembrete)
      ensures tooltipVisible == old(tooltipVisible)
    {
      lembretesMes := Filter(stored, (r: Reminder) => InMonthQuery(r, year, month));
    }

    /** `fetchLembretes`: with a selected day, the stored reminders of that day; otherwise nothing. */
    method FetchLembretes(stored: seq<Reminder>)
      modifies this
      ensures selectedDate != "" ==> lembretes == RemindersOn(stored, selectedDate)
      ensures selectedDate == "" ==> lembretes == old(lembretes)
      ensures selectedDate == old(selectedDate) && lembretesMes == old(lembretesMes) && modalVisible == old(modalVisible)
      ensures texto == old(texto) && horario == old(horario) && editingLembrete == old(editingLembrete)
      ensures tooltipVisible == old(tooltipVisible)
    {
      if selectedDate != "" {
        lembretes := RemindersOn(stored, selectedDate);
      }
    }

    /** `onDayPress`: select the day; the tooltip shows exactly when the month has a reminder on it. */
    method OnDayPress(dateString: string)
      modifies this
      ensures selectedDate == dateString
      ensures tooltipVisible <==> dateString in Dates(lembretesMes)
      ensures lembretes == old(lembretes) && lembretesMes == old(lembretesMes) && modalVisible == old(modalVisible)
      ensures texto == old(texto) && horario == old(horario) && editingLembrete == old(editingLembrete)
    {
      selectedDate := dateString;
      tooltipVisible := HasReminderOn(lembretesMes, dateString);
    }

    /** `abrirEditar`: load the reminder's text and time into the form and open it in edit mode. */
    method AbrirEditar(lembrete: Reminder)
      modifies this
      ensures editingLembrete == Some(lembrete) && texto == lembrete.texto && horario == lembrete.horario && modalVisible
      ensures selectedDate == old(selectedDate) && lembretes == old(lembretes) && lembretesMes == old(lembretesMes)
      ensures tooltipVisible == old(tooltipVisible)
    {
      editingLembrete := Some(lembrete);
      texto := lembrete.texto;
      horario := lembrete.horario;
      modalVisible := true;
    }

    /** `limparFormulario`: empty text, the time reset to now, no reminder being edited, the form closed. */
    method LimparFormulario(now: int)
      modifies this
      ensures texto == "" && horario == At(now) && editingLembrete.None? && !modalVisible
      ensures selectedDate == old(selectedDate) && lembretes == old(lembretes) && lembretesMes == old(lembretesMes)
      ensures tooltipVisible == old(tooltipVisible)
    {
      texto := "";
      horario := At(now);
      editingLembrete := None;
      modalVisible := false;
    }

    /**
     * `salvarLembrete`: decide what to write; when a write is made and
     * succeeds the form is cleared, otherwise the form is left as it was.
     */
    method SalvarLembrete(now: int, writeOk: bool) returns (decision: SaveDecision)
      modifies this
      ensures decision == SaveRequest(old(texto), old(selectedDate), old(horario), old(editingLembrete))
      ensures (decision.Update? || decision.Insert?) && writeOk ==>
        texto == "" && horario == At(now) && editingLembrete.None? && !modalVisible
      ensures !((decision.Update? || decision.Insert?) && writeOk) ==>
        texto == old(texto) && horario == old(horario) && editingLembrete == old(editingLembrete)
        && modalVisible == old(modalVisible)
      ensures selectedDate == old(selectedDate) && lembretes == old(lembretes) && lembretesMes == old(lembretesMes)
      ensures tooltipVisible == old(tooltipVisible)
    {
      decision := SaveRequest(texto, selectedDate, horario, editingLembrete);
      if (decision.Update? || decision.Insert?) && writeOk {
        LimparFormulario(now);
      }
    }

    /** `handleTimeInputChange`: set the form's time to the hour and minute typed, on the same day. */
    method HandleTimeInputChange(text: string)
      modifies this
      ensures horario == SetHours(old(horario), ParseTimeInput(text).0, ParseTimeInput(text).1)
      ensures selectedDate == old(selectedDate) && lembretes == old(lembretes) && lembretesMes == old(lembretesMes)
      ensures texto == old(texto) && editingLembrete == old(editingLembrete) && modalVisible == old(modalVisible)
      ensures tooltipVisible == old(tooltipVisible)
    {
      var (hours, minutes) := ParseTimeInput(text);
      horario := SetHours(horario, hours, minutes);
    }
  }
}
