/**
 * The quick-add form (src/components/TaskForm.tsx): a title, an event type and a
 * local start time in the `YYYY-MM-DDTHH:MM` layout of a datetime-local input,
 * handed to the `onAdd` callback at most once at a time.
 */
module TaskForm {
  import opened Wrappers
  import opened JsText
  import opened DateUtil

  /** The options of the type selector. */
  datatype EventType = Work | Personal | Pet

  /** The option's value, which is also the text stored in an event's `type`. */
  function TypeLabel(t: EventType): string {
    match t
    case Work => "Work"
    case Personal => "Personal"
    case Pet => "Pet"
  }

  // ---- The default start time ----

  /** `Math.ceil(m / 30) * 30` for a minute of the hour: the first half-hour mark not before `m`. */
  function CeilToHalfHour(m: int): (r: int)
    requires 0 <= m < 60
    ensures r % 30 == 0 && m <= r < m + 30
    ensures r == 0 || r == 30 || r == 60
  {
    (m + 29) / 30 * 30
  }

  /** The minute of the hour, second and millisecond fields of a local time value. */
  function MinuteOf(lt: int): int { (lt / MsPerMinute) % 60 }

  /** The local time value with its minutes, seconds and milliseconds cleared. */
  function HourStart(lt: int): int { lt - lt % MsPerHour }

  /**
   * `d.setMinutes(min, sec, ms)` on a Date whose local time value is `lt`: the same
   * local day and hour with the given minute, second and millisecond. A minute of 60
   * or more carries into the following hour, and from there into the next day.
   */
  function SetMinutes(lt: int, min: int, sec: int, ms: int): (r: int)
    ensures r == HourStart(lt) + min * MsPerMinute + sec * 1000 + ms
  {
    DayAndHourIsHourStart(lt);
    (lt / MsPerDay) * MsPerDay + ((lt / MsPerHour) % 24) * MsPerHour + min * MsPerMinute + sec * 1000 + ms
  }

  /** The day-and-hour part of `SetMinutes` is the start of the hour. */
  lemma DayAndHourIsHourStart(lt: int)
    ensures (lt / MsPerDay) * MsPerDay + ((lt / MsPerHour) % 24) * MsPerHour == HourStart(lt)
  {
  }

  /** Within an hour, the minute field counts whole minutes since the start of the hour. */
  lemma MinuteWithinHour(lt: int)
    ensures lt % MsPerHour == MinuteOf(lt) * MsPerMinute + lt % MsPerMinute
  {
  }

  /** A multiple of 30 minutes past the start of an hour lies on a half-hour mark. */
  lemma HalfHourMark(lt: int, c: int)
    requires c == 0 || c == 30 || c == 60
    ensures (HourStart(lt) + c * MsPerMinute) % (30 * MsPerMinute) == 0
  {
    var k := lt / MsPerHour;
    assert HourStart(lt) == k * MsPerHour;
    var q := 2 * k + c / 30;
    assert HourStart(lt) + c * MsPerMinute == q * (30 * MsPerMinute);
    MultipleOfHalfHour(HourStart(lt) + c * MsPerMinute, q);
  }

  lemma MultipleOfHalfHour(x: int, q: int)
    requires x == q * (30 * MsPerMinute)
    ensures x % (30 * MsPerMinute) == 0
  {
  }

  /** Whole minutes past the start of an hour are read back by the minute field, modulo the hour. */
  lemma MinuteAfterHourStart(lt: int, c: int)
    requires 0 <= c <= 60
    ensures MinuteOf(HourStart(lt) + c * MsPerMinute) == c % 60
  {
    var k := lt / MsPerHour;
    var x := HourStart(lt) + c * MsPerMinute;
    assert x == (60 * k + c) * MsPerMinute;
    assert x / MsPerMinute == 60 * k + c;
  }

  /**
   * The default start the form proposes for a clock whose local time value is `lt`:
   * the minute rounded up to a half-hour mark, seconds and milliseconds cleared.
   * The result lies on a half-hour mark, less than a minute before `lt` (the
   * seconds of the current minute are dropped) and less than half an hour after it;
   * past the half hour it is the start of the next hour.
   */
  function DefaultStart(lt: int): (r: int)
    ensures r % (30 * MsPerMinute) == 0
    ensures lt - MsPerMinute < r < lt + 30 * MsPerMinute
    ensures MinuteOf(lt) > 30 ==> r == HourStart(lt) + MsPerHour
    ensures MinuteOf(lt) == 0 ==> r == HourStart(lt)
    ensures 1 <= MinuteOf(lt) <= 30 ==> r == HourStart(lt) + 30 * MsPerMinute
  {
    var c := CeilToHalfHour(MinuteOf(lt));
    MinuteWithinHour(lt);
    HalfHourMark(lt, c);
    SetMinutes(lt, c, 0, 0)
  }

  // ---- The datetime-local layout ----

  /** The local fields of a Date that the form shows: month counted from 0. */
  datatype LocalFields = LocalFields(year: int, month: int, date: int, hours: int, minutes: int)

  /** What the local getters of a Date report, given its local time value. */
  function FieldsAt(z: Zone, lt: int): LocalFields {
    var day := z.calendar(lt / MsPerDay);
    LocalFields(day.year, day.month, day.date, (lt / MsPerHour) % 24, MinuteOf(lt))
  }

  /** The default start shows a minute of 0 or 30. */
  lemma DefaultStartMinute(z: Zone, lt: int)
    ensures FieldsAt(z, DefaultStart(lt)).minutes == 0 || FieldsAt(z, DefaultStart(lt)).minutes == 30
  {
    var c := CeilToHalfHour(MinuteOf(lt));
    assert DefaultStart(lt) == HourStart(lt) + c * MsPerMinute;
    MinuteAfterHourStart(lt, c);
  }

  /**
   * `toDatetimeLocalValue(d)`: the year as `String` prints it, then month (shown as
   * `getMonth() + 1`), day, hours and minutes each padded to two digits.
   */
  function ToDatetimeLocalValue(f: LocalFields): (r: string)
    ensures InRange(f) ==>
              Placed(r, IntToString(f.year), Pad2(f.month + 1), Pad2(f.date), Pad2(f.hours), Pad2(f.minutes))
  {
    var y, mo, d, h, mi := IntToString(f.year), Pad2(f.month + 1), Pad2(f.date), Pad2(f.hours), Pad2(f.minutes);
    assert InRange(f) ==> Placed(y + "-" + mo + "-" + d + "T" + h + ":" + mi, y, mo, d, h, mi) by {
      if InRange(f) {
        GroupsPlaced(f);
      }
    }
    y + "-" + mo + "-" + d + "T" + h + ":" + mi
  }

  /** In range, the year's numeral and the padded fields are digit groups of the layout's widths. */
  lemma GroupsPlaced(f: LocalFields)
    requires InRange(f)
    ensures var y, mo, d, h, mi := IntToString(f.year), Pad2(f.month + 1), Pad2(f.date), Pad2(f.hours), Pad2(f.minutes);
            Placed(y + "-" + mo + "-" + d + "T" + h + ":" + mi, y, mo, d, h, mi)
  {
    var y, mo, d, h, mi := IntToString(f.year), Pad2(f.month + 1), Pad2(f.date), Pad2(f.hours), Pad2(f.minutes);
    NatToStringLength4(f.year);
    assert |y| == 4 && AllDigits(y);
    assert |mo| == 2 && AllDigits(mo) && |d| == 2 && AllDigits(d);
    assert |h| == 2 && AllDigits(h) && |mi| == 2 && AllDigits(mi);
    LayoutChars(y, mo, d, h, mi);
  }

  /** Fields a four-digit-year date can have. */
  predicate InRange(f: LocalFields) {
    1000 <= f.year <= 9999 && 0 <= f.month < 12 && 1 <= f.date <= 31
    && 0 <= f.hours < 24 && 0 <= f.minutes < 60
  }

  predicate AllDigits(s: string) {
    forall k :: 0 <= k < |s| ==> IsDigit(s[k])
  }

  /** The `n` characters of `s` from `i` on are digits. */
  predicate DigitsAt(s: string, i: nat, n: nat) {
    i + n <= |s| && forall k :: i <= k < i + n ==> IsDigit(s[k])
  }

  /** The number written by the two digits at `i` and `i + 1`. */
  function TwoDigits(s: string, i: nat): nat
    requires DigitsAt(s, i, 2)
  {
    DigitValue(s[i]) * 10 + DigitValue(s[i + 1])
  }

  /** Text in the `YYYY-MM-DDTHH:MM` layout: digits at their places, separators between. */
  predicate IsDatetimeLocal(s: string) {
    |s| == 16 && s[4] == '-' && s[7] == '-' && s[10] == 'T' && s[13] == ':'
    && DigitsAt(s, 0, 4) && DigitsAt(s, 5, 2) && DigitsAt(s, 8, 2)
    && DigitsAt(s, 11, 2) && DigitsAt(s, 14, 2)
  }

  /** The fields the digits of such a text denote, read by position; the month counted from 0. */
  function FieldsOf(s: string): LocalFields
    requires IsDatetimeLocal(s)
  {
    LocalFields(
      TwoDigits(s, 0) * 100 + TwoDigits(s, 2), TwoDigits(s, 5) - 1, TwoDigits(s, 8),
      TwoDigits(s, 11), TwoDigits(s, 14))
  }

  /** A reader of the `YYYY-MM-DDTHH:MM` layout, the reference the formatter is checked against. */
  function ParseDatetimeLocal(s: string): Option<LocalFields> {
    if IsDatetimeLocal(s) then Some(FieldsOf(s)) else None
  }

  /** Where each character of the five groups and the separators sits in the joined text. */
  lemma LayoutChars(y: string, mo: string, d: string, h: string, mi: string)
    requires |y| == 4 && |mo| == 2 && |d| == 2 && |h| == 2 && |mi| == 2
    ensures var s := y + "-" + mo + "-" + d + "T" + h + ":" + mi;
            |s| == 16
            && s[0] == y[0] && s[1] == y[1] && s[2] == y[2] && s[3] == y[3] && s[4] == '-'
            && s[5] == mo[0] && s[6] == mo[1] && s[7] == '-' && s[8] == d[0] && s[9] == d[1]
            && s[10] == 'T' && s[11] == h[0] && s[12] == h[1] && s[13] == ':'
            && s[14] == mi[0] && s[15] == mi[1]
  {
  }

  /** Two digits placed at `i` read as the number they write. */
  lemma ReadPair(s: string, i: nat, g: string)
    requires |g| == 2 && AllDigits(g) && i + 2 <= |s| && s[i] == g[0] && s[i + 1] == g[1]
    ensures DigitsAt(s, i, 2) && TwoDigits(s, i) == DecimalValue(g)
  {
    DecimalValue2(g);
  }

  /** Four digits placed at the start read as the number they write. */
  lemma ReadYear(s: string, y: string)
    requires |y| == 4 && AllDigits(y) && 4 <= |s|
    requires s[0] == y[0] && s[1] == y[1] && s[2] == y[2] && s[3] == y[3]
    ensures DigitsAt(s, 0, 4) && TwoDigits(s, 0) * 100 + TwoDigits(s, 2) == DecimalValue(y)
  {
    DecimalValue4(y);
  }

  /** `s` holds the digit groups `y`, `mo`, `d`, `h`, `mi` and the separators at their places. */
  predicate Placed(s: string, y: string, mo: string, d: string, h: string, mi: string) {
    |y| == 4 && |mo| == 2 && |d| == 2 && |h| == 2 && |mi| == 2
    && AllDigits(y) && AllDigits(mo) && AllDigits(d) && AllDigits(h) && AllDigits(mi)
    && |s| == 16
    && s[0] == y[0] && s[1] == y[1] && s[2] == y[2] && s[3] == y[3] && s[4] == '-'
    && s[5] == mo[0] && s[6] == mo[1] && s[7] == '-' && s[8] == d[0] && s[9] == d[1]
    && s[10] == 'T' && s[11] == h[0] && s[12] == h[1] && s[13] == ':'
    && s[14] == mi[0] && s[15] == mi[1]
  }

  /** The reader gives back the fields whose digits a text holds at their places. */
  lemma ReadLayout(s: string, y: string, mo: string, d: string, h: string, mi: string)
    requires Placed(s, y, mo, d, h, mi)
    ensures ParseDatetimeLocal(s)
            == Some(LocalFields(DecimalValue(y), DecimalValue(mo) - 1, DecimalValue(d),
                                DecimalValue(h), DecimalValue(mi)))
  {
    ReadYear(s, y);
    ReadPair(s, 5, mo);
    ReadPair(s, 8, d);
    ReadPair(s, 11, h);
    ReadPair(s, 14, mi);
    assert IsDatetimeLocal(s);
    assert FieldsOf(s) == LocalFields(DecimalValue(y), DecimalValue(mo) - 1, DecimalValue(d),
                                      DecimalValue(h), DecimalValue(mi));
  }

  /** For a four-digit year the formatter writes exactly `YYYY-MM-DDTHH:MM`, which reads back to the same fields. */
  lemma FormatThenParse(f: LocalFields)
    requires InRange(f)
    ensures |ToDatetimeLocalValue(f)| == 16
    ensures ParseDatetimeLocal(ToDatetimeLocalValue(f)) == Some(f)
  {
    NatToStringValue(f.year);
    ReadLayout(ToDatetimeLocalValue(f), IntToString(f.year), Pad2(f.month + 1), Pad2(f.date),
               Pad2(f.hours), Pad2(f.minutes));
  }

  // ---- The form ----

  /** What `onAdd` did: returned normally (its promise resolved) or threw (its promise rejected). */
  datatype CallbackOutcome = Returned | Threw

  /** The arguments of one `onAdd` call: the trimmed title, the type's text and the ISO start. */
  datatype Submission = Submission(title: string, eventType: string, startTime: string)

  /**
   * What `doAdd` did: nothing because the form could not add, failed before the call
   * because the start did not convert to an ISO string, or called `onAdd`.
   */
  datatype AddAttempt = Skipped | BadStart | Called(submission: Submission, outcome: CallbackOutcome)

  class Form {
    var title: string
    var eventType: EventType
    var startLocal: string
    var submitting: bool

    /** The state before the mount effect: empty title and start, type Work. */
    constructor ()
      ensures title == "" && eventType == Work && startLocal == "" && !submitting
    {
      title, eventType, startLocal, submitting := "", Work, "", false;
    }

    /** The mount effect: the start is set to the default for the clock reading `now`. */
    method Mount(z: Zone, now: TimeValue)
      modifies this
      ensures startLocal == ToDatetimeLocalValue(FieldsAt(z, DefaultStart(LocalTime(z, now))))
      ensures title == old(title) && eventType == old(eventType) && submitting == old(submitting)
    {
      var lt := DefaultStart(LocalTime(z, now));
      startLocal := ToDatetimeLocalValue(FieldsAt(z, lt));
    }

    method SetTitle(value: string)
      modifies this
      ensures title == value
      ensures eventType == old(eventType) && startLocal == old(startLocal) && submitting == old(submitting)
    {
      title := value;
    }

    method SetType(value: EventType)
      modifies this
      ensures eventType == value
      ensures title == old(title) && startLocal == old(startLocal) && submitting == old(submitting)
    {
      eventType := value;
    }

    method SetStartLocal(value: string)
      modifies this
      ensures startLocal == value
      ensures title == old(title) && eventType == old(eventType) && submitting == old(submitting)
    {
      startLocal := value;
    }

    /**
     * `canAdd`: the title holds something other than whitespace, a start is set
     * and no submission is in flight.
     */
    predicate CanAdd()
      reads this
      ensures CanAdd() <==> !AllWhitespace(title) && startLocal != "" && !submitting
    {
      TrimEmptyIff(title);
      |Trim(title)| > 0 && |startLocal| > 0 && !submitting
    }

    /**
     * `doAdd`, one sequential step: `toIso` is `datetimeLocalToIso` (`None` when it
     * throws) and `outcome` what the `onAdd` call did. When the form cannot add,
     * nothing happens. Otherwise `onAdd` gets the trimmed title, which is never
     * empty, with the current type; only a normal return clears the title; type and
     * start are kept, and `submitting` is false again afterwards in every case.
     */
    method DoAdd(toIso: string -> Option<string>, outcome: CallbackOutcome) returns (attempt: AddAttempt)
      modifies this
      ensures !old(CanAdd()) ==>
                attempt == Skipped && title == old(title) && submitting == old(submitting)
      ensures old(CanAdd()) ==> !submitting
      ensures eventType == old(eventType) && startLocal == old(startLocal)
      ensures old(CanAdd()) && toIso(old(startLocal)).None? ==>
                attempt == BadStart && title == old(title)
      ensures old(CanAdd()) && toIso(old(startLocal)).Some? ==>
                attempt == Called(Submission(Trim(old(title)), TypeLabel(old(eventType)),
                                             toIso(old(startLocal)).value), outcome)
                && title == (if outcome == Returned then "" else old(title))
      ensures attempt.Called? ==> attempt.submission.title != ""
    {
      if !CanAdd() {
        return Skipped;
      }
      var trimmed := Trim(title);
      assert trimmed != [];
      submitting := true;
      var iso := toIso(startLocal);
      if iso.None? {
        attempt := BadStart;
      } else {
        attempt := Called(Submission(trimmed, TypeLabel(eventType), iso.value), outcome);
        if outcome == Returned {
          title := "";
        }
      }
      submitting := false;
    }
  }
}
