/**
 * The Material date adapter for Brazilian dates (src/app/shared/date-adapters/pt-br-date-adapter.ts):
 * `parse` accepts a valid Date object as it is, and a string only when, once trimmed, it is
 * exactly `dd/MM/yyyy` naming a day that exists.
 */
module PtBrDateAdapter {
  import opened Wrappers
  import opened Strings
  import opened Calendar
  import DateMask

  /** What `parse` may be handed. */
  datatype AdapterInput =
    | Null
    | Undefined
    | ValidDateObject(date: Date)
    | InvalidDateObject
    | Text(s: string)
    | OtherValue

  /** `/^(\d{2})\/(\d{2})\/(\d{4})$/` */
  predicate IsDdMmYyyy(t: string) {
    && |t| == 10 && t[2] == '/' && t[5] == '/'
    && AllDigits(t[..2]) && AllDigits(t[3..5]) && AllDigits(t[6..])
  }

  function DayField(t: string): nat requires IsDdMmYyyy(t) { ParseNat(t[..2]) }
  function MonthField(t: string): nat requires IsDdMmYyyy(t) { ParseNat(t[3..5]) }
  function YearField(t: string): nat requires IsDdMmYyyy(t) { ParseNat(t[6..]) }

  /**
   * The string branch of `parse`: a date exactly when the trimmed text has the strict shape, the
   * date exists, and the year is not one of 0-99 (which `new Date` would turn into 1900-1999).
   * There is no other bound on the year.
   */
  function ParseText(s: string): (r: Option<Date>)
    ensures var t := Trim(s);
      r.Some? <==> IsDdMmYyyy(t) && YearField(t) >= 100 && IsValidDate(Date(YearField(t), MonthField(t), DayField(t)))
    ensures r.Some? ==> var t := Trim(s); r.value == Date(YearField(t), MonthField(t), DayField(t))
  {
    var t := Trim(s);
    if t == "" then None
    else if !IsDdMmYyyy(t) then None
    else
      var dd, mm, yyyy := DayField(t), MonthField(t), YearField(t);
      if mm < 1 || mm > 12 then None
      else if dd < 1 || dd > 31 then None
      else if !JsDateRoundTrips(yyyy, mm, dd) then None
      else Some(Date(yyyy, mm, dd))
  }

  /** `parse(value)` */
  function Parse(value: AdapterInput): (r: Option<Date>)
    ensures value.Null? || value.Undefined? ==> r == None
    ensures value.ValidDateObject? ==> r == Some(value.date)
    ensures value.InvalidDateObject? || value.OtherValue? ==> r == None
    ensures value.Text? ==> r == ParseText(value.s)
  {
    match value
    case Null => None
    case Undefined => None
    case ValidDateObject(d) => Some(d)
    case Text(s) => ParseText(s)
    case _ => None
  }

  /** Any well-shaped text with a year below 100 is refused, even when the day exists. */
  lemma TwoDigitYearsRejected(s: string)
    requires IsDdMmYyyy(Trim(s)) && YearField(Trim(s)) < 100
    ensures ParseText(s) == None
  {
  }

  /**
   * The directive and the adapter agree: on eight digits with a year in 1900-2200 the directive's
   * parse is the adapter's parse of the masked text, and outside that range only the directive refuses.
   */
  lemma AgreesWithDateMask(digits: string)
    requires |digits| == DateMask.MaxDigits && AllDigits(digits)
    ensures DateMask.ParseDdMmYyyy(digits) ==
      if 1900 <= ParseNat(digits[4..]) <= 2200 then ParseText(DateMask.ApplyMask(digits)) else None
  {
    var t := DateMask.ApplyMask(digits);
    assert t == digits[..2] + "/" + digits[2..4] + "/" + digits[4..];
    TrimOfTrimmed(t);
    assert t[..2] == digits[..2];
    assert t[3..5] == digits[2..4];
    assert t[6..] == digits[4..];
  }

  /** The three fields of a well-shaped text, digit by digit. */
  lemma TextFields(t: string)
    requires IsDdMmYyyy(t)
    ensures DayField(t) == 10 * DigitValue(t[0]) + DigitValue(t[1])
    ensures MonthField(t) == 10 * DigitValue(t[3]) + DigitValue(t[4])
    ensures YearField(t) == 1000 * DigitValue(t[6]) + 100 * DigitValue(t[7]) + 10 * DigitValue(t[8]) + DigitValue(t[9])
  {
    ParseTwoDigits(t[..2]);
    ParseTwoDigits(t[3..5]);
    ParseFourDigits(t[6..]);
  }

  /** Years past 2200 pass here though the directive refuses them. */
  lemma NoUpperYearBound()
    ensures ParseText("01/01/2300") == Some(Date(2300, 1, 1))
    ensures DateMask.ParseDdMmYyyy("01012300") == None
  {
    var t := "01/01/2300";
    TrimOfTrimmed(t);
    assert IsDdMmYyyy(t);
    TextFields(t);
    assert DayField(t) == 1 && MonthField(t) == 1 && YearField(t) == 2300;
    assert ParseText(t) == Some(Date(2300, 1, 1));
    DateMask.DigitFields("01012300");
  }
}
