/**
 * The `appDateMask` directive (src/app/shared/directives/date-mask.directive.ts): a text field
 * that accepts at most eight digits and shows them as `dd/MM/yyyy` while they are typed, and
 * that hands its form control a date only once all eight digits are there.
 */
module DateMask {
  import opened Wrappers
  import opened Strings
  import opened Calendar

  /** `ddMMyyyy` */
  const MaxDigits := 8
  /** `dd/MM/yyyy` */
  const MaxLen := 10

  // ---------------------------------------------------------------- mask

  /** `applyMask`: a '/' after the first two digits and another after the next two, as far as they go. */
  function ApplyMask(digits: string): (r: string)
    ensures |r| == |digits| + (if |digits| > 4 then 2 else if |digits| > 2 then 1 else 0)
    ensures |digits| <= MaxDigits ==> |r| <= MaxLen
  {
    if |digits| <= 2 then digits
    else if |digits| <= 4 then digits[..2] + "/" + digits[2..]
    else digits[..2] + "/" + digits[2..4] + "/" + digits[4..]
  }

  /** `s` with every '/' removed. */
  function RemoveSlashes(s: string): (r: string)
    ensures |r| <= |s| && '/' !in r
  {
    if s == [] then [] else (if s[0] == '/' then [] else [s[0]]) + RemoveSlashes(s[1..])
  }

  lemma {:induction false} RemoveSlashesAppend(a: string, b: string)
    ensures RemoveSlashes(a + b) == RemoveSlashes(a) + RemoveSlashes(b)
  {
    if a == [] {
      assert a + b == b;
    } else {
      var head := if a[0] == '/' then [] else [a[0]];
      assert (a + b)[0] == a[0] && (a + b)[1..] == a[1..] + b;
      assert RemoveSlashes(a + b) == head + RemoveSlashes(a[1..] + b);
      RemoveSlashesAppend(a[1..], b);
      assert RemoveSlashes(a) == head + RemoveSlashes(a[1..]);
    }
  }

  lemma {:induction false} RemoveSlashesOfDigits(s: string)
    requires AllDigits(s)
    ensures RemoveSlashes(s) == s
  {
    if s != [] {
      RemoveSlashesOfDigits(s[1..]);
    }
  }

  lemma RemoveSlashesAround(a: string, b: string)
    ensures RemoveSlashes(a + "/" + b) == RemoveSlashes(a) + RemoveSlashes(b)
  {
    var slash := "/";
    assert RemoveSlashes(slash) == [] by { assert slash[0] == '/' && slash[1..] == []; }
    RemoveSlashesAppend(a, slash);
    RemoveSlashesAppend(a + slash, b);
  }

  lemma DigitsAround(a: string, b: string)
    ensures Digits(a + "/" + b) == Digits(a) + Digits(b)
  {
    var slash := "/";
    assert Digits(slash) == [] by { assert slash[0] == '/' && slash[1..] == []; }
    DigitsAppend(a, slash);
    DigitsAppend(a + slash, b);
  }

  /** Whatever the input, the mask adds nothing but slashes. */
  lemma {:induction false} MaskAddsOnlySlashes(s: string)
    ensures RemoveSlashes(ApplyMask(s)) == RemoveSlashes(s)
    ensures Digits(ApplyMask(s)) == Digits(s)
  {
    if |s| <= 2 {
    } else if |s| <= 4 {
      var a, b := s[..2], s[2..];
      assert a + b == s;
      RemoveSlashesAround(a, b);
      RemoveSlashesAppend(a, b);
      DigitsAround(a, b);
      DigitsAppend(a, b);
    } else {
      var a, b, c := s[..2], s[2..4], s[4..];
      var ab := a + "/" + b;
      assert ApplyMask(s) == ab + "/" + c;
      assert (a + b) + c == s;
      RemoveSlashesAround(ab, c);
      RemoveSlashesAround(a, b);
      RemoveSlashesAppend(a, b);
      RemoveSlashesAppend(a + b, c);
      DigitsAround(ab, c);
      DigitsAround(a, b);
      DigitsAppend(a, b);
      DigitsAppend(a + b, c);
    }
  }

  /** The mask only inserts separators: removing the slashes gives the digits back. */
  lemma MaskRemovable(digits: string)
    requires AllDigits(digits)
    ensures RemoveSlashes(ApplyMask(digits)) == digits
  {
    MaskAddsOnlySlashes(digits);
    RemoveSlashesOfDigits(digits);
  }

  /** Filtering the digits out of a masked value gives the digits it was made from. */
  lemma MaskKeepsDigits(digits: string)
    requires AllDigits(digits)
    ensures Digits(ApplyMask(digits)) == digits
  {
    MaskAddsOnlySlashes(digits);
    DigitsOfDigits(digits);
  }

  /** Slashes stand at index 2 (past two digits) and index 5 (past four digits) and nowhere else. */
  lemma MaskSlashPositions(digits: string)
    requires AllDigits(digits)
    ensures forall i :: 0 <= i < |ApplyMask(digits)| ==>
      (ApplyMask(digits)[i] == '/' <==> (i == 2 && |digits| > 2) || (i == 5 && |digits| > 4))
  {
  }

  // -------------------------------------------------------- field text

  /** The digits `onInput` keeps: those of the text, at most eight. */
  function ExtractDigits(text: string): (r: string)
    ensures AllDigits(r) && |r| <= MaxDigits
    ensures |r| == if |Digits(text)| < MaxDigits then |Digits(text)| else MaxDigits
    ensures r == Digits(text)[..|r|]
  {
    Take(Digits(text), MaxDigits)
  }

  /** The text `onInput` writes back into the field. */
  function Masked(text: string): (r: string)
    ensures r == ApplyMask(ExtractDigits(text))
  {
    Take(ApplyMask(ExtractDigits(text)), MaxLen)
  }

  /** A masked field holds only digits and slashes, at most eight digits, at most ten characters. */
  lemma MaskedShape(text: string)
    ensures forall i :: 0 <= i < |Masked(text)| ==> IsDigit(Masked(text)[i]) || Masked(text)[i] == '/'
    ensures |Digits(Masked(text))| <= MaxDigits && |Masked(text)| <= MaxLen
  {
    MaskKeepsDigits(ExtractDigits(text));
  }

  /** Masking digits of a masked value again finds the same digits. */
  lemma ExtractOfMask(digits: string)
    requires AllDigits(digits) && |digits| <= MaxDigits
    ensures ExtractDigits(ApplyMask(digits)) == digits
  {
    MaskKeepsDigits(digits);
  }

  /** A second `input` event leaves the field as the first one left it. */
  lemma MaskedIdempotent(text: string)
    ensures Masked(Masked(text)) == Masked(text)
  {
    ExtractOfMask(ExtractDigits(text));
  }

  // --------------------------------------------------------------- parse

  /**
   * `parseDdMmYyyy` on eight digits: the date when the year lies in 1900-2200 and the day exists
   * in that month of that year (so 31/02, and 29/02 outside leap years, are refused).
   */
  function ParseDdMmYyyy(digits: string): (r: Option<Date>)
    requires |digits| == MaxDigits && AllDigits(digits)
    ensures var day, month, year := ParseNat(digits[..2]), ParseNat(digits[2..4]), ParseNat(digits[4..]);
      && (r.Some? <==> 1900 <= year <= 2200 && IsValidDate(Date(year, month, day)))
      && (r.Some? ==> r.value == Date(year, month, day))
  {
    var day := ParseNat(digits[..2]);
    var month := ParseNat(digits[2..4]);
    var year := ParseNat(digits[4..]);
    if year < 1900 || year > 2200 then None
    else if month < 1 || month > 12 then None
    else if day < 1 || day > 31 then None
    else if !JsDateRoundTrips(year, month, day) then None
    else Some(Date(year, month, day))
  }

  /** The three fields of eight digits, digit by digit. */
  lemma DigitFields(digits: string)
    requires |digits| == MaxDigits && AllDigits(digits)
    ensures ParseNat(digits[..2]) == 10 * DigitValue(digits[0]) + DigitValue(digits[1])
    ensures ParseNat(digits[2..4]) == 10 * DigitValue(digits[2]) + DigitValue(digits[3])
    ensures ParseNat(digits[4..]) ==
      1000 * DigitValue(digits[4]) + 100 * DigitValue(digits[5]) + 10 * DigitValue(digits[6]) + DigitValue(digits[7])
  {
    ParseTwoDigits(digits[..2]);
    ParseTwoDigits(digits[2..4]);
    ParseFourDigits(digits[4..]);
  }

  /** 29 February is accepted in a leap year. */
  lemma LeapDayAccepted()
    ensures ParseDdMmYyyy("29022024") == Some(Date(2024, 2, 29))
  {
    DigitFields("29022024");
  }

  /** 29 February is refused outside leap years. */
  lemma NonLeapDayRefused()
    ensures ParseDdMmYyyy("29022023") == None
  {
    DigitFields("29022023");
    assert !IsLeapYear(2023);
  }

  /** 31 February is refused even in a leap year. */
  lemma ThirtyFirstFebruaryRefused()
    ensures ParseDdMmYyyy("31022024") == None
  {
    DigitFields("31022024");
  }

  /** 1900 is the first year accepted. */
  lemma YearLowerBound()
    ensures ParseDdMmYyyy("01011899") == None
    ensures ParseDdMmYyyy("01011900") == Some(Date(1900, 1, 1))
  {
    DigitFields("01011899");
    DigitFields("01011900");
  }

  /** 2200 is the last year accepted. */
  lemma YearUpperBound()
    ensures ParseDdMmYyyy("01012200") == Some(Date(2200, 1, 1))
    ensures ParseDdMmYyyy("01012201") == None
  {
    DigitFields("01012200");
    DigitFields("01012201");
  }

  // ---------------------------------------------------------------- keys

  const NavigationKeys := ["Backspace", "Delete", "Tab", "Escape", "Enter", "ArrowLeft", "ArrowRight", "Home", "End"]
  const ShortcutKeys := ["a", "c", "v", "x"]

  /** The directive on one input element; `control` is the bound form control's value (None for null). */
  class DateMaskDirective {
    /** `input.value` */
    var value: string
    /** whether an NgControl is bound to the element */
    const hasControl: bool
    var control: Option<Date>

    constructor (value: string, hasControl: bool, control: Option<Date>)
      ensures this.value == value && this.hasControl == hasControl && this.control == control
    {
      this.value := value;
      this.hasControl := hasControl;
      this.control := control;
    }

    /** `onKeyDown`: whether the key press is cancelled. */
    method OnKeyDown(key: string, ctrlKey: bool, metaKey: bool) returns (prevented: bool)
      ensures key in NavigationKeys ==> !prevented
      ensures (ctrlKey || metaKey) && Lower(key) in ShortcutKeys ==> !prevented
      ensures key !in NavigationKeys && !((ctrlKey || metaKey) && Lower(key) in ShortcutKeys) ==>
        (prevented <==> !(|key| == 1 && IsDigit(key[0])) || |value| >= MaxLen)
    {
      if key in NavigationKeys {
        return false;
      }
      if (ctrlKey || metaKey) && Lower(key) in ShortcutKeys {
        return false;
      }
      if !(|key| == 1 && IsDigit(key[0])) {
        return true;
      }
      prevented := |value| >= MaxLen;
    }

    /**
     * `onInput`: re-mask the field; with a bound control, clear it when no digit is left, set it to
     * the parsed date (or null) when all eight are there, and leave it alone in between.
     */
    method OnInput()
      modifies this
      ensures value == Masked(old(value))
      ensures var digits := ExtractDigits(old(value));
        control == if !hasControl || 0 < |digits| < MaxDigits then old(control)
                   else if digits == [] then None
                   else ParseDdMmYyyy(digits)
    {
      var digits := Take(Digits(value), MaxDigits);
      value := Take(ApplyMask(digits), MaxLen);
      if !hasControl {
        return;
      }
      if |digits| == 0 {
        control := None;
        return;
      }
      if |digits| == MaxDigits {
        control := ParseDdMmYyyy(digits);
      }
    }

    /**
     * `onPaste`: always cancels the browser's paste, writes the masked first eight digits of the
     * clipboard text, and lets the `input` handler run on the result.
     */
    method OnPaste(pasted: Option<string>) returns (prevented: bool)
      modifies this
      ensures prevented
      ensures value == ApplyMask(ExtractDigits(pasted.GetOr("")))
      ensures var digits := ExtractDigits(pasted.GetOr(""));
        control == if !hasControl || 0 < |digits| < MaxDigits then old(control)
                   else if digits == [] then None
                   else ParseDdMmYyyy(digits)
    {
      prevented := true;
      var text := pasted.GetOr("");
      var digits := Take(Digits(text), MaxDigits);
      value := ApplyMask(digits);
      ExtractOfMask(digits);
      OnInput();
    }
  }
}
