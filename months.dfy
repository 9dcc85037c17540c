/**
 * Month keys: the `YYYY-MM` text that selects a month, the validation of
 * the month picker's text, stepping a month back, and the three keys the
 * dashboard compares (selected month, previous month, same month last year).
 */
module MonthKeys {
  import opened Strings

  /** A month as the dashboard holds it: a year and a 0-based month index (January is 0). */
  datatype MonthParts = MonthParts(year: int, monthIndex: int)

  predicate ValidMonthIndex(mi: int)
  {
    0 <= mi < 12
  }

  /** `s.padStart(2, "0")`. */
  function PadStart2(s: string): (r: string)
    ensures |r| == if |s| >= 2 then |s| else 2
    ensures r[|r| - |s|..] == s
    ensures forall i :: 0 <= i < |r| - |s| ==> r[i] == '0'
  {
    if |s| >= 2 then s else if |s| == 1 then "0" + s else "00"
  }

  /** `monthKeyFromParts`: the year in decimal, a dash, the 1-based month padded to two digits. */
  function MonthKeyFromParts(year: int, monthIndex: int): string
  {
    IntToString(year) + "-" + PadStart2(IntToString(monthIndex + 1))
  }

  /** A four-digit year and a valid month give a key the month picker accepts. */
  lemma MonthKeyIsMonthText(year: int, monthIndex: int)
    requires 1000 <= year <= 9999 && ValidMonthIndex(monthIndex)
    ensures IsMonthText(MonthKeyFromParts(year, monthIndex))
  {
    FourDigitYear(year);
    PaddedMonth(monthIndex + 1);
    KeyText(IntToString(year), PadStart2(IntToString(monthIndex + 1)));
  }

  lemma FourDigitYear(year: int)
    requires 1000 <= year <= 9999
    ensures |IntToString(year)| == 4 && AllDigits(IntToString(year))
  {
    NatToStringFourDigits(year);
  }

  /** Four digits, a dash and a two-digit month 1..12 are month text. */
  lemma KeyText(ys: string, mm: string)
    requires |ys| == 4 && AllDigits(ys)
    requires |mm| == 2 && AllDigits(mm) && 1 <= DigitsValue(mm) <= 12
    ensures IsMonthText(ys + "-" + mm)
  {
    var key := ys + "-" + mm;
    assert key[..4] == ys && key[5..] == mm;
  }

  /** A 1-based month padded to two characters is two digits that read back as the month. */
  lemma PaddedMonth(m: int)
    requires 1 <= m <= 12
    ensures var mm := PadStart2(IntToString(m)); |mm| == 2 && AllDigits(mm) && DigitsValue(mm) == m
  {
    DigitsValueOfNatToString(m);
    var mm := PadStart2(NatToString(m));
    if m < 10 {
      assert mm == ['0', DigitChar(m)];
      TwoDigitsValue(mm);
    } else {
      NatToStringTwoDigits(m);
    }
  }

  /** The month picker's text matches `^(\d{4})-(\d{2})$`. */
  predicate MatchesMonthPattern(text: string)
  {
    |text| == 7 && AllDigits(text[..4]) && text[4] == '-' && AllDigits(text[5..])
  }

  /** The text matches the pattern and its month is 1..12: the only text the dashboard accepts. */
  predicate IsMonthText(text: string)
  {
    MatchesMonthPattern(text) && 1 <= DigitsValue(text[5..]) <= 12
  }

  /**
   * `getSelectedMonthParts` on the picker's (already trimmed) text: the
   * month it names when it is valid, otherwise `now`, the current month.
   */
  function SelectedMonthParts(text: string, now: MonthParts): (r: MonthParts)
    ensures !IsMonthText(text) ==> r == now
    ensures IsMonthText(text) ==> 0 <= r.year <= 9999 && ValidMonthIndex(r.monthIndex)
  {
    if MatchesMonthPattern(text) then
      var year := DigitsValue(text[..4]);
      var month := DigitsValue(text[5..]);
      if 1 <= month <= 12 then
        assert year <= 9999 by { DigitsValueBelow(text[..4]); }
        MonthParts(year, month - 1)
      else now
    else now
  }

  function Pow10(n: nat): (p: nat)
    ensures p >= 1
  {
    if n == 0 then 1 else 10 * Pow10(n - 1)
  }

  /** `n` digits hold a value below `10^n`. */
  lemma {:induction false} DigitsValueBelow(s: string)
    requires AllDigits(s)
    ensures DigitsValue(s) < Pow10(|s|)
  {
    if |s| > 0 {
      DigitsValueBelow(s[..|s| - 1]);
    }
  }

  /** The value of a two-digit string. */
  lemma TwoDigitsValue(s: string)
    requires AllDigits(s) && |s| == 2
    ensures DigitsValue(s) == 10 * (s[0] as int - '0' as int) + (s[1] as int - '0' as int)
  {
    var first := s[..1];
    assert first[..0] == [];
    assert DigitsValue(first) == DigitsValue(first[..0]) * 10 + (first[0] as int - '0' as int);
    assert DigitsValue(s) == DigitsValue(first) * 10 + (s[1] as int - '0' as int);
  }

  /** A digit string without a leading zero has a positive value. */
  lemma {:induction false} DigitsValuePositive(s: string)
    requires AllDigits(s) && |s| > 0 && s[0] != '0'
    ensures DigitsValue(s) > 0
  {
    if |s| > 1 {
      DigitsValuePositive(s[..|s| - 1]);
    } else {
      assert s[..0] == [];
    }
  }

  /** A digit string without a leading zero is the decimal text of its value. */
  lemma {:induction false} NatToStringOfDigitsValue(s: string)
    requires AllDigits(s) && |s| > 0 && s[0] != '0'
    ensures NatToString(DigitsValue(s)) == s
  {
    var n := DigitsValue(s);
    if |s| == 1 {
      assert s[..0] == [];
    } else {
      var s' := s[..|s| - 1];
      NatToStringOfDigitsValue(s');
      DigitsValuePositive(s');
      assert n / 10 == DigitsValue(s') && n % 10 == s[|s| - 1] as int - '0' as int;
      assert s == s' + [s[|s| - 1]];
    }
  }

  /** Formatting then validating a four-digit year and a month gives them back. */
  lemma ParseOfMonthKey(year: int, monthIndex: int, now: MonthParts)
    requires 1000 <= year <= 9999 && ValidMonthIndex(monthIndex)
    ensures SelectedMonthParts(MonthKeyFromParts(year, monthIndex), now) == MonthParts(year, monthIndex)
  {
    var ys := IntToString(year);
    var mm := PadStart2(IntToString(monthIndex + 1));
    PaddedMonth(monthIndex + 1);
    NatToStringFourDigits(year);
    DigitsValueOfNatToString(year);
    var key := MonthKeyFromParts(year, monthIndex);
    assert key == ys + "-" + mm;
    assert key[..4] == ys;
    assert key[5..] == mm;
  }

  /** Validating then formatting accepted text whose year has no leading zero gives the text back. */
  lemma MonthKeyOfParse(text: string, now: MonthParts)
    requires IsMonthText(text) && text[0] != '0'
    ensures var r := SelectedMonthParts(text, now); MonthKeyFromParts(r.year, r.monthIndex) == text
  {
    var r := SelectedMonthParts(text, now);
    NatToStringOfDigitsValue(text[..4]);
    var mm := text[5..];
    var m := DigitsValue(mm);
    if mm[0] == '0' {
      TwoDigitsValue(mm);
      assert NatToString(m) == [mm[1]];
      assert PadStart2(NatToString(m)) == mm;
    } else {
      NatToStringOfDigitsValue(mm);
    }
    assert text == text[..4] + "-" + mm;
  }

  /** The year `new Date(y, m, 1)` uses: the two-digit years 0..99 stand for 1900..1999. */
  function DateConstructorYear(year: int): int
  {
    if 0 <= year <= 99 then 1900 + year else year
  }

  /**
   * `addMonths`: the month `delta` months away, through `new Date`, which
   * carries month overflow and underflow into the year.
   */
  function AddMonths(year: int, monthIndex: int, delta: int): (r: MonthParts)
    ensures ValidMonthIndex(r.monthIndex)
    ensures r.year * 12 + r.monthIndex == DateConstructorYear(year) * 12 + monthIndex + delta
  {
    var total := DateConstructorYear(year) * 12 + monthIndex + delta;
    MonthParts(total / 12, total % 12)
  }

  /** One month back: January steps to December of the year before, any other month to its predecessor. */
  lemma PreviousMonth(year: int, monthIndex: int)
    requires !(0 <= year <= 99) && ValidMonthIndex(monthIndex)
    ensures AddMonths(year, monthIndex, -1)
      == if monthIndex == 0 then MonthParts(year - 1, 11) else MonthParts(year, monthIndex - 1)
  {
    var r := AddMonths(year, monthIndex, -1);
    if monthIndex == 0 {
      assert r.year * 12 + r.monthIndex == (year - 1) * 12 + 11;
    } else {
      assert r.year * 12 + r.monthIndex == year * 12 + monthIndex - 1;
    }
  }

  /**
   * For the years 0..99 `new Date` steps back from 1900 + year: January
   * goes to December of 1899 + year, any other month stays in 1900 + year.
   */
  lemma PreviousMonthOfTwoDigitYear(year: int, monthIndex: int)
    requires 0 <= year <= 99 && ValidMonthIndex(monthIndex)
    ensures AddMonths(year, monthIndex, -1)
      == if monthIndex == 0 then MonthParts(1899 + year, 11) else MonthParts(1900 + year, monthIndex - 1)
  {
  }

  /** The keys `getMonthLabels` returns. */
  datatype PeriodKeys = PeriodKeys(current: string, previous: string, lastYear: string)

  /** `getMonthLabels` keys: the selected month, the month before it, and the same month a year earlier. */
  function PeriodKeysOf(selected: MonthParts): (keys: PeriodKeys)
  {
    var prev := AddMonths(selected.year, selected.monthIndex, -1);
    PeriodKeys(
      MonthKeyFromParts(selected.year, selected.monthIndex),
      MonthKeyFromParts(prev.year, prev.monthIndex),
      MonthKeyFromParts(selected.year - 1, selected.monthIndex))
  }

  /** The key of the month before a valid month with a year after 1000 validates to that month. */
  lemma PreviousKeyMeaning(selected: MonthParts, now: MonthParts)
    requires 1001 <= selected.year <= 9999 && ValidMonthIndex(selected.monthIndex)
    ensures SelectedMonthParts(PeriodKeysOf(selected).previous, now)
      == if selected.monthIndex == 0 then MonthParts(selected.year - 1, 11)
         else MonthParts(selected.year, selected.monthIndex - 1)
  {
    var y, mi := selected.year, selected.monthIndex;
    var before := if mi == 0 then MonthParts(y - 1, 11) else MonthParts(y, mi - 1);
    PreviousMonth(y, mi);
    assert PeriodKeysOf(selected).previous == MonthKeyFromParts(before.year, before.monthIndex);
    ParseOfMonthKey(before.year, before.monthIndex, now);
  }

  /** The current key of a valid month with a four-digit year validates to that month. */
  lemma CurrentKeyMeaning(selected: MonthParts, now: MonthParts)
    requires 1000 <= selected.year <= 9999 && ValidMonthIndex(selected.monthIndex)
    ensures SelectedMonthParts(PeriodKeysOf(selected).current, now) == selected
  {
    ParseOfMonthKey(selected.year, selected.monthIndex, now);
  }

  /** The last-year key keeps the month and decrements the year. */
  lemma LastYearKeyMeaning(selected: MonthParts, now: MonthParts)
    requires 1001 <= selected.year <= 9999 && ValidMonthIndex(selected.monthIndex)
    ensures SelectedMonthParts(PeriodKeysOf(selected).lastYear, now)
      == MonthParts(selected.year - 1, selected.monthIndex)
  {
    var key := MonthKeyFromParts(selected.year - 1, selected.monthIndex);
    assert PeriodKeysOf(selected).lastYear == key;
    ParseOfMonthKey(selected.year - 1, selected.monthIndex, now);
  }

  lemma NatToString2025And2026()
    ensures NatToString(2025) == "2025" && NatToString(2026) == "2026"
  {
    assert NatToString(2) == "2";
    assert NatToString(20) == NatToString(2) + "0";
    assert NatToString(202) == NatToString(20) + "2";
    assert NatToString(2025) == NatToString(202) + "5";
    assert NatToString(2026) == NatToString(202) + "6";
  }

  /** January 2026: previous month `2025-12`, same month last year `2025-01`. */
  lemma PeriodKeysOfJanuary2026()
    ensures PeriodKeysOf(MonthParts(2026, 0)) == PeriodKeys("2026-01", "2025-12", "2025-01")
  {
    NatToString2025And2026();
    assert NatToString(1) == "1";
    assert NatToString(12) == NatToString(1) + "2";
    assert AddMonths(2026, 0, -1) == MonthParts(2025, 11);
  }
}
