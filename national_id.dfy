/**
 * Age estimation from an Egyptian national ID: the first digit gives the
 * century (3 for the 2000s, otherwise the 1900s) and the next six give the
 * birth date as YYMMDD; the age is counted in full years on 20 January 2026.
 */
module NationalId {
  import opened Wrappers
  import opened Text

  const RefYear := 2026
  const RefMonth := 1
  const RefDay := 20

  datatype BirthDate = BirthDate(year: int, month: int, day: int)

  /** `new Date(y, …)` reads a year from 0 to 99 as 1900 + y. */
  function FullYear(y: int): int {
    if 0 <= y <= 99 then 1900 + y else y
  }

  /**
   * The birth date the ID encodes: century digit, then `parseInt` of the
   * year (century prefix followed by two characters), month and day; `None`
   * when the month or the day is not a number (an invalid date).
   */
  function BirthDateOf(nid: string): Option<BirthDate>
    requires |nid| >= 7
  {
    var century := ParseInt(nid[0..1]);
    var prefix := if century == Some(3) then "20" else "19";
    var y, m, d := ParseInt(prefix + nid[1..3]), ParseInt(nid[3..5]), ParseInt(nid[5..7]);
    if y.Some? && m.Some? && d.Some? then Some(BirthDate(FullYear(y.value), m.value, d.value)) else None
  }

  /** Calendar order of (year, month, day) triples. */
  predicate DateLe(y1: int, m1: int, d1: int, y2: int, m2: int, d2: int) {
    y1 < y2 || (y1 == y2 && (m1 < m2 || (m1 == m2 && d1 <= d2)))
  }

  /** The `n`-th birthday falls on or before the reference date. */
  predicate BirthdayReached(b: BirthDate, n: int) {
    DateLe(b.year + n, b.month, b.day, RefYear, RefMonth, RefDay)
  }

  /**
   * Year difference, less one when the reference date comes before the
   * birthday in the calendar year: the last birthday reached.
   */
  function FullYears(b: BirthDate): (age: int)
    ensures BirthdayReached(b, age) && !BirthdayReached(b, age + 1)
    ensures age >= 0 <==> BirthdayReached(b, 0)
  {
    var age := RefYear - b.year;
    var m := (RefMonth - 1) - (b.month - 1);
    if m < 0 || (m == 0 && RefDay < b.day) then age - 1 else age
  }

  /**
   * `calculateAgeFromID`: `None` for an ID shorter than 7 characters, an
   * invalid date or a birth date after the reference date; otherwise the
   * number of full years, i.e. the last birthday reached.
   */
  function CalculateAgeFromId(nid: string): (r: Option<int>)
    ensures |nid| < 7 ==> r.None?
    ensures r.Some? ==> r.value >= 0
    ensures r.Some? ==> (|nid| >= 7 && BirthDateOf(nid).Some?
      && BirthdayReached(BirthDateOf(nid).value, r.value)
      && !BirthdayReached(BirthDateOf(nid).value, r.value + 1))
    ensures |nid| >= 7 && BirthDateOf(nid).Some? ==>
      (r.Some? <==> BirthdayReached(BirthDateOf(nid).value, 0))
  {
    if |nid| < 7 then None
    else
      var bd := BirthDateOf(nid);
      if bd.None? then None
      else
        var age := FullYears(bd.value);
        if age >= 0 then Some(age) else None
  }

  lemma OneDigit(s: string)
    requires |s| == 1 && IsDigit(s[0])
    ensures ParseInt(s) == Some(DigitValue(s[0]) as int)
  {
    ParseDigits(s);
    assert DigitsValue(s) == 10 * DigitsValue(s[..0]) + DigitValue(s[0]);
    assert |s[..0]| == 0;
  }

  lemma TwoDigits(s: string)
    requires |s| == 2 && IsDigit(s[0]) && IsDigit(s[1])
    ensures ParseInt(s) == Some(10 * DigitValue(s[0]) + DigitValue(s[1]))
  {
    ParseDigits(s);
    assert DigitsValue(s[..1]) == DigitValue(s[0]) by {
      assert s[..1][..0] == [];
    }
    assert DigitsValue(s) == 10 * DigitsValue(s[..1]) + DigitValue(s[1]);
  }

  lemma FourDigits(s: string)
    requires |s| == 4 && IsDigit(s[0]) && IsDigit(s[1]) && IsDigit(s[2]) && IsDigit(s[3])
    ensures ParseInt(s) == Some(1000 * DigitValue(s[0]) + 100 * DigitValue(s[1]) + 10 * DigitValue(s[2]) + DigitValue(s[3]))
  {
    ParseDigits(s);
    assert DigitsValue(s[..1]) == DigitValue(s[0]) by {
      assert s[..1][..0] == [];
    }
    assert DigitsValue(s[..2]) == 10 * DigitsValue(s[..1]) + DigitValue(s[1]) by {
      assert s[..2][..1] == s[..1];
    }
    assert DigitsValue(s[..3]) == 10 * DigitsValue(s[..2]) + DigitValue(s[2]) by {
      assert s[..3][..2] == s[..2];
    }
    assert DigitsValue(s) == 10 * DigitsValue(s[..3]) + DigitValue(s[3]);
  }

  /** The first seven characters of `nid` are decimal digits. */
  predicate SevenDigits(nid: string) {
    |nid| >= 7 && IsDigit(nid[0]) && IsDigit(nid[1]) && IsDigit(nid[2]) && IsDigit(nid[3])
    && IsDigit(nid[4]) && IsDigit(nid[5]) && IsDigit(nid[6])
  }

  /** `BirthDateOf` from the values its four `parseInt` calls give. */
  lemma BirthDateOfParsed(nid: string, century: int, year: int, month: int, day: int)
    requires |nid| >= 7
    requires ParseInt(nid[0..1]) == Some(century)
    requires ParseInt((if century == 3 then "20" else "19") + nid[1..3]) == Some(year)
    requires ParseInt(nid[3..5]) == Some(month) && ParseInt(nid[5..7]) == Some(day)
    ensures BirthDateOf(nid) == Some(BirthDate(FullYear(year), month, day))
  {
  }

  /**
   * For an ID whose first seven characters are digits, the birth date is
   * YYMMDD read in the 2000s after the century digit 3 and in the 1900s
   * after any other digit.
   */
  lemma BirthDateOfDigits(nid: string, year: int, month: int, day: int)
    requires SevenDigits(nid)
    requires year == (if nid[0] == '3' then 2000 else 1900) + 10 * DigitValue(nid[1]) + DigitValue(nid[2])
    requires month == 10 * DigitValue(nid[3]) + DigitValue(nid[4])
    requires day == 10 * DigitValue(nid[5]) + DigitValue(nid[6])
    ensures BirthDateOf(nid) == Some(BirthDate(year, month, day))
  {
    var century := DigitValue(nid[0]) as int;
    CenturyDigit(nid, century);
    CenturyYear(nid, century, year);
    MonthAndDay(nid, month, day);
    BirthDateOfParsed(nid, century, year, month, day);
  }

  /** The month and day parts MM and DD parse to their two-digit values. */
  lemma MonthAndDay(nid: string, month: int, day: int)
    requires SevenDigits(nid)
    requires month == 10 * DigitValue(nid[3]) + DigitValue(nid[4])
    requires day == 10 * DigitValue(nid[5]) + DigitValue(nid[6])
    ensures ParseInt(nid[3..5]) == Some(month) && ParseInt(nid[5..7]) == Some(day)
  {
    var ms, ds := nid[3..5], nid[5..7];
    assert ms[0] == nid[3] && ms[1] == nid[4] && ds[0] == nid[5] && ds[1] == nid[6];
    TwoDigits(ms);
    TwoDigits(ds);
  }

  /** The century part parses to its digit. */
  lemma CenturyDigit(nid: string, century: int)
    requires SevenDigits(nid) && century == DigitValue(nid[0])
    ensures ParseInt(nid[0..1]) == Some(century)
  {
    var c := nid[0..1];
    assert c[0] == nid[0];
    OneDigit(c);
  }

  /** The year text is "20" after the century digit 3 and "19" otherwise, followed by YY. */
  lemma CenturyYear(nid: string, century: int, year: int)
    requires SevenDigits(nid) && century == DigitValue(nid[0])
    requires year == (if nid[0] == '3' then 2000 else 1900) + 10 * DigitValue(nid[1]) + DigitValue(nid[2])
    ensures ParseInt((if century == 3 then "20" else "19") + nid[1..3]) == Some(year)
  {
    var prefix := if century == 3 then "20" else "19";
    var ys := prefix + nid[1..3];
    assert ys[0] == prefix[0] && ys[1] == prefix[1] && ys[2] == nid[1] && ys[3] == nid[2];
    FourDigits(ys);
  }

  /** An ID starting 2900101, someone born on 1 January 1990, gives 36 years on the reference date. */
  lemma AgeExample(nid: string)
    requires |nid| >= 7 && nid[..7] == "2900101"
    ensures CalculateAgeFromId(nid) == Some(36)
  {
    assert nid[0] == nid[..7][0] == '2' && nid[1] == nid[..7][1] == '9' && nid[2] == nid[..7][2] == '0';
    assert nid[3] == nid[..7][3] == '0' && nid[4] == nid[..7][4] == '1';
    assert nid[5] == nid[..7][5] == '0' && nid[6] == nid[..7][6] == '1';
    assert SevenDigits(nid);
    var b := BirthDate(1990, 1, 1);
    BirthDateOfDigits(nid, b.year, b.month, b.day);
    AgeOfBirthDate(nid, b);
  }

  /** With a readable birth date that is not after the reference date, the age is its full years. */
  lemma AgeOfBirthDate(nid: string, b: BirthDate)
    requires |nid| >= 7 && BirthDateOf(nid) == Some(b) && FullYears(b) >= 0
    ensures CalculateAgeFromId(nid) == Some(FullYears(b))
  {
  }

  /**
   * A month part "0x" is NaN for `parseInt`, so the date is invalid and no
   * age is given, although a plain digit prefix reader would take it as 0.
   */
  lemma HexPrefixMonthGivesNoAge()
    ensures CalculateAgeFromId("2900x01").None?
  {
    var nid := "2900x01";
    assert nid[3..5] == ['0', 'x'];
    ParseBareHexPrefix('x');
  }
}
