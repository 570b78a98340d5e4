/** The release-date heading: how far back the most recent Friday is, and
    the English ordinal of its day of the month. */
module ReleaseDate {

  /** `datetime.weekday()` numbers Monday 0 through Sunday 6. */
  const Friday := 4

  /** The weekday of a day number, counted with Python's `% 7`: for a
      positive modulus Python's remainder is never negative, like Dafny's. */
  function Weekday(day: int): int {
    day % 7
  }

  /** How many days to step back from `weekday` to reach a Friday. The
      result is the distance to the MOST RECENT Friday: none of the days in
      between is one. */
  function DaysToSubtract(weekday: int): (d: int)
    ensures 0 <= d < 7
    ensures Weekday(weekday - d) == Friday
    ensures d == 0 <==> Weekday(weekday) == Friday
    ensures forall w :: weekday - d < w <= weekday ==> Weekday(w) != Friday
  {
    (weekday - Friday) % 7
  }

  /** The suffix `add_suffix_to_day` picks: "th" for 11 to 13, otherwise by
      the last digit. */
  function Suffix(day: int): string {
    if 11 <= day <= 13 then "th"
    else if day % 10 == 1 then "st"
    else if day % 10 == 2 then "nd"
    else if day % 10 == 3 then "rd"
    else "th"
  }

  /** The English rule for ordinals: a tens digit of 1 always takes "th". */
  function EnglishOrdinalSuffix(n: nat): string {
    if (n / 10) % 10 == 1 then "th"
    else if n % 10 == 1 then "st"
    else if n % 10 == 2 then "nd"
    else if n % 10 == 3 then "rd"
    else "th"
  }

  function DigitChar(d: nat): char
    requires d < 10
  {
    ('0' as int + d) as char
  }

  predicate IsDigitChar(c: char) {
    '0' <= c <= '9'
  }

  function DigitValue(c: char): nat
    requires IsDigitChar(c)
  {
    c as int - '0' as int
  }

  /** The decimal digits of `n`, most significant first, without leading
      zeros. */
  function NatDigits(n: nat): (s: string)
    ensures |s| > 0
    ensures forall i :: 0 <= i < |s| ==> IsDigitChar(s[i])
    ensures |s| > 1 ==> s[0] != '0'
    decreases n
  {
    if n < 10 then [DigitChar(n)] else NatDigits(n / 10) + [DigitChar(n % 10)]
  }

  /** Python's `str(n)` for an int. */
  function Decimal(n: int): string {
    if n < 0 then "-" + NatDigits(-n) else NatDigits(n)
  }

  function ParseDigits(s: string): nat
    requires forall i :: 0 <= i < |s| ==> IsDigitChar(s[i])
    decreases |s|
  {
    if s == [] then 0 else ParseDigits(s[..|s| - 1]) * 10 + DigitValue(s[|s| - 1])
  }

  /** Python's `int(s)` on an optionally signed decimal string. */
  function ParseDecimal(s: string): int
    requires |s| > 0
    requires s[0] == '-' ==> forall i :: 1 <= i < |s| ==> IsDigitChar(s[i])
    requires s[0] != '-' ==> forall i :: 0 <= i < |s| ==> IsDigitChar(s[i])
  {
    if s[0] == '-' then -(ParseDigits(s[1..]) as int) else ParseDigits(s)
  }

  lemma {:induction false} NatDigitsRoundTrip(n: nat)
    ensures ParseDigits(NatDigits(n)) == n
    decreases n
  {
    if n >= 10 {
      var s := NatDigits(n);
      NatDigitsRoundTrip(n / 10);
      assert s[..|s| - 1] == NatDigits(n / 10);
    }
  }

  /** `str(day)` read back with `int()` gives `day`; the minus sign is
      there exactly for negative days, every other character is a digit,
      and there is no leading zero. */
  lemma DecimalRoundTrip(day: int)
    ensures var digits := Decimal(day);
      |digits| > 0 &&
      (digits[0] == '-' <==> day < 0) &&
      (forall i :: (if day < 0 then 1 else 0) <= i < |digits| ==> IsDigitChar(digits[i])) &&
      ParseDecimal(digits) == day
    ensures var digits := Decimal(day); var k := if day < 0 then 1 else 0;
      |digits| > k && (|digits| > k + 1 ==> digits[k] != '0')
  {
    var digits := Decimal(day);
    if day < 0 {
      NatDigitsRoundTrip(-day);
      assert digits[1..] == NatDigits(-day);
    } else {
      NatDigitsRoundTrip(day);
    }
  }

  /** Digits that start with a nonzero digit denote a positive number. */
  lemma {:induction false} LeadingDigitPositive(s: string)
    requires |s| > 0 && s[0] != '0'
    requires forall i :: 0 <= i < |s| ==> IsDigitChar(s[i])
    ensures ParseDigits(s) > 0
    decreases |s|
  {
    if |s| > 1 {
      LeadingDigitPositive(s[..|s| - 1]);
    }
  }

  /** Without leading zeros a number has one spelling: any such digit
      string that reads as `n` is `NatDigits(n)`. */
  lemma {:induction false} CanonicalDigitsUnique(s: string, n: nat)
    requires |s| > 0 && (|s| > 1 ==> s[0] != '0')
    requires forall i :: 0 <= i < |s| ==> IsDigitChar(s[i])
    requires ParseDigits(s) == n
    ensures s == NatDigits(n)
    decreases |s|
  {
    if |s| == 1 {
      assert s[..0] == [];
      assert DigitChar(DigitValue(s[0])) == s[0];
    } else {
      var prefix := s[..|s| - 1];
      var last := s[|s| - 1];
      LeadingDigitPositive(prefix);
      assert n / 10 == ParseDigits(prefix) && n % 10 == DigitValue(last);
      CanonicalDigitsUnique(prefix, n / 10);
      assert DigitChar(DigitValue(last)) == last;
      assert s == prefix + [last];
    }
  }

  /** `str(day)` is the only string with a sign exactly for negative days,
      digits after it, no leading zero, that reads back as `day`. */
  lemma DecimalUnique(day: int, digits: string)
    requires var k := if day < 0 then 1 else 0;
      |digits| > k && (|digits| > k + 1 ==> digits[k] != '0') &&
      (digits[0] == '-' <==> day < 0) &&
      (forall i :: k <= i < |digits| ==> IsDigitChar(digits[i]))
    requires ParseDecimal(digits) == day
    ensures digits == Decimal(day)
  {
    if day < 0 {
      CanonicalDigitsUnique(digits[1..], -day);
      assert digits == "-" + digits[1..];
    } else {
      CanonicalDigitsUnique(digits, day);
    }
  }

  /** The suffix is always one of the four, "th" on the teens 11 to 13, and
      the English one on the days of a month. */
  lemma SuffixOfDay(day: int)
    ensures Suffix(day) in ["st", "nd", "rd", "th"]
    ensures 11 <= day <= 13 ==> Suffix(day) == "th"
    ensures 1 <= day <= 31 ==> Suffix(day) == EnglishOrdinalSuffix(day)
  {
  }

  /** `add_suffix_to_day`: the day in decimal followed by its ordinal
      suffix. Reading the digits back gives the day; the teens 11 to 13 take
      "th"; and on the days of a month the suffix is the English one. */
  function AddSuffixToDay(day: int): (s: string)
    ensures |s| >= 3
    ensures s[|s| - 2..] in ["st", "nd", "rd", "th"]
    ensures var digits := s[..|s| - 2];
      |digits| > 0 &&
      (digits[0] == '-' <==> day < 0) &&
      (forall i :: (if day < 0 then 1 else 0) <= i < |digits| ==> IsDigitChar(digits[i])) &&
      ParseDecimal(digits) == day
    ensures var digits := s[..|s| - 2]; var k := if day < 0 then 1 else 0;
      |digits| > k && (|digits| > k + 1 ==> digits[k] != '0')
    ensures 11 <= day <= 13 ==> s[|s| - 2..] == "th"
    ensures 1 <= day <= 31 ==> s[|s| - 2..] == EnglishOrdinalSuffix(day)
  {
    var digits := Decimal(day);
    var s := digits + Suffix(day);
    DecimalRoundTrip(day);
    SuffixOfDay(day);
    assert s[..|s| - 2] == digits;
    assert s[|s| - 2..] == Suffix(day);
    s
  }
}
