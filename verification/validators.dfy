/**
 The three field validators of core/validators.py: phone numbers, VINs and
 `DD.MM.YYYY` dates. Each is a total predicate on text; empty text is always rejected.
 */
module Validators {
  import opened Strings

  /* ---------------------------------------------------------------- phone */

  /**
   A phone number is valid when its digits, ignoring everything else, are ten
   digits, or eleven digits starting with 7 or 8.
   */
  function ValidPhone(phone: String): (ok: bool)
    ensures |phone| == 0 ==> !ok
    ensures |Digits(phone)| == 10 ==> ok
    ensures |Digits(phone)| == 11 ==> (ok <==> Digits(phone)[0] == '7' || Digits(phone)[0] == '8')
    ensures |Digits(phone)| != 10 && |Digits(phone)| != 11 ==> !ok
  {
    if |phone| == 0 then false
    else
      var digits := Digits(phone);
      if |digits| == 11 then digits[0] == '7' || digits[0] == '8'
      else |digits| == 10
  }

  /** Only the digits of a phone number matter: the number and its bare digits agree. */
  lemma PhoneDependsOnlyOnDigits(phone: String)
    ensures ValidPhone(phone) == ValidPhone(Digits(phone))
  {
    FilterIdempotent(phone, IsDigit);
  }

  /** Two spellings of a phone number with the same digits are both valid or both invalid. */
  lemma PhoneSameDigits(a: String, b: String)
    requires Digits(a) == Digits(b)
    ensures ValidPhone(a) == ValidPhone(b)
  {
    PhoneDependsOnlyOnDigits(a);
    PhoneDependsOnlyOnDigits(b);
  }

  /* ---------------------------------------------------------------- VIN */

  /** Whitespace, hyphen and underscore are separators and are dropped before checking. */
  predicate IsVinSeparator(c: char) {
    IsSpace(c) || c == '-' || c == '_'
  }

  predicate IsVinContent(c: char) {
    !IsVinSeparator(c)
  }

  /** The VIN alphabet `[A-HJ-NPR-Z0-9]`: digits and Latin capitals except I, O and Q. */
  predicate IsVinChar(c: char) {
    IsDigit(c) || ('A' <= c <= 'Z' && c != 'I' && c != 'O' && c != 'Q')
  }

  /** Trim, upper-case, then drop every separator: no separator is left. */
  function NormalizeVin(vin: String): (r: String)
    ensures forall i :: 0 <= i < |r| ==> IsVinContent(r[i])
  {
    Filter(Upper(Strip(vin)), IsVinContent)
  }

  /** Every character of `vin` that is not a separator upper-cases into the VIN alphabet. */
  predicate VinCharsOnly(vin: String) {
    forall i :: 0 <= i < |vin| ==> IsVinSeparator(vin[i]) || IsVinChar(ToUpper(vin[i]))
  }

  /**
   A VIN is valid when its normal form is exactly 17 characters of the VIN alphabet:
   equivalently, when it has 17 characters besides separators and each of them
   upper-cases into the alphabet.
   */
  function ValidVin(vin: String): (ok: bool)
    ensures ok ==> |NormalizeVin(vin)| == 17
    ensures ok <==> |Filter(vin, IsVinContent)| == 17 && VinCharsOnly(vin)
  {
    if |vin| == 0 then false
    else
      var n := NormalizeVin(vin);
      var ok := |n| == 17 && forall i :: 0 <= i < |n| ==> IsVinChar(n[i]);
      assert ok <==> |Filter(vin, IsVinContent)| == 17 && VinCharsOnly(vin) by {
        NormalFormAlphabet(vin);
        if ok {
          forall i | 0 <= i < |vin| && !IsVinSeparator(vin[i])
            ensures IsVinChar(ToUpper(vin[i]))
          {
            NormalFormKeeps(vin, vin[i]);
          }
        }
      }
      ok
  }

  /**
   The normal form has one character per non-separator of the input, and when those
   all upper-case into the VIN alphabet, so does every character of the normal form.
   */
  lemma NormalFormAlphabet(vin: String)
    ensures |NormalizeVin(vin)| == |Filter(vin, IsVinContent)|
    ensures VinCharsOnly(vin) ==> forall k :: 0 <= k < |NormalizeVin(vin)| ==> IsVinChar(NormalizeVin(vin)[k])
  {
    NormalizeVinIsUpperFiltered(vin);
    var f := Filter(vin, IsVinContent);
    var n := NormalizeVin(vin);
    if VinCharsOnly(vin) {
      forall k | 0 <= k < |n|
        ensures IsVinChar(n[k])
      {
        FilterFrom(vin, IsVinContent, f[k]);
        var j :| 0 <= j < |vin| && vin[j] == f[k];
        assert n[k] == ToUpper(f[k]);
      }
    }
  }

  /** Every character of the input that is not a separator reaches the normal form upper-cased. */
  lemma NormalFormKeeps(vin: String, c: char)
    requires c in vin && !IsVinSeparator(c)
    ensures ToUpper(c) in NormalizeVin(vin)
  {
    StripKeepsNonSpace(vin, c);
    var s := Strip(vin);
    var k :| 0 <= k < |s| && s[k] == c;
    assert Upper(s)[k] == ToUpper(c);
    FilterKeeps(Upper(s), IsVinContent, ToUpper(c));
  }

  /** Any I, O or Q in the input, in either case, makes the VIN invalid. */
  lemma VinRejectsIOQ(vin: String, c: char)
    requires c in vin && (ToUpper(c) == 'I' || ToUpper(c) == 'O' || ToUpper(c) == 'Q')
    ensures !ValidVin(vin)
  {
    NormalFormKeeps(vin, c);
    var n := NormalizeVin(vin);
    var k :| 0 <= k < |n| && n[k] == ToUpper(c);
    assert !IsVinChar(n[k]);
  }

  lemma SeparatorsIncludeSpace()
    ensures forall c :: IsSpace(c) ==> !IsVinContent(c)
  {
  }

  /** The normal form is the upper-cased input with its separators removed. */
  lemma NormalizeVinIsUpperFiltered(vin: String)
    ensures NormalizeVin(vin) == Upper(Filter(vin, IsVinContent))
  {
    FilterUpper(Strip(vin), IsVinContent);
    SeparatorsIncludeSpace();
    FilterIgnoresStrip(vin, IsVinContent);
  }

  /** Upper-casing a separator-free text and filtering again changes nothing. */
  lemma UpperOfFilteredIsStable(f: String)
    requires Filter(f, IsVinContent) == f
    ensures Upper(Filter(Upper(f), IsVinContent)) == Upper(f)
  {
    FilterUpper(f, IsVinContent);
    UpperIdempotent(f);
  }

  /** Normalising twice is normalising once. */
  lemma NormalizeVinIdempotent(vin: String)
    ensures NormalizeVin(NormalizeVin(vin)) == NormalizeVin(vin)
  {
    var f := Filter(vin, IsVinContent);
    var n := NormalizeVin(vin);
    NormalizeVinIsUpperFiltered(vin);
    NormalizeVinIsUpperFiltered(n);
    FilterIdempotent(vin, IsVinContent);
    UpperOfFilteredIsStable(f);
  }

  /** Validity ignores case and separators: the input and its upper-cased, separator-free form agree. */
  lemma VinIgnoresCaseAndSeparators(vin: String)
    ensures ValidVin(vin) == ValidVin(Upper(Filter(vin, IsVinContent)))
  {
    NormalizeVinIsUpperFiltered(vin);
    NormalizeVinIdempotent(vin);
  }

  /** A hyphen contributes nothing to the separator-free text. */
  lemma FilterDropsHyphen(pre: String, post: String)
    ensures Filter(pre + "-" + post, IsVinContent) == Filter(pre + post, IsVinContent)
  {
    FilterConcat(pre + "-", post, IsVinContent);
    FilterConcat(pre, "-", IsVinContent);
    assert Filter("-", IsVinContent) == [];
    FilterConcat(pre, post, IsVinContent);
  }

  /** Inserting a hyphen anywhere into a valid VIN keeps it valid. */
  lemma VinHyphenated(vin: String, k: nat)
    requires ValidVin(vin) && k <= |vin|
    ensures ValidVin(vin[..k] + "-" + vin[k..])
  {
    var h := vin[..k] + "-" + vin[k..];
    FilterDropsHyphen(vin[..k], vin[k..]);
    assert vin[..k] + vin[k..] == vin;
    NormalizeVinIsUpperFiltered(vin);
    NormalizeVinIsUpperFiltered(h);
    assert NormalizeVin(h) == NormalizeVin(vin);
  }

  /** Joining with a hyphen adds up the non-separator counts of the two sides. */
  lemma HyphenJoinCount(a: String, b: String)
    ensures |Filter(a + "-" + b, IsVinContent)| == |Filter(a, IsVinContent)| + |Filter(b, IsVinContent)|
  {
    FilterDropsHyphen(a, b);
    FilterConcat(a, b, IsVinContent);
  }

  /** A text without separators: every character counts. */
  predicate SeparatorFree(s: String) {
    forall i :: 0 <= i < |s| ==> IsVinContent(s[i])
  }

  /** Four separator-free groups joined by hyphens count as their total length. */
  lemma HyphenGroupsCount(p1: String, p2: String, p3: String, p4: String)
    requires SeparatorFree(p1) && SeparatorFree(p2) && SeparatorFree(p3) && SeparatorFree(p4)
    ensures |Filter(p1 + "-" + p2 + "-" + p3 + "-" + p4, IsVinContent)| == |p1| + |p2| + |p3| + |p4|
  {
    FilterKeepsAll(p1, IsVinContent);
    FilterKeepsAll(p2, IsVinContent);
    FilterKeepsAll(p3, IsVinContent);
    FilterKeepsAll(p4, IsVinContent);
    HyphenJoinCount(p1, p2);
    HyphenJoinCount(p1 + "-" + p2, p3);
    HyphenJoinCount(p1 + "-" + p2 + "-" + p3, p4);
  }

  /** Text with 17 non-separators, all upper-casing into the alphabet, is a valid VIN. */
  lemma ValidVinOfCount(vin: String)
    requires |Filter(vin, IsVinContent)| == 17 && VinCharsOnly(vin)
    ensures ValidVin(vin)
  {
  }

  /** Every character of the plain example is in the VIN alphabet. */
  lemma PlainExampleChars()
    ensures SeparatorFree("VF1KZ1G0643044404") && VinCharsOnly("VF1KZ1G0643044404")
  {
  }

  /** The plain VIN of the `__main__` block of validators.py (line 80) is accepted. */
  lemma VinExamplePlain()
    ensures ValidVin("VF1KZ1G0643044404")
  {
    PlainExampleChars();
    FilterKeepsAll("VF1KZ1G0643044404", IsVinContent);
    ValidVinOfCount("VF1KZ1G0643044404");
  }

  /** The groups of the hyphenated example hold no separators. */
  lemma HyphenatedExampleGroups()
    ensures SeparatorFree("VF1") && SeparatorFree("KZ1G0") && SeparatorFree("64304") && SeparatorFree("4404")
  {
  }

  /** The hyphenated example has 17 characters besides its three hyphens. */
  lemma HyphenatedExampleCount()
    ensures |Filter("VF1-KZ1G0-64304-4404", IsVinContent)| == 17
  {
    HyphenatedExampleGroups();
    HyphenGroupsCount("VF1", "KZ1G0", "64304", "4404");
    assert "VF1" + "-" + "KZ1G0" + "-" + "64304" + "-" + "4404" == "VF1-KZ1G0-64304-4404";
  }

  /** Every character of the hyphenated example is a separator or in the VIN alphabet. */
  lemma HyphenatedExampleChars()
    ensures VinCharsOnly("VF1-KZ1G0-64304-4404")
  {
  }

  /** The same VIN written in hyphenated groups is accepted too. */
  lemma VinExampleHyphenated()
    ensures ValidVin("VF1-KZ1G0-64304-4404")
  {
    HyphenatedExampleChars();
    HyphenatedExampleCount();
    ValidVinOfCount("VF1-KZ1G0-64304-4404");
  }

  /** Sixteen characters are one too few. */
  lemma VinExampleShort()
    ensures !ValidVin("VF1KZ1G064304440")
  {
    var s := "VF1KZ1G064304440";
    assert SeparatorFree(s);
    FilterKeepsAll(s, IsVinContent);
  }

  /* ---------------------------------------------------------------- date */

  /** Gregorian leap years. */
  predicate IsLeapYear(year: int) {
    year % 4 == 0 && (year % 100 != 0 || year % 400 == 0)
  }

  function DaysInMonth(year: int, month: int): (days: int)
    requires 1 <= month <= 12
    ensures 28 <= days <= 31
  {
    if month == 2 then (if IsLeapYear(year) then 29 else 28)
    else if month == 4 || month == 6 || month == 9 || month == 11 then 30
    else 31
  }

  /** The triples Python's `datetime(year, month, day)` accepts. */
  predicate IsCalendarDate(day: int, month: int, year: int) {
    1 <= year <= 9999 && 1 <= month <= 12 && 1 <= day <= DaysInMonth(year, month)
  }

  /** Two digits, a dot, two digits, a dot, four digits. */
  predicate HasDateShape(t: String) {
    && |t| == 10 && t[2] == '.' && t[5] == '.'
    && IsDigit(t[0]) && IsDigit(t[1]) && IsDigit(t[3]) && IsDigit(t[4])
    && IsDigit(t[6]) && IsDigit(t[7]) && IsDigit(t[8]) && IsDigit(t[9])
  }

  /** A date is valid when the trimmed text has the `DD.MM.YYYY` shape and names a real
      day between the years 1900 and 2100. */
  function ValidDate(date: String): (ok: bool)
    ensures ok ==> HasDateShape(Strip(date))
  {
    if |date| == 0 then false
    else
      var t := Strip(date);
      if !HasDateShape(t) then false
      else
        var day := DecimalValue(t[0..2]);
        var month := DecimalValue(t[3..5]);
        var year := DecimalValue(t[6..10]);
        if month < 1 || month > 12 then false
        else if day < 1 || day > 31 then false
        else if year < 1900 || year > 2100 then false
        else IsCalendarDate(day, month, year)
  }

  function Pad2(n: nat): (r: String)
    requires n < 100
    ensures |r| == 2 && AllDigits(r)
  {
    [DigitChar(n / 10), DigitChar(n % 10)]
  }

  function Pad4(n: nat): (r: String)
    requires n < 10000
    ensures |r| == 4 && AllDigits(r)
  {
    Pad2(n / 100) + Pad2(n % 100)
  }

  /** The `%d.%m.%Y` rendering of a day, month and year. */
  function FormatDate(day: nat, month: nat, year: nat): (r: String)
    requires day < 100 && month < 100 && year < 10000
    ensures HasDateShape(r)
  {
    Pad2(day) + "." + Pad2(month) + "." + Pad4(year)
  }

  /** Two digits are the zero-padded form of their value. */
  lemma TwoDigits(s: String)
    requires |s| == 2 && AllDigits(s)
    ensures DecimalValue(s) < 100 && s == Pad2(DecimalValue(s))
  {
    DecimalAppend([], s[0]);
    assert [] + [s[0]] == [s[0]];
    DecimalAppend([s[0]], s[1]);
    assert [s[0]] + [s[1]] == s;
    var hi, lo := DigitValue(s[0]), DigitValue(s[1]);
    DivMod10(hi, lo);
  }

  lemma DivMod10(hi: nat, lo: nat)
    requires lo < 10
    ensures (10 * hi + lo) / 10 == hi && (10 * hi + lo) % 10 == lo
  {
  }

  lemma DivMod100(hi: nat, lo: nat)
    requires lo < 100
    ensures (100 * hi + lo) / 100 == hi && (100 * hi + lo) % 100 == lo
  {
  }

  /** The value of four digits is a hundred times the first pair plus the second pair. */
  lemma DecimalFour(s: String)
    requires |s| == 4 && AllDigits(s)
    ensures DecimalValue(s) == 100 * DecimalValue(s[..2]) + DecimalValue(s[2..])
  {
    var hi, three, lo := s[..2], s[..3], s[2..];
    assert three == hi + [s[2]] && s == three + [s[3]];
    DecimalAppend(hi, s[2]);
    DecimalAppend(three, s[3]);
    var d2, d3 := DigitValue(s[2]), DigitValue(s[3]);
    assert DecimalValue(s) == 100 * DecimalValue(hi) + (10 * d2 + d3);
    assert [s[2]] == [] + [s[2]] && lo == [s[2]] + [s[3]];
    DecimalAppend([], s[2]);
    DecimalAppend([s[2]], s[3]);
  }

  /** Four digits are the zero-padded form of their value. */
  lemma FourDigits(s: String)
    requires |s| == 4 && AllDigits(s)
    ensures DecimalValue(s) < 10000 && s == Pad4(DecimalValue(s))
  {
    var hi, lo := s[..2], s[2..];
    TwoDigits(hi);
    TwoDigits(lo);
    DecimalFour(s);
    var a, b, v := DecimalValue(hi), DecimalValue(lo), DecimalValue(s);
    DivMod100(a, b);
    assert v / 100 == a && v % 100 == b;
    assert Pad4(v) == Pad2(a) + Pad2(b);
    assert s == hi + lo;
  }

  lemma Pad2Value(n: nat)
    requires n < 100
    ensures DecimalValue(Pad2(n)) == n
  {
    var p := Pad2(n);
    TwoDigits(p);
    assert DigitValue(p[0]) == n / 10 && DigitValue(p[1]) == n % 10;
    DecimalAppend([], p[0]);
    assert [] + [p[0]] == [p[0]];
    DecimalAppend([p[0]], p[1]);
    assert [p[0]] + [p[1]] == p;
  }

  lemma Pad4Value(n: nat)
    requires n < 10000
    ensures DecimalValue(Pad4(n)) == n
  {
    var p := Pad4(n);
    DecimalFour(p);
    assert p[..2] == Pad2(n / 100) && p[2..] == Pad2(n % 100);
    Pad2Value(n / 100);
    Pad2Value(n % 100);
  }

  /** Reading back the fields of a formatted date gives the day, month and year. */
  lemma FormatDateFields(day: nat, month: nat, year: nat)
    requires day < 100 && month < 100 && year < 10000
    ensures var t := FormatDate(day, month, year);
      DecimalValue(t[0..2]) == day && DecimalValue(t[3..5]) == month && DecimalValue(t[6..10]) == year
  {
    var t := FormatDate(day, month, year);
    assert t[0..2] == Pad2(day);
    assert t[3..5] == Pad2(month);
    assert t[6..10] == Pad4(year);
    Pad2Value(day);
    Pad2Value(month);
    Pad4Value(year);
  }

  /** A zero-padded date is valid exactly when it names a real day in the years 1900-2100. */
  lemma ValidFormattedDate(day: nat, month: nat, year: nat)
    requires day < 100 && month < 100 && year < 10000
    ensures ValidDate(FormatDate(day, month, year))
      <==> 1 <= month <= 12 && 1900 <= year <= 2100 && 1 <= day <= DaysInMonth(year, month)
  {
    var t := FormatDate(day, month, year);
    assert !IsSpace(t[0]) && !IsSpace(t[9]);
    assert Strip(t) == t;
    FormatDateFields(day, month, year);
    ValidDateByFields(t);
  }

  /** The verdict on a text of the date shape, in terms of its three fields. */
  lemma ValidDateByFields(date: String)
    requires |date| > 0 && HasDateShape(Strip(date))
    ensures var t := Strip(date);
      var day, month, year := DecimalValue(t[0..2]), DecimalValue(t[3..5]), DecimalValue(t[6..10]);
      ValidDate(date) <==> 1 <= month <= 12 && 1900 <= year <= 2100 && 1 <= day <= DaysInMonth(year, month)
  {
  }

  /** Every valid date text is, once trimmed, the zero-padded form of a real day in 1900-2100. */
  lemma ValidDateIsFormatted(date: String) returns (day: nat, month: nat, year: nat)
    requires ValidDate(date)
    ensures day < 100 && month < 100 && year < 10000
    ensures Strip(date) == FormatDate(day, month, year)
    ensures 1 <= month <= 12 && 1900 <= year <= 2100 && 1 <= day <= DaysInMonth(year, month)
  {
    var t := Strip(date);
    day, month, year := DecimalValue(t[0..2]), DecimalValue(t[3..5]), DecimalValue(t[6..10]);
    DateShapeSplit(t);
    TwoDigits(t[0..2]);
    TwoDigits(t[3..5]);
    FourDigits(t[6..10]);
  }

  /** A text of the date shape is its three digit groups joined by dots. */
  lemma DateShapeSplit(t: String)
    requires HasDateShape(t)
    ensures t == t[0..2] + "." + t[3..5] + "." + t[6..10]
  {
  }

  /** From the `__main__` block of validators.py (line 85): a real day in November 2024 is accepted. */
  lemma DateExampleValid()
    ensures ValidDate("05.11.2024")
  {
    assert Pad2(5) == "05" && Pad2(11) == "11";
    assert Pad4(2024) == "2024" by {
      assert Pad2(20) == "20" && Pad2(24) == "24";
    }
    assert FormatDate(5, 11, 2024) == "05.11.2024";
    ValidFormattedDate(5, 11, 2024);
  }

  /** From the `__main__` block of validators.py (line 86): the 30th of February is rejected although it has the right shape. */
  lemma DateExampleFebruary30()
    ensures !ValidDate("30.02.2024")
  {
    assert Pad2(30) == "30" && Pad2(2) == "02";
    assert Pad4(2024) == "2024" by {
      assert Pad2(20) == "20" && Pad2(24) == "24";
    }
    assert FormatDate(30, 2, 2024) == "30.02.2024";
    ValidFormattedDate(30, 2, 2024);
  }

  /** From the `__main__` block of validators.py (line 87): a date without zero padding is rejected. */
  lemma DateExampleUnpadded()
    ensures !ValidDate("1.1.2024")
  {
    assert Strip("1.1.2024") == "1.1.2024";
  }
}
