/**
 Text primitives shared by every part of the model: character classes, filtering,
 trimming, substring search, Python's `str.replace`, decimal printing and Python's `int()`.

 Characters are Unicode scalar values. Digits are the ASCII digits, whitespace is the
 ASCII part of Python's `str.isspace`, and case mapping covers ASCII and the basic
 Cyrillic block (U+0400-U+045F), which is what the client names are written in.
 */
module Strings {
  import opened Options

  type String = seq<char>

  predicate IsDigit(c: char) {
    '0' <= c <= '9'
  }

  /** Tab, line feed, vertical tab, form feed, carriage return, the separators 0x1C-0x1F and space. */
  predicate IsSpace(c: char) {
    c == ' ' || '\t' <= c <= '\r' || '\U{1C}' <= c <= '\U{1F}'
  }

  predicate AllDigits(s: String) {
    forall i :: 0 <= i < |s| ==> IsDigit(s[i])
  }

  /* ---------------------------------------------------------------- case */

  /** Lower case to upper case for ASCII and basic Cyrillic; every other character is kept. */
  function ToUpper(c: char): (u: char)
    ensures IsSpace(u) <==> IsSpace(c)
    ensures IsDigit(u) <==> IsDigit(c)
    ensures ('A' <= u <= 'Z') <==> ('A' <= c <= 'Z' || 'a' <= c <= 'z')
  {
    if 'a' <= c <= 'z' then (c as int - 32) as char
    else if 'а' <= c <= 'я' then (c as int - 32) as char
    else if 'ѐ' <= c <= 'џ' then (c as int - 80) as char
    else c
  }

  /** Upper case to lower case for ASCII and basic Cyrillic; every other character is kept. */
  function ToLower(c: char): char {
    if 'A' <= c <= 'Z' then (c as int + 32) as char
    else if 'А' <= c <= 'Я' then (c as int + 32) as char
    else if 'Ѐ' <= c <= 'Џ' then (c as int + 80) as char
    else c
  }

  function Upper(s: String): (r: String)
    ensures |r| == |s|
    ensures forall i :: 0 <= i < |s| ==> r[i] == ToUpper(s[i])
  {
    seq(|s|, i requires 0 <= i < |s| => ToUpper(s[i]))
  }

  function Lower(s: String): (r: String)
    ensures |r| == |s|
    ensures forall i :: 0 <= i < |s| ==> r[i] == ToLower(s[i])
  {
    seq(|s|, i requires 0 <= i < |s| => ToLower(s[i]))
  }

  lemma ToUpperIdempotent(c: char)
    ensures ToUpper(ToUpper(c)) == ToUpper(c)
  {
  }

  /** Lower-casing forgets an earlier upper-casing. */
  lemma ToLowerUpper(c: char)
    ensures ToLower(ToUpper(c)) == ToLower(c)
  {
  }

  lemma UpperIdempotent(s: String)
    ensures Upper(Upper(s)) == Upper(s)
  {
    forall i | 0 <= i < |s| ensures Upper(Upper(s))[i] == Upper(s)[i] {
      ToUpperIdempotent(s[i]);
    }
  }

  lemma UpperConcat(a: String, b: String)
    ensures Upper(a + b) == Upper(a) + Upper(b)
  {
  }

  /* ---------------------------------------------------------------- filtering */

  /** The characters of `s` that satisfy `keep`, in order. */
  function Filter(s: String, keep: char -> bool): (r: String)
    ensures |r| <= |s|
    ensures forall i :: 0 <= i < |r| ==> keep(r[i])
  {
    if |s| == 0 then []
    else (if keep(s[0]) then [s[0]] else []) + Filter(s[1..], keep)
  }

  /** A kept character of the input appears in the output. */
  lemma {:induction false} FilterKeeps(s: String, keep: char -> bool, c: char)
    requires c in s && keep(c)
    ensures c in Filter(s, keep)
  {
    if s[0] != c {
      FilterKeeps(s[1..], keep, c);
    }
  }

  /** Every character of the output comes from the input and is kept. */
  lemma {:induction false} FilterFrom(s: String, keep: char -> bool, c: char)
    requires c in Filter(s, keep)
    ensures c in s && keep(c)
  {
    var head: String := if keep(s[0]) then [s[0]] else [];
    assert Filter(s, keep) == head + Filter(s[1..], keep);
    if c !in head {
      FilterFrom(s[1..], keep, c);
    }
  }

  lemma {:induction false} FilterConcat(a: String, b: String, keep: char -> bool)
    ensures Filter(a + b, keep) == Filter(a, keep) + Filter(b, keep)
  {
    if |a| == 0 {
      assert a + b == b;
    } else {
      assert (a + b)[1..] == a[1..] + b;
      FilterConcat(a[1..], b, keep);
    }
  }

  lemma {:induction false} FilterKeepsAll(s: String, keep: char -> bool)
    requires forall i :: 0 <= i < |s| ==> keep(s[i])
    ensures Filter(s, keep) == s
  {
    if |s| > 0 {
      FilterKeepsAll(s[1..], keep);
    }
  }

  lemma FilterIdempotent(s: String, keep: char -> bool)
    ensures Filter(Filter(s, keep), keep) == Filter(s, keep)
  {
    FilterKeepsAll(Filter(s, keep), keep);
  }

  /** Filtering with a predicate that `ToUpper` respects commutes with upper-casing. */
  lemma {:induction false} FilterUpper(s: String, keep: char -> bool)
    requires forall c :: keep(ToUpper(c)) == keep(c)
    ensures Filter(Upper(s), keep) == Upper(Filter(s, keep))
  {
    if |s| > 0 {
      var c, t, u := s[0], s[1..], Upper(s);
      assert u[0] == ToUpper(c) && u[1..] == Upper(t);
      FilterUpper(t, keep);
      var head: String := if keep(c) then [c] else [];
      assert Filter(s, keep) == head + Filter(t, keep);
      UpperConcat(head, Filter(t, keep));
      assert keep(ToUpper(c)) == keep(c);
      assert Upper(head) == if keep(ToUpper(c)) then [ToUpper(c)] else [];
    }
  }

  /** The ASCII digits of `s`, in order. */
  function Digits(s: String): (r: String)
    ensures AllDigits(r)
    ensures |r| <= |s|
  {
    Filter(s, IsDigit)
  }

  /* ---------------------------------------------------------------- trimming */

  function TrimStart(s: String): (r: String)
    ensures |r| <= |s| && r == s[|s| - |r|..]
    ensures forall i :: 0 <= i < |s| - |r| ==> IsSpace(s[i])
    ensures |r| > 0 ==> !IsSpace(r[0])
  {
    if |s| > 0 && IsSpace(s[0]) then
      var r := TrimStart(s[1..]);
      assert s[1..][|s| - 1 - |r|..] == s[|s| - |r|..];
      r
    else s
  }

  function TrimEnd(s: String): (r: String)
    ensures |r| <= |s| && r == s[..|r|]
    ensures forall i :: |r| <= i < |s| ==> IsSpace(s[i])
    ensures |r| > 0 ==> !IsSpace(r[|r| - 1])
  {
    if |s| > 0 && IsSpace(s[|s| - 1]) then
      var r := TrimEnd(s[..|s| - 1]);
      assert s[..|s| - 1][..|r|] == s[..|r|];
      r
    else s
  }

  /**
   Python's `str.strip()`: `s` without whitespace at either end. StripIsTrims and
   StripIsSlice show that only the whitespace at the two ends is removed.
   */
  function Strip(s: String): (r: String)
    ensures |r| > 0 ==> !IsSpace(r[0]) && !IsSpace(r[|r| - 1])
    ensures (|s| == 0 || (!IsSpace(s[0]) && !IsSpace(s[|s| - 1]))) ==> r == s
    decreases |s|
  {
    if |s| > 0 && IsSpace(s[0]) then Strip(s[1..]) else TrimEnd(s)
  }

  /** Every non-whitespace character of `s` survives `Strip`. */
  lemma {:induction false} StripKeepsNonSpace(s: String, c: char)
    requires c in s && !IsSpace(c)
    ensures c in Strip(s)
  {
    if |s| > 0 && IsSpace(s[0]) {
      assert c in s[1..];
      StripKeepsNonSpace(s[1..], c);
    } else {
      var k :| 0 <= k < |s| && s[k] == c;
      var r := TrimEnd(s);
      assert k < |r|;
      assert r[k] == c;
    }
  }

  /** A filter that drops whitespace does not see leading whitespace. */
  lemma {:induction false} FilterIgnoresTrimStart(s: String, keep: char -> bool)
    requires forall c :: IsSpace(c) ==> !keep(c)
    ensures Filter(TrimStart(s), keep) == Filter(s, keep)
    decreases |s|
  {
    if |s| > 0 && IsSpace(s[0]) {
      assert !keep(s[0]);
      FilterIgnoresTrimStart(s[1..], keep);
    }
  }

  /** A filter that drops whitespace does not see trailing whitespace. */
  lemma {:induction false} FilterIgnoresTrimEnd(s: String, keep: char -> bool)
    requires forall c :: IsSpace(c) ==> !keep(c)
    ensures Filter(TrimEnd(s), keep) == Filter(s, keep)
    decreases |s|
  {
    if |s| > 0 && IsSpace(s[|s| - 1]) {
      var init, last := s[..|s| - 1], s[|s| - 1];
      assert s == init + [last];
      FilterConcat(init, [last], keep);
      assert !keep(last);
      FilterIgnoresTrimEnd(init, keep);
    }
  }

  /** A filter that drops whitespace gives the same result before and after `Strip`. */
  lemma {:induction false} FilterIgnoresStrip(s: String, keep: char -> bool)
    requires forall c :: IsSpace(c) ==> !keep(c)
    ensures Filter(Strip(s), keep) == Filter(s, keep)
    decreases |s|
  {
    if |s| > 0 && IsSpace(s[0]) {
      FilterIgnoresStrip(s[1..], keep);
    } else {
      FilterIgnoresTrimEnd(s, keep);
    }
  }

  /** `Strip` drops the leading whitespace, then the trailing whitespace. */
  lemma {:induction false} StripIsTrims(s: String)
    ensures Strip(s) == TrimEnd(TrimStart(s))
    decreases |s|
  {
    if |s| > 0 && IsSpace(s[0]) {
      StripIsTrims(s[1..]);
    }
  }

  /**
   `Strip` returns the slice of its input between a whitespace prefix and a
   whitespace suffix: nothing but whitespace is removed, and the rest keeps its order.
   */
  lemma {:induction false} StripIsSlice(s: String) returns (i: nat, j: nat)
    ensures i <= j <= |s| && Strip(s) == s[i..j]
    ensures forall k :: 0 <= k < i ==> IsSpace(s[k])
    ensures forall k :: j <= k < |s| ==> IsSpace(s[k])
    decreases |s|
  {
    if |s| > 0 && IsSpace(s[0]) {
      var i', j' := StripIsSlice(s[1..]);
      i, j := i' + 1, j' + 1;
      forall k | 0 <= k < i ensures IsSpace(s[k]) {
        if k > 0 {
          assert s[k] == s[1..][k - 1];
        }
      }
      forall k | j <= k < |s| ensures IsSpace(s[k]) {
        assert s[k] == s[1..][k - 1];
      }
    } else {
      i, j := 0, |TrimEnd(s)|;
    }
  }

  /* ---------------------------------------------------------------- search */

  predicate StartsWith(s: String, p: String) {
    |p| <= |s| && s[..|p|] == p
  }

  /** Python's `p in s`. */
  predicate Contains(s: String, p: String)
    decreases |s|
  {
    StartsWith(s, p) || (|s| > 0 && Contains(s[1..], p))
  }

  lemma {:induction false} ContainsAt(s: String, p: String, i: nat)
    requires i + |p| <= |s| && s[i..i + |p|] == p
    ensures Contains(s, p)
  {
    if i > 0 {
      assert s[1..][i - 1..i - 1 + |p|] == s[i..i + |p|];
      ContainsAt(s[1..], p, i - 1);
    } else {
      assert s[..|p|] == s[0..|p|];
    }
  }

  lemma {:induction false} ContainsWitness(s: String, p: String) returns (i: nat)
    requires Contains(s, p)
    ensures i + |p| <= |s| && s[i..i + |p|] == p
  {
    if StartsWith(s, p) {
      i := 0;
    } else {
      var j := ContainsWitness(s[1..], p);
      i := j + 1;
      assert s[i..i + |p|] == s[1..][j..j + |p|];
    }
  }

  /** An occurrence inside a piece is an occurrence inside anything built around that piece. */
  lemma ContainsInContext(a: String, b: String, c: String, p: String)
    requires Contains(b, p)
    ensures Contains(a + b + c, p)
  {
    var i := ContainsWitness(b, p);
    assert (a + b + c)[|a| + i..|a| + i + |p|] == b[i..i + |p|];
    ContainsAt(a + b + c, p, |a| + i);
  }

  lemma ContainsChar(s: String, c: char)
    ensures Contains(s, [c]) <==> c in s
  {
    if c in s {
      var i :| 0 <= i < |s| && s[i] == c;
      assert s[i..i + 1] == [c];
      ContainsAt(s, [c], i);
    }
    if Contains(s, [c]) {
      var i := ContainsWitness(s, [c]);
      assert s[i] == s[i..i + 1][0];
    }
  }

  /* ---------------------------------------------------------------- replace */

  /**
   Python's `s.replace(p, r)` for a non-empty pattern: scanning left to right, every
   non-overlapping occurrence of `p` is replaced by `r`.
   */
  function ReplaceAll(s: String, p: String, r: String): (t: String)
    requires |p| > 0
    ensures |p| == |r| ==> |t| == |s|
    decreases |s|
  {
    if |s| == 0 then []
    else if StartsWith(s, p) then r + ReplaceAll(s[|p|..], p, r)
    else [s[0]] + ReplaceAll(s[1..], p, r)
  }

  /** Replacing adds no character other than those of the replacement. */
  lemma {:induction false} ReplaceAllFrom(s: String, p: String, r: String)
    requires |p| > 0
    ensures forall i :: 0 <= i < |ReplaceAll(s, p, r)| ==> ReplaceAll(s, p, r)[i] in s || ReplaceAll(s, p, r)[i] in r
    decreases |s|
  {
    if |s| > 0 {
      var t := ReplaceAll(s, p, r);
      if StartsWith(s, p) {
        var rest := s[|p|..];
        ReplaceAllFrom(rest, p, r);
        assert t == r + ReplaceAll(rest, p, r);
        forall i | 0 <= i < |t| ensures t[i] in s || t[i] in r {
          if i >= |r| {
            var c := ReplaceAll(rest, p, r)[i - |r|];
            assert t[i] == c;
            if c in rest {
              var k :| 0 <= k < |rest| && rest[k] == c;
              assert s[|p| + k] == c;
            }
          }
        }
      } else {
        var rest := s[1..];
        ReplaceAllFrom(rest, p, r);
        assert t == [s[0]] + ReplaceAll(rest, p, r);
        forall i | 0 <= i < |t| ensures t[i] in s || t[i] in r {
          if i >= 1 {
            var c := ReplaceAll(rest, p, r)[i - 1];
            assert t[i] == c;
            if c in rest {
              var k :| 0 <= k < |rest| && rest[k] == c;
              assert s[1 + k] == c;
            }
          }
        }
      }
    }
  }

  /** Replacing a pattern that does not occur leaves the text as it was. */
  lemma {:induction false} ReplaceAbsent(s: String, p: String, r: String)
    requires |p| > 0 && !Contains(s, p)
    ensures ReplaceAll(s, p, r) == s
  {
    if |s| > 0 {
      ReplaceAbsent(s[1..], p, r);
    }
  }

  /** Removing a suffix from a text made of characters the suffix cannot start with. */
  lemma {:induction false} ReplaceTrailingSuffix(x: String, p: String)
    requires |p| > 0 && forall i :: 0 <= i < |x| ==> x[i] != p[0]
    ensures ReplaceAll(x + p, p, []) == x
  {
    if |x| == 0 {
      assert x + p == p;
      assert (x + p)[|p|..] == [];
    } else {
      assert !StartsWith(x + p, p) by {
        assert (x + p)[0] == x[0];
      }
      assert (x + p)[1..] == x[1..] + p;
      ReplaceTrailingSuffix(x[1..], p);
      assert x == [x[0]] + x[1..];
    }
  }

  /* ---------------------------------------------------------------- decimal numbers */

  function DigitChar(d: nat): (c: char)
    requires d < 10
    ensures IsDigit(c)
  {
    ('0' as int + d) as char
  }

  function DigitValue(c: char): (d: nat)
    requires IsDigit(c)
    ensures d < 10 && DigitChar(d) == c
    ensures forall e :: 0 <= e < 10 && DigitChar(e) == c ==> e == d
  {
    c as int - '0' as int
  }

  /** Python's `str(n)` for a natural number: decimal, no leading zeros. */
  function NatToDecimal(n: nat): (r: String)
    ensures |r| > 0 && AllDigits(r)
    ensures |r| > 1 ==> r[0] != '0'
  {
    if n < 10 then [DigitChar(n)] else NatToDecimal(n / 10) + [DigitChar(n % 10)]
  }

  /** The value of a string of decimal digits, most significant first; leading zeros allowed. */
  function DecimalValue(s: String): nat
    requires AllDigits(s)
  {
    if |s| == 0 then 0 else 10 * DecimalValue(s[..|s| - 1]) + DigitValue(s[|s| - 1])
  }

  /** Appending a digit multiplies the value by ten and adds the digit. */
  lemma DecimalAppend(s: String, c: char)
    requires AllDigits(s) && IsDigit(c)
    ensures DecimalValue(s + [c]) == 10 * DecimalValue(s) + DigitValue(c)
  {
    assert (s + [c])[..|s|] == s;
  }

  lemma {:induction false} DecimalRoundTrip(n: nat)
    ensures DecimalValue(NatToDecimal(n)) == n
  {
    if n >= 10 {
      var r := NatToDecimal(n);
      assert r[..|r| - 1] == NatToDecimal(n / 10);
      DecimalRoundTrip(n / 10);
    }
  }

  /** A digit string that does not start with `0` has a positive value. */
  lemma {:induction false} LeadingDigitPositive(s: String)
    requires |s| > 0 && AllDigits(s) && s[0] != '0'
    ensures DecimalValue(s) > 0
    decreases |s|
  {
    if |s| > 1 {
      LeadingDigitPositive(s[..|s| - 1]);
    }
  }

  /** A digit string without a padding zero is what `str` prints for its value. */
  lemma {:induction false} DecimalOfValue(s: String)
    requires |s| > 0 && AllDigits(s) && (|s| > 1 ==> s[0] != '0')
    ensures NatToDecimal(DecimalValue(s)) == s
    decreases |s|
  {
    var v := DecimalValue(s);
    if |s| > 1 {
      var p := s[..|s| - 1];
      LeadingDigitPositive(p);
      DecimalOfValue(p);
      var d := DigitValue(s[|s| - 1]);
      assert v == 10 * DecimalValue(p) + d;
      assert v / 10 == DecimalValue(p) && v % 10 == d;
      assert s == p + [s[|s| - 1]];
    }
  }

  /** Distinct numbers print differently. */
  lemma DecimalInjective(m: nat, n: nat)
    requires NatToDecimal(m) == NatToDecimal(n)
    ensures m == n
  {
    DecimalRoundTrip(m);
    DecimalRoundTrip(n);
  }

  /** Python's `str(i)` for an integer. */
  function IntToString(i: int): (r: String)
    ensures |r| > 0
  {
    if i < 0 then "-" + NatToDecimal(-i) else NatToDecimal(i)
  }

  /**
   The literal form Python's `int()` accepts for a number without its sign: digits,
   where single underscores may stand between two digits.
   */
  predicate IsDigitGroups(b: String) {
    |b| > 0 && IsDigit(b[0]) && MoreDigitGroups(b[1..])
  }

  /** What may follow a digit: nothing, another digit, or one underscore and a digit. */
  predicate MoreDigitGroups(r: String)
    decreases |r|
  {
    || |r| == 0
    || (IsDigit(r[0]) && MoreDigitGroups(r[1..]))
    || (|r| >= 2 && r[0] == '_' && IsDigit(r[1]) && MoreDigitGroups(r[2..]))
  }

  lemma {:induction false} DigitsAreMoreGroups(r: String)
    requires AllDigits(r)
    ensures MoreDigitGroups(r)
  {
    if |r| > 0 {
      DigitsAreMoreGroups(r[1..]);
    }
  }

  function GroupsValue(b: String): nat {
    DecimalValue(Digits(b))
  }

  /**
   Python's `int(s)` in base 10: surrounding whitespace, one optional sign, then digit
   groups. `None` stands for the `ValueError` it raises on anything else.
   */
  function ParseInt(s: String): (r: Option<int>)
    ensures r.Some? ==> |Strip(s)| > 0
    ensures r.Some? && r.value < 0 ==> Strip(s)[0] == '-'
  {
    var t := Strip(s);
    if |t| > 0 && (t[0] == '-' || t[0] == '+') then
      var b := t[1..];
      var v: int := GroupsValue(b);
      if IsDigitGroups(b) then Some(if t[0] == '-' then -v else v)
      else None
    else if IsDigitGroups(t) then Some(GroupsValue(t))
    else None
  }

  /** A plain run of digits parses to its decimal value. */
  lemma ParseIntOfDigits(s: String)
    requires |s| > 0 && AllDigits(s)
    ensures ParseInt(s) == Some(DecimalValue(s))
  {
    DigitsAreGroups(s);
    assert !IsSpace(s[0]) && !IsSpace(s[|s| - 1]);
    var t := Strip(s);
    assert t == s;
    assert t[0] != '-' && t[0] != '+';
  }

  /** A plain run of digits is a digit-group literal worth its decimal value. */
  lemma DigitsAreGroups(s: String)
    requires |s| > 0 && AllDigits(s)
    ensures IsDigitGroups(s) && GroupsValue(s) == DecimalValue(s)
  {
    assert IsDigit(s[0]);
    DigitsAreMoreGroups(s[1..]);
    FilterKeepsAll(s, IsDigit);
  }

  /** `int(str(n)) == n`. */
  lemma ParseIntOfDecimal(n: nat)
    ensures ParseInt(NatToDecimal(n)) == Some(n)
  {
    ParseIntOfDigits(NatToDecimal(n));
    DecimalRoundTrip(n);
  }
}
