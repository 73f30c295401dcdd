/**
 The text formatters of core/utils.py: the verbose Russian date, file-name
 sanitising, phone formatting and the spelling of numbers from 10 to 99.
 */
module Formatters {
  import opened Options
  import opened Strings

  /* ---------------------------------------------------------------- verbose date */

  /** Month names in the genitive case, indexed by month number minus one. */
  const MonthNames: seq<String> := [
    "января", "февраля", "марта", "апреля", "мая", "июня",
    "июля", "августа", "сентября", "октября", "ноября", "декабря"
  ]

  /**
   `"{day} {month name} {year} г."`, the day and year printed without padding. The text
   reads back as the date it spells.
   */
  function VerboseDate(day: nat, month: nat, year: nat): (r: String)
    requires 1 <= month <= 12
    ensures ReadVerboseDate(r) == Some((day, month, year))
  {
    ReadJoinedDate(day, month, year);
    NatToDecimal(day) + " " + (MonthNames[month - 1] + " " + (NatToDecimal(year) + " г."))
  }

  /** A digit group as `str` prints a number: no leading zero unless the number is zero. */
  predicate Unpadded(s: String) {
    |s| > 1 ==> s[0] != '0'
  }

  /**
   Reads a verbose date back: the day digits, a space, a month name, a space, the year
   digits and ` г.`, both digit groups without padding zeros. Any other text gives `None`.
   */
  function ReadVerboseDate(w: String): Option<(nat, nat, nat)> {
    var d := BeforeSpace(w);
    if |d| == |w| then None
    else
      var rest := w[|d| + 1..];
      var name := BeforeSpace(rest);
      if |name| == |rest| then None
      else
        var tail := rest[|name| + 1..];
        if |d| == 0 || !AllDigits(d) || !Unpadded(d) || MonthNumber(name).None? || |tail| < 4 || tail[|tail| - 3..] != " г." then None
        else
          var y := tail[..|tail| - 3];
          if AllDigits(y) && Unpadded(y) then Some((DecimalValue(d), MonthNumber(name).value, DecimalValue(y))) else None
  }

  /** The pieces of a verbose date are found again by splitting at the spaces. */
  lemma ReadJoinedDate(day: nat, month: nat, year: nat)
    requires 1 <= month <= 12
    ensures ReadVerboseDate(NatToDecimal(day) + " " + (MonthNames[month - 1] + " " + (NatToDecimal(year) + " г."))) == Some((day, month, year))
  {
    var a, n, ys := NatToDecimal(day), MonthNames[month - 1], NatToDecimal(year);
    var tail := ys + " г.";
    var rest := n + " " + tail;
    var w := a + " " + rest;
    DecimalHasNoSpace(day);
    MonthNameRoundTrip(month);
    BeforeSpaceOfJoin(a, rest);
    assert w[|a| + 1..] == rest;
    BeforeSpaceOfJoin(n, tail);
    assert rest[|n| + 1..] == tail;
    assert tail[|tail| - 3..] == " г.";
    assert tail[..|tail| - 3] == ys;
    DecimalRoundTrip(day);
    DecimalRoundTrip(year);
  }

  /** A zero-padded day, as `%d` would print it, is not a verbose date. */
  lemma PaddedDayRejected(d: String, rest: String)
    requires |d| > 1 && d[0] == '0' && ' ' !in d
    ensures ReadVerboseDate(d + " " + rest) == None
  {
    BeforeSpaceOfJoin(d, rest);
  }

  /** A text with a space is its part before the first space, the space, and the rest. */
  lemma SplitBack(w: String, head: String)
    requires |head| < |w| && head == w[..|head|] && w[|head|] == ' '
    ensures w == head + " " + w[|head| + 1..]
  {
    var x := head + " " + w[|head| + 1..];
    forall i | 0 <= i < |w| ensures x[i] == w[i] {
      if i < |head| {
        assert x[i] == head[i];
      } else if i > |head| {
        assert x[i] == w[|head| + 1..][i - |head| - 1];
      }
    }
  }

  /** The first two cuts of an accepted verbose date: day digits, month name, and the year tail. */
  lemma ReadCuts(w: String) returns (ds: String, name: String, tail: String)
    requires ReadVerboseDate(w).Some?
    ensures w == ds + " " + (name + " " + tail)
    ensures ds == BeforeSpace(w) && name == BeforeSpace(w[|ds| + 1..]) && tail == w[|ds| + 1..][|name| + 1..]
  {
    ds := BeforeSpace(w);
    var rest := w[|ds| + 1..];
    name := BeforeSpace(rest);
    tail := rest[|name| + 1..];
    SplitBack(w, ds);
    SplitBack(rest, name);
  }

  /** A text ending in ` г.` is the text before it followed by ` г.`. */
  lemma YearTail(tail: String)
    requires |tail| >= 3 && tail[|tail| - 3..] == " г."
    ensures tail == tail[..|tail| - 3] + " г."
  {
  }

  /** What an accepted verbose date is made of: day digits, month name and year digits. */
  lemma ReadParts(w: String) returns (ds: String, name: String, ys: String)
    requires ReadVerboseDate(w).Some?
    ensures w == ds + " " + (name + " " + (ys + " г."))
    ensures |ds| > 0 && AllDigits(ds) && Unpadded(ds) && |ys| > 0 && AllDigits(ys) && Unpadded(ys)
    ensures MonthNumber(name).Some?
    ensures ReadVerboseDate(w) == Some((DecimalValue(ds), MonthNumber(name).value, DecimalValue(ys)))
  {
    var tail;
    ds, name, tail := ReadCuts(w);
    ys := tail[..|tail| - 3];
    YearTail(tail);
  }

  /** Every month number names its month in the table. */
  lemma MonthNameOf(name: String)
    requires MonthNumber(name).Some?
    ensures 1 <= MonthNumber(name).value <= 12 && MonthNames[MonthNumber(name).value - 1] == name
  {
  }

  /** The reader accepts nothing but verbose dates: a text that reads as a date is that date's text. */
  lemma ReadVerboseDateExact(w: String)
    requires ReadVerboseDate(w).Some?
    ensures var (d, m, y) := ReadVerboseDate(w).value; 1 <= m <= 12 && w == VerboseDate(d, m, y)
  {
    var ds, name, ys := ReadParts(w);
    DecimalOfValue(ds);
    DecimalOfValue(ys);
    MonthNameOf(name);
  }

  /** The month number a genitive month name stands for. */
  function MonthNumber(name: String): Option<nat> {
    if name == "января" then Some(1)
    else if name == "февраля" then Some(2)
    else if name == "марта" then Some(3)
    else if name == "апреля" then Some(4)
    else if name == "мая" then Some(5)
    else if name == "июня" then Some(6)
    else if name == "июля" then Some(7)
    else if name == "августа" then Some(8)
    else if name == "сентября" then Some(9)
    else if name == "октября" then Some(10)
    else if name == "ноября" then Some(11)
    else if name == "декабря" then Some(12)
    else None
  }

  /** The month table is a one-to-one naming of the months; no name contains a space. */
  lemma MonthNameRoundTrip(month: nat)
    requires 1 <= month <= 12
    ensures MonthNumber(MonthNames[month - 1]) == Some(month)
    ensures ' ' !in MonthNames[month - 1]
  {
    if month == 1 {} else if month == 2 {} else if month == 3 {} else if month == 4 {}
    else if month == 5 {} else if month == 6 {} else if month == 7 {} else if month == 8 {}
    else if month == 9 {} else if month == 10 {} else if month == 11 {} else {}
  }

  /** Position `i` of `w` holds its first space. */
  predicate IsFirstSpace(w: String, i: nat) {
    i < |w| && w[i] == ' ' && forall k :: 0 <= k < i ==> w[k] != ' '
  }

  lemma FirstSpaceUnique(w: String, i: nat, j: nat)
    requires IsFirstSpace(w, i) && IsFirstSpace(w, j)
    ensures i == j
  {
  }

  /** Joining a space-free text to another with a space puts the first space right after it. */
  lemma JoinFirstSpace(a: String, x: String)
    requires ' ' !in a
    ensures IsFirstSpace(a + " " + x, |a|)
  {
    var w := a + " " + x;
    forall k | 0 <= k < |a| ensures w[k] != ' ' {
      assert w[k] == a[k];
    }
  }

  /** A text without spaces followed by a space is recovered from the joined text. */
  lemma SplitAtSpace(a: String, x: String, b: String, y: String)
    requires ' ' !in a && ' ' !in b
    requires a + " " + x == b + " " + y
    ensures a == b && x == y
  {
    JoinFirstSpace(a, x);
    JoinFirstSpace(b, y);
    FirstSpaceUnique(a + " " + x, |a|, |b|);
    assert a == (a + " " + x)[..|a|];
    assert b == (b + " " + y)[..|b|];
    assert x == (a + " " + x)[|a| + 1..];
    assert y == (b + " " + y)[|b| + 1..];
  }

  lemma DecimalHasNoSpace(n: nat)
    ensures ' ' !in NatToDecimal(n)
  {
    var r := NatToDecimal(n);
    forall i | 0 <= i < |r| ensures r[i] != ' ' {
      assert IsDigit(r[i]);
    }
  }

  /** A year followed by the abbreviation determines the year. */
  lemma YearSuffixInjective(y1: nat, y2: nat)
    requires NatToDecimal(y1) + " г." == NatToDecimal(y2) + " г."
    ensures y1 == y2
  {
    var t1, t2 := NatToDecimal(y1) + " г.", NatToDecimal(y2) + " г.";
    assert NatToDecimal(y1) == t1[..|t1| - 3];
    assert NatToDecimal(y2) == t2[..|t2| - 3];
    DecimalInjective(y1, y2);
  }

  /** Different dates are spelled differently. */
  lemma VerboseDateInjective(d1: nat, m1: nat, y1: nat, d2: nat, m2: nat, y2: nat)
    requires 1 <= m1 <= 12 && 1 <= m2 <= 12
    requires VerboseDate(d1, m1, y1) == VerboseDate(d2, m2, y2)
    ensures d1 == d2 && m1 == m2 && y1 == y2
  {
    var n1, n2 := MonthNames[m1 - 1], MonthNames[m2 - 1];
    var t1, t2 := NatToDecimal(y1) + " г.", NatToDecimal(y2) + " г.";
    DecimalHasNoSpace(d1);
    DecimalHasNoSpace(d2);
    SplitAtSpace(NatToDecimal(d1), n1 + " " + t1, NatToDecimal(d2), n2 + " " + t2);
    DecimalInjective(d1, d2);
    MonthNameRoundTrip(m1);
    MonthNameRoundTrip(m2);
    SplitAtSpace(n1, t1, n2, t2);
    YearSuffixInjective(y1, y2);
  }

  /* ---------------------------------------------------------------- file names */

  /** The characters Windows forbids in file names: `< > : " / \ | ? *`. */
  predicate IsIllegalFileChar(c: char) {
    c == '<' || c == '>' || c == ':' || c == '"' || c == '/' || c == '\\' || c == '|' || c == '?' || c == '*'
  }

  /** Every forbidden character becomes an underscore. */
  function ReplaceIllegal(s: String): (r: String)
    ensures |r| == |s|
    ensures forall i :: 0 <= i < |s| ==> r[i] == if IsIllegalFileChar(s[i]) then '_' else s[i]
  {
    seq(|s|, i requires 0 <= i < |s| => if IsIllegalFileChar(s[i]) then '_' else s[i])
  }

  /** Every whitespace character is a plain space standing alone. */
  predicate SingleSpaced(s: String) {
    && (forall i :: 0 <= i < |s| && IsSpace(s[i]) ==> s[i] == ' ')
    && (forall i: nat :: i + 1 < |s| ==> NoSpacePairAt(s, i))
  }

  /** Positions `i` and `i + 1` of `s` are not both whitespace. */
  predicate NoSpacePairAt(s: String, i: nat)
    requires i + 1 < |s|
  {
    !IsSpace(s[i]) || !IsSpace(s[i + 1])
  }

  /** What a sanitised file name looks like. */
  predicate IsSanitized(s: String) {
    && (forall i :: 0 <= i < |s| ==> !IsIllegalFileChar(s[i]))
    && (|s| > 0 ==> !IsSpace(s[0]) && !IsSpace(s[|s| - 1]))
    && SingleSpaced(s)
  }

  /** `re.sub(r'\s+', ' ', s)`: each maximal run of whitespace becomes one space. */
  function CollapseSpaces(s: String): (r: String)
    ensures SingleSpaced(r)
    ensures |s| > 0 ==> |r| > 0 && r[0] == if IsSpace(s[0]) then ' ' else s[0]
    decreases |s|
  {
    if |s| == 0 then []
    else if IsSpace(s[0]) then
      var t := CollapseSpaces(TrimStart(s[1..]));
      ConsSingleSpaced(' ', t);
      [' '] + t
    else
      var t := CollapseSpaces(s[1..]);
      ConsSingleSpaced(s[0], t);
      [s[0]] + t
  }

  /** A character may go in front of a single-spaced text unless it would start or extend a run of whitespace. */
  lemma ConsSingleSpaced(c: char, t: String)
    requires SingleSpaced(t)
    requires IsSpace(c) ==> c == ' ' && (|t| > 0 ==> !IsSpace(t[0]))
    ensures SingleSpaced([c] + t)
  {
    var u := [c] + t;
    forall i | 0 <= i < |u| && IsSpace(u[i]) ensures u[i] == ' ' {
      if i > 0 {
        assert u[i] == t[i - 1];
      }
    }
    forall i: nat | i + 1 < |u| ensures NoSpacePairAt(u, i) {
      assert u[i + 1] == t[i];
      if i > 0 {
        assert u[i] == t[i - 1] && NoSpacePairAt(t, i - 1);
      }
    }
  }

  /** Collapsing introduces no forbidden character: its output holds spaces and characters of the input. */
  lemma {:induction false} CollapseKeepsLegal(s: String)
    requires forall i :: 0 <= i < |s| ==> !IsIllegalFileChar(s[i])
    ensures forall i :: 0 <= i < |CollapseSpaces(s)| ==> !IsIllegalFileChar(CollapseSpaces(s)[i])
    decreases |s|
  {
    if |s| > 0 {
      if IsSpace(s[0]) {
        var rest := TrimStart(s[1..]);
        assert forall i :: 0 <= i < |rest| ==> rest[i] == s[1..][|s[1..]| - |rest| + i];
        CollapseKeepsLegal(rest);
        assert CollapseSpaces(s) == [' '] + CollapseSpaces(rest);
      } else {
        CollapseKeepsLegal(s[1..]);
        assert CollapseSpaces(s) == [s[0]] + CollapseSpaces(s[1..]);
      }
    }
  }

  /** Any slice of a single-spaced text is single-spaced. */
  lemma SliceSingleSpaced(s: String, i: nat, j: nat)
    requires i <= j <= |s| && SingleSpaced(s)
    ensures SingleSpaced(s[i..j])
  {
    var t := s[i..j];
    forall k | 0 <= k < |t| && IsSpace(t[k]) ensures t[k] == ' ' {
      assert t[k] == s[i + k];
    }
    forall k: nat | k + 1 < |t| ensures NoSpacePairAt(t, k) {
      assert t[k] == s[i + k] && t[k + 1] == s[i + k + 1] && NoSpacePairAt(s, i + k);
    }
  }

  /** `sanitize_filename`: replace forbidden characters, collapse whitespace, trim. */
  function SanitizeFilename(name: String): (r: String)
    ensures IsSanitized(r)
  {
    var c := CollapseSpaces(ReplaceIllegal(name));
    CollapseKeepsLegal(ReplaceIllegal(name));
    StripShape(c);
    Strip(c)
  }

  /** Trimming keeps a text single-spaced and introduces no new characters. */
  lemma StripShape(c: String)
    requires SingleSpaced(c)
    ensures SingleSpaced(Strip(c))
    ensures forall k :: 0 <= k < |Strip(c)| ==> Strip(c)[k] in c
  {
    var i, j := StripIsSlice(c);
    SliceSingleSpaced(c, i, j);
    assert forall k :: 0 <= k < |Strip(c)| ==> Strip(c)[k] == c[i + k];
  }

  /** A single-spaced text is its own whitespace collapse. */
  lemma {:induction false} CollapseSingleSpaced(s: String)
    requires SingleSpaced(s)
    ensures CollapseSpaces(s) == s
    decreases |s|
  {
    if |s| > 0 {
      var t := s[1..];
      SliceSingleSpaced(s, 1, |s|);
      assert s[1..|s|] == t;
      CollapseSingleSpaced(t);
      CollapseStep(s);
      if IsSpace(s[0]) {
        if |s| > 1 {
          assert NoSpacePairAt(s, 0);
        }
        TrimStartOfNonSpace(t);
        assert s[0] == ' ';
      }
      ConsTail(s);
    }
  }

  lemma ConsTail(s: String)
    requires |s| > 0
    ensures s == [s[0]] + s[1..]
  {
  }

  lemma TrimStartOfNonSpace(t: String)
    requires |t| == 0 || !IsSpace(t[0])
    ensures TrimStart(t) == t
  {
  }

  /** Replacing forbidden characters works character by character, so it splits over concatenation. */
  lemma ReplaceIllegalConcat(a: String, b: String)
    ensures ReplaceIllegal(a + b) == ReplaceIllegal(a) + ReplaceIllegal(b)
  {
    var l, r := ReplaceIllegal(a + b), ReplaceIllegal(a) + ReplaceIllegal(b);
    forall i | 0 <= i < |l| ensures l[i] == r[i] {
      if i < |a| {
        assert (a + b)[i] == a[i];
      } else {
        assert (a + b)[i] == b[i - |a|];
      }
    }
  }

  /** A non-space boundary stops the trimming of leading whitespace. */
  lemma {:induction false} TrimStartAppend(a: String, b: String)
    requires (|a| > 0 && !IsSpace(a[|a| - 1])) || (|b| > 0 && !IsSpace(b[0]))
    ensures TrimStart(a + b) == TrimStart(a) + b
    decreases |a|
  {
    if |a| == 0 {
      assert a + b == b;
      TrimStartOfNonSpace(b);
    } else if IsSpace(a[0]) {
      assert (a + b)[1..] == a[1..] + b;
      TrimStartAppend(a[1..], b);
    }
  }

  /** One step of collapsing: a whitespace run becomes one space, any other character is kept. */
  lemma CollapseStep(s: String)
    requires |s| > 0
    ensures IsSpace(s[0]) ==> CollapseSpaces(s) == [' '] + CollapseSpaces(TrimStart(s[1..]))
    ensures !IsSpace(s[0]) ==> CollapseSpaces(s) == [s[0]] + CollapseSpaces(s[1..])
  {
  }

  lemma ConsAppend(c: char, x: String, y: String)
    ensures [c] + (x + y) == ([c] + x) + y
  {
  }

  /** One step of collapsing a concatenation whose left part is not empty. */
  lemma CollapseConsConcat(a: String, b: String)
    requires |a| > 0
    ensures IsSpace(a[0]) ==> CollapseSpaces(a + b) == [' '] + CollapseSpaces(TrimStart(a[1..] + b))
    ensures !IsSpace(a[0]) ==> CollapseSpaces(a + b) == [a[0]] + CollapseSpaces(a[1..] + b)
  {
    var ab := a + b;
    assert ab[0] == a[0] && ab[1..] == a[1..] + b;
    CollapseStep(ab);
  }

  /** The inductive step of CollapseConcat when `a` starts with whitespace. */
  lemma CollapseConcatSpace(a: String, b: String)
    requires |a| > 0 && IsSpace(a[0])
    requires TrimStart(a[1..] + b) == TrimStart(a[1..]) + b
    requires CollapseSpaces(TrimStart(a[1..]) + b) == CollapseSpaces(TrimStart(a[1..])) + CollapseSpaces(b)
    ensures CollapseSpaces(a + b) == CollapseSpaces(a) + CollapseSpaces(b)
  {
    CollapseConsConcat(a, b);
    CollapseStep(a);
    ConsAppend(' ', CollapseSpaces(TrimStart(a[1..])), CollapseSpaces(b));
  }

  /** The inductive step of CollapseConcat when `a` starts with any other character. */
  lemma CollapseConcatChar(a: String, b: String)
    requires |a| > 0 && !IsSpace(a[0])
    requires CollapseSpaces(a[1..] + b) == CollapseSpaces(a[1..]) + CollapseSpaces(b)
    ensures CollapseSpaces(a + b) == CollapseSpaces(a) + CollapseSpaces(b)
  {
    CollapseConsConcat(a, b);
    CollapseStep(a);
    ConsAppend(a[0], CollapseSpaces(a[1..]), CollapseSpaces(b));
  }

  /** Whitespace runs do not cross a non-space boundary, so collapsing splits there. */
  lemma {:induction false} CollapseConcat(a: String, b: String)
    requires (|a| > 0 && !IsSpace(a[|a| - 1])) || (|b| > 0 && !IsSpace(b[0]))
    ensures CollapseSpaces(a + b) == CollapseSpaces(a) + CollapseSpaces(b)
    decreases |a|
  {
    if |a| == 0 {
      assert a + b == b;
    } else {
      var rest := a[1..];
      if IsSpace(a[0]) {
        assert |a| > 0 && !IsSpace(a[|a| - 1]) ==> |rest| > 0 && rest[|rest| - 1] == a[|a| - 1];
        TrimStartAppend(rest, b);
        var t := TrimStart(rest);
        assert |rest| > 0 && !IsSpace(rest[|rest| - 1]) ==> |t| > 0 && t[|t| - 1] == rest[|rest| - 1];
        CollapseConcat(t, b);
        CollapseConcatSpace(a, b);
      } else if |a| == 1 {
        assert rest + b == b && rest == [];
        CollapseConcatChar(a, b);
      } else {
        assert rest[|rest| - 1] == a[|a| - 1];
        CollapseConcat(rest, b);
        CollapseConcatChar(a, b);
      }
    }
  }

  /** Two single-spaced texts joined at a non-space boundary stay single-spaced. */
  lemma SingleSpacedConcat(x: String, y: String)
    requires SingleSpaced(x) && SingleSpaced(y)
    requires (|x| > 0 && !IsSpace(x[|x| - 1])) || (|y| > 0 && !IsSpace(y[0]))
    ensures SingleSpaced(x + y)
  {
    var u := x + y;
    forall i | 0 <= i < |u| && IsSpace(u[i]) ensures u[i] == ' ' {
      if i < |x| {
        assert u[i] == x[i];
      } else {
        assert u[i] == y[i - |x|];
      }
    }
    forall i: nat | i + 1 < |u| ensures NoSpacePairAt(u, i) {
      if i + 1 < |x| {
        assert u[i] == x[i] && u[i + 1] == x[i + 1] && NoSpacePairAt(x, i);
      } else if i >= |x| {
        assert u[i] == y[i - |x|] && u[i + 1] == y[i + 1 - |x|] && NoSpacePairAt(y, i - |x|);
      } else {
        assert u[i] == x[|x| - 1] && u[i + 1] == y[0];
      }
    }
  }

  /**
   Sanitising a name framed by two non-empty sanitised texts keeps the frame as it is:
   only the middle has its forbidden characters replaced and its whitespace collapsed.
   */
  lemma SanitizeKeepsFrame(p: String, m: String, q: String)
    requires |p| > 0 && |q| > 0 && IsSanitized(p) && IsSanitized(q)
    ensures SanitizeFilename(p + m + q) == p + CollapseSpaces(ReplaceIllegal(m)) + q
  {
    var r := ReplaceIllegal(m);
    ReplaceIllegalConcat(p + m, q);
    ReplaceIllegalConcat(p, m);
    assert ReplaceIllegal(p) == p && ReplaceIllegal(q) == q;
    assert ReplaceIllegal(p + m + q) == p + r + q;
    var pr := p + r;
    assert pr[|pr| - 1] == p[|p| - 1] || |r| > 0;
    CollapseConcat(pr, q);
    CollapseConcat(p, r);
    CollapseSingleSpaced(p);
    CollapseSingleSpaced(q);
    var x := p + CollapseSpaces(r) + q;
    assert CollapseSpaces(ReplaceIllegal(p + m + q)) == x;
    assert x[0] == p[0] && x[|x| - 1] == q[|q| - 1];
  }

  /** A sanitised name is left unchanged by sanitising. */
  lemma SanitizedIsFixpoint(s: String)
    requires IsSanitized(s)
    ensures SanitizeFilename(s) == s
  {
    assert ReplaceIllegal(s) == s;
    CollapseSingleSpaced(s);
  }

  /** Sanitising is idempotent. */
  lemma SanitizeIdempotent(name: String)
    ensures SanitizeFilename(SanitizeFilename(name)) == SanitizeFilename(name)
  {
    SanitizedIsFixpoint(SanitizeFilename(name));
  }

  predicate IsNotSpace(c: char) {
    !IsSpace(c)
  }

  lemma SpaceIsNotKept()
    ensures forall c :: IsSpace(c) ==> !IsNotSpace(c)
  {
  }

  /** Collapsing whitespace keeps every other character, in order. */
  lemma {:induction false} CollapseKeepsText(s: String)
    ensures Filter(CollapseSpaces(s), IsNotSpace) == Filter(s, IsNotSpace)
    decreases |s|
  {
    if |s| > 0 {
      if IsSpace(s[0]) {
        var rest := TrimStart(s[1..]);
        CollapseKeepsText(rest);
        FilterConcat(" ", CollapseSpaces(rest), IsNotSpace);
        SpaceIsNotKept();
        FilterIgnoresTrimStart(s[1..], IsNotSpace);
      } else {
        CollapseKeepsText(s[1..]);
        FilterConcat([s[0]], CollapseSpaces(s[1..]), IsNotSpace);
      }
    }
  }

  /** Sanitising changes only whitespace and forbidden characters: the remaining
      characters are those of the name with forbidden characters replaced, in order. */
  lemma SanitizeKeepsText(name: String)
    ensures Filter(SanitizeFilename(name), IsNotSpace) == Filter(ReplaceIllegal(name), IsNotSpace)
  {
    var c := CollapseSpaces(ReplaceIllegal(name));
    SpaceIsNotKept();
    FilterIgnoresStrip(c, IsNotSpace);
    CollapseKeepsText(ReplaceIllegal(name));
  }

  /* ---------------------------------------------------------------- phone */

  /** Python's `s.zfill(width)` for text without a sign: left-pad with zeros. */
  function ZeroFill(s: String, width: nat): (r: String)
    ensures |r| == if |s| < width then width else |s|
    ensures r[|r| - |s|..] == s
    ensures forall i :: 0 <= i < |r| - |s| ==> r[i] == '0'
  {
    if |s| < width then seq(width - |s|, _ => '0') + s else s
  }

  /** The last eleven digits of a phone number, zero-padded to eleven. */
  function PhoneDigits(phone: String): (d: String)
    ensures |d| == 11 && AllDigits(d)
    ensures var digits := Digits(phone);
      var k := if |digits| > 11 then 11 else |digits|;
      && d[11 - k..] == digits[|digits| - k..]
      && forall i :: 0 <= i < 11 - k ==> d[i] == '0'
  {
    var digits := Digits(phone);
    var last := if |digits| > 11 then digits[|digits| - 11..] else digits;
    var d := ZeroFill(last, 11);
    assert forall i :: 0 <= i < 11 ==> IsDigit(d[i]) by {
      forall i | 0 <= i < 11 ensures IsDigit(d[i]) {
        if i >= 11 - |last| {
          assert d[i] == d[11 - |last|..][i - (11 - |last|)];
        }
      }
    }
    d
  }

  /** The `+D DDD DDD-DD-DD` layout. */
  predicate IsPhoneLayout(f: String) {
    && |f| == 16
    && f[0] == '+' && IsDigit(f[1]) && f[2] == ' ' && IsDigit(f[3]) && IsDigit(f[4]) && IsDigit(f[5])
    && f[6] == ' ' && IsDigit(f[7]) && IsDigit(f[8]) && IsDigit(f[9]) && f[10] == '-'
    && IsDigit(f[11]) && IsDigit(f[12]) && f[13] == '-' && IsDigit(f[14]) && IsDigit(f[15])
  }

  /** Eleven digits laid out as `+D DDD DDD-DD-DD`. */
  function PhoneLayout(d: String): String
    requires |d| == 11
  {
    "+" + d[0..1] + " " + d[1..4] + " " + d[4..7] + "-" + d[7..9] + "-" + d[9..11]
  }

  /**
   `format_phone`: the padded digits laid out as `+D DDD DDD-DD-DD`, together with the
   last four digits as `DD DD`.
   */
  function FormatPhone(phone: String): (r: (String, String))
    ensures IsPhoneLayout(r.0)
    ensures Digits(r.0) == PhoneDigits(phone)
    ensures r.1 == r.0[11..13] + " " + r.0[14..16]
  {
    var d := PhoneDigits(phone);
    LayoutShape(d);
    DigitsOfLayout(d);
    (PhoneLayout(d), d[7..9] + " " + d[9..11])
  }

  lemma LayoutShape(d: String)
    requires |d| == 11 && AllDigits(d)
    ensures IsPhoneLayout(PhoneLayout(d))
    ensures PhoneLayout(d)[11..13] == d[7..9] && PhoneLayout(d)[14..16] == d[9..11]
  {
    var f := PhoneLayout(d);
    assert f == ['+', d[0], ' ', d[1], d[2], d[3], ' ', d[4], d[5], d[6], '-', d[7], d[8], '-', d[9], d[10]];
  }

  lemma AppendDigits(p: String, q: String)
    requires AllDigits(q)
    ensures Digits(p + q) == Digits(p) + q
  {
    FilterConcat(p, q, IsDigit);
    FilterKeepsAll(q, IsDigit);
  }

  lemma AppendSeparator(p: String, sep: String)
    requires |sep| == 1 && !IsDigit(sep[0])
    ensures Digits(p + sep) == Digits(p)
  {
    FilterConcat(p, sep, IsDigit);
    assert Filter(sep, IsDigit) == [];
  }

  /** The digits of the layout are exactly the eleven digits laid out. */
  lemma DigitsOfLayout(d: String)
    requires |d| == 11 && AllDigits(d)
    ensures Digits(PhoneLayout(d)) == d
  {
    var p0 := "+";
    assert Digits(p0) == [];
    var p1 := p0 + d[0..1];
    AppendDigits(p0, d[0..1]);
    var p2 := p1 + " ";
    AppendSeparator(p1, " ");
    var p3 := p2 + d[1..4];
    AppendDigits(p2, d[1..4]);
    var p4 := p3 + " ";
    AppendSeparator(p3, " ");
    var p5 := p4 + d[4..7];
    AppendDigits(p4, d[4..7]);
    var p6 := p5 + "-";
    AppendSeparator(p5, "-");
    var p7 := p6 + d[7..9];
    AppendDigits(p6, d[7..9]);
    var p8 := p7 + "-";
    AppendSeparator(p7, "-");
    var p9 := p8 + d[9..11];
    AppendDigits(p8, d[9..11]);
    assert p9 == PhoneLayout(d);
    assert [] + d[0..1] + d[1..4] + d[4..7] + d[7..9] + d[9..11] == d;
  }

  /** Eleven digits need neither truncation nor padding. */
  lemma PhoneDigitsOfEleven(d: String)
    requires |d| == 11 && AllDigits(d)
    ensures PhoneDigits(d) == d
  {
    FilterKeepsAll(d, IsDigit);
  }

  /** Formatting an already formatted phone gives the same pair again. */
  lemma FormatPhoneFixpoint(phone: String)
    ensures FormatPhone(FormatPhone(phone).0) == FormatPhone(phone)
  {
    var r := FormatPhone(phone);
    FormatByDigits(r.0, PhoneDigits(phone));
  }

  /** A text whose digits are eleven digits formats by those digits alone. */
  lemma FormatByDigits(f: String, p: String)
    requires |p| == 11 && AllDigits(p) && Digits(f) == p
    ensures FormatPhone(f) == (PhoneLayout(p), p[7..9] + " " + p[9..11])
  {
    FilterKeepsAll(p, IsDigit);
    PhoneDigitsByDigits(f, p);
    PhoneDigitsOfEleven(p);
  }

  /** The phone digits depend only on the digits of the input. */
  lemma PhoneDigitsByDigits(a: String, b: String)
    requires Digits(a) == Digits(b)
    ensures PhoneDigits(a) == PhoneDigits(b)
  {
  }

  /** Formatting a laid-out phone recovers the same digits. */
  lemma LayoutRoundTrip(d: String)
    requires |d| == 11 && AllDigits(d)
    ensures PhoneDigits(PhoneLayout(d)) == d
    ensures FormatPhone(PhoneLayout(d)).0 == PhoneLayout(d)
  {
    DigitsOfLayout(d);
    assert PhoneDigits(PhoneLayout(d))[0..] == d[0..];
  }

  /** The docstring example of `format_phone` (utils.py:74). */
  lemma FormatPhoneExample()
    ensures FormatPhone("+7 999 123-45-67") == ("+7 999 123-45-67", "45 67")
  {
    var d := "79991234567";
    assert AllDigits(d);
    var s := "+7 999 123-45-67";
    ExampleLayout();
    LayoutRoundTrip(d);
    var f := FormatPhone(s);
    assert f.0 == s;
    ExampleTail();
  }

  lemma ExampleLayout()
    ensures PhoneLayout("79991234567") == "+7 999 123-45-67"
  {
    var d := "79991234567";
    assert d[0..1] == "7" && d[1..4] == "999" && d[4..7] == "123" && d[7..9] == "45" && d[9..11] == "67";
    assert "+" + "7" + " " + "999" + " " + "123" + "-" + "45" + "-" + "67" == "+7 999 123-45-67";
  }

  lemma ExampleTail()
    ensures var s := "+7 999 123-45-67"; s[11..13] + " " + s[14..16] == "45 67"
  {
    var s := "+7 999 123-45-67";
    assert s[11..13] == "45";
    assert s[14..16] == "67";
  }

  /* ---------------------------------------------------------------- numbers in words */

  const Ones: seq<String> := ["", "один", "два", "три", "четыре", "пять", "шесть", "семь", "восемь", "девять"]
  const Teens: seq<String> := [
    "десять", "одиннадцать", "двенадцать", "тринадцать", "четырнадцать",
    "пятнадцать", "шестнадцать", "семнадцать", "восемнадцать", "девятнадцать"
  ]
  const Tens: seq<String> := [
    "", "", "двадцать", "тридцать", "сорок", "пятьдесят",
    "шестьдесят", "семьдесят", "восемьдесят", "девяносто"
  ]

  /** What `number_to_words` answers outside 10..99. */
  const OutOfRange: String := "число вне диапазона"

  /**
   `number_to_words`: the Russian cardinal for 10..99, the out-of-range marker otherwise.
   No spelling in range is the marker: they are at most 18 characters and it is 19.
   */
  function NumberToWords(n: int): (r: String)
    ensures r == OutOfRange <==> n < 10 || n > 99
    ensures 10 <= n <= 99 ==> 0 < |r| <= 18
  {
    if n < 10 || n > 99 then OutOfRange
    else if n < 20 then
      TeensRoundTrip(n - 10);
      assert |OutOfRange| == 19;
      Teens[n - 10]
    else
      var t := Tens[n / 10];
      var o := Ones[n % 10];
      var r := t + (if o == "" then "" else " " + o);
      assert 0 < |r| <= 18 by {
        TensRoundTrip(n / 10);
        if n % 10 != 0 {
          OnesRoundTrip(n % 10);
        }
      }
      assert |OutOfRange| == 19;
      r
  }

  function OnesValue(w: String): Option<nat> {
    if w == "один" then Some(1)
    else if w == "два" then Some(2)
    else if w == "три" then Some(3)
    else if w == "четыре" then Some(4)
    else if w == "пять" then Some(5)
    else if w == "шесть" then Some(6)
    else if w == "семь" then Some(7)
    else if w == "восемь" then Some(8)
    else if w == "девять" then Some(9)
    else None
  }

  function TeensValue(w: String): Option<nat> {
    if w == "десять" then Some(0)
    else if w == "одиннадцать" then Some(1)
    else if w == "двенадцать" then Some(2)
    else if w == "тринадцать" then Some(3)
    else if w == "четырнадцать" then Some(4)
    else if w == "пятнадцать" then Some(5)
    else if w == "шестнадцать" then Some(6)
    else if w == "семнадцать" then Some(7)
    else if w == "восемнадцать" then Some(8)
    else if w == "девятнадцать" then Some(9)
    else None
  }

  function TensValue(w: String): Option<nat> {
    if w == "двадцать" then Some(2)
    else if w == "тридцать" then Some(3)
    else if w == "сорок" then Some(4)
    else if w == "пятьдесят" then Some(5)
    else if w == "шестьдесят" then Some(6)
    else if w == "семьдесят" then Some(7)
    else if w == "восемьдесят" then Some(8)
    else if w == "девяносто" then Some(9)
    else None
  }

  /** The text before the first space. */
  function BeforeSpace(w: String): (r: String)
    ensures |r| <= |w| && r == w[..|r|] && ' ' !in r
    ensures |r| < |w| ==> w[|r|] == ' '
    ensures ' ' in w ==> |r| < |w|
  {
    if |w| == 0 || w[0] == ' ' then [] else [w[0]] + BeforeSpace(w[1..])
  }

  /**
   Reads a spelled-out number back; the inverse of `NumberToWords` on 10..99. A text with a
   space is a tens word followed by a ones word; any other is a single teens or tens word.
   */
  function WordsToNumber(w: String): Option<int> {
    if ' ' in w then
      var head := BeforeSpace(w);
      PairValue(TensValue(head), OnesValue(w[|head| + 1..]))
    else if TeensValue(w).Some? then Some(10 + TeensValue(w).value)
    else if TensValue(w).Some? then Some(10 * TensValue(w).value)
    else None
  }

  /** The value of a tens word followed by a ones word, when both are known. */
  function PairValue(tens: Option<nat>, ones: Option<nat>): Option<int> {
    if tens.Some? && ones.Some? then Some(10 * tens.value + ones.value) else None
  }

  /** A text with a space reads as the tens word before the first space and the ones word after it. */
  lemma ReadAtSpace(w: String, head: String, tail: String)
    requires ' ' in w && head == BeforeSpace(w) && tail == w[|head| + 1..]
    ensures WordsToNumber(w) == PairValue(TensValue(head), OnesValue(tail))
  {
  }

  lemma OnesRoundTrip(o: nat)
    requires 1 <= o <= 9
    ensures OnesValue(Ones[o]) == Some(o) && 0 < |Ones[o]| <= 6
  {
    if o == 1 {} else if o == 2 {} else if o == 3 {} else if o == 4 {} else if o == 5 {}
    else if o == 6 {} else if o == 7 {} else if o == 8 {} else {}
  }

  lemma TeensRoundTrip(k: nat)
    requires k <= 9
    ensures TeensValue(Teens[k]) == Some(k) && ' ' !in Teens[k] && 0 < |Teens[k]| <= 12
  {
    if k == 0 {} else if k == 1 {} else if k == 2 {} else if k == 3 {} else if k == 4 {}
    else if k == 5 {} else if k == 6 {} else if k == 7 {} else if k == 8 {} else {}
  }

  lemma TensRoundTrip(t: nat)
    requires 2 <= t <= 9
    ensures TeensValue(Tens[t]).None? && TensValue(Tens[t]) == Some(t)
    ensures ' ' !in Tens[t] && 0 < |Tens[t]| <= 11
  {
    if t == 2 {} else if t == 3 {} else if t == 4 {} else if t == 5 {}
    else if t == 6 {} else if t == 7 {} else if t == 8 {} else {}
  }

  lemma BeforeSpaceOfJoin(a: String, b: String)
    requires ' ' !in a
    ensures BeforeSpace(a + " " + b) == a
  {
    var w := a + " " + b;
    var r := BeforeSpace(w);
    JoinFirstSpace(a, b);
    assert w[|a|] == ' ';
    forall k | 0 <= k < |r| ensures w[k] != ' ' {
      assert w[k] == r[k];
    }
    FirstSpaceUnique(w, |r|, |a|);
    assert a == w[..|a|];
  }

  /** Any space-free tens word, a space and a ones word read back as the compound number. */
  lemma CompoundRead(a: String, b: String, t: nat, o: nat)
    requires ' ' !in a && TensValue(a) == Some(t) && OnesValue(b) == Some(o)
    ensures WordsToNumber(a + " " + b) == Some(10 * t + o)
  {
    var w := a + " " + b;
    assert w[|a|] == ' ';
    BeforeSpaceOfJoin(a, b);
    assert w[|a| + 1..] == b;
    ReadAtSpace(w, a, b);
    PairOfKnown(TensValue(a), OnesValue(b), t, o);
  }

  lemma PairOfKnown(tens: Option<nat>, ones: Option<nat>, t: nat, o: nat)
    requires tens == Some(t) && ones == Some(o)
    ensures PairValue(tens, ones) == Some(10 * t + o)
  {
  }

  /** A compound spelling, tens word then ones word, reads back as its number. */
  lemma CompoundWordsRoundTrip(t: nat, o: nat)
    requires 2 <= t <= 9 && 1 <= o <= 9
    ensures WordsToNumber(Tens[t] + " " + Ones[o]) == Some(10 * t + o)
  {
    OnesRoundTrip(o);
    TensRoundTrip(t);
    CompoundRead(Tens[t], Ones[o], t, o);
  }

  /** The three shapes of a spelled number in range: a teens word, a tens word, or a tens and a ones word. */
  lemma NumberWordsShape(n: int)
    requires 10 <= n <= 99
    ensures n < 20 ==> NumberToWords(n) == Teens[n - 10]
    ensures n >= 20 && n % 10 == 0 ==> NumberToWords(n) == Tens[n / 10]
    ensures n >= 20 && n % 10 != 0 ==> NumberToWords(n) == Tens[n / 10] + " " + Ones[n % 10]
  {
    assert Ones[0] == [];
    if n >= 20 && n % 10 != 0 {
      OnesRoundTrip(n % 10);
      JoinAssoc(Tens[n / 10], " ", Ones[n % 10]);
    }
  }

  lemma JoinAssoc(x: String, y: String, z: String)
    ensures x + (y + z) == x + y + z
  {
  }

  lemma TeensWordRoundTrip(k: nat)
    requires k <= 9
    ensures WordsToNumber(Teens[k]) == Some(10 + k)
  {
    TeensRoundTrip(k);
  }

  lemma TensWordRoundTrip(t: nat)
    requires 2 <= t <= 9
    ensures WordsToNumber(Tens[t]) == Some(10 * t)
  {
    TensRoundTrip(t);
  }

  /** A number in 10..19 is spelled as its teens word. */
  lemma TeensSpelling(n: int)
    requires 10 <= n < 20
    ensures NumberToWords(n) == Teens[n - 10]
  {
    NumberWordsShape(n);
  }

  /** A multiple of ten in 20..90 is spelled as its tens word. */
  lemma TensSpelling(n: int)
    requires 20 <= n <= 99 && n % 10 == 0
    ensures NumberToWords(n) == Tens[n / 10]
  {
    NumberWordsShape(n);
  }

  lemma TeensNumberRoundTrip(n: int)
    requires 10 <= n < 20
    ensures WordsToNumber(NumberToWords(n)) == Some(n)
  {
    TeensWordRoundTrip(n - 10);
    TeensSpelling(n);
  }

  lemma TensNumberRoundTrip(n: int)
    requires 20 <= n <= 99 && n % 10 == 0
    ensures WordsToNumber(NumberToWords(n)) == Some(n)
  {
    assert 10 * (n / 10) == n;
    TensWordRoundTrip(n / 10);
    TensSpelling(n);
  }

  /** A number in 20..99 with a non-zero ones digit is spelled as its tens word, a space and its ones word. */
  lemma CompoundSpelling(n: int)
    requires 20 <= n <= 99 && n % 10 != 0
    ensures NumberToWords(n) == Tens[n / 10] + " " + Ones[n % 10]
  {
    NumberWordsShape(n);
  }

  lemma CompoundNumberRoundTrip(n: int)
    requires 20 <= n <= 99 && n % 10 != 0
    ensures WordsToNumber(NumberToWords(n)) == Some(n)
  {
    var t, o := n / 10, n % 10;
    assert 10 * t + o == n;
    CompoundWordsRoundTrip(t, o);
    CompoundSpelling(n);
  }

  /** Reading back the spelling of any number in 10..99 gives the number. */
  lemma NumberWordsRoundTrip(n: int)
    requires 10 <= n <= 99
    ensures WordsToNumber(NumberToWords(n)) == Some(n)
  {
    if n < 20 {
      TeensNumberRoundTrip(n);
    } else if n % 10 == 0 {
      TensNumberRoundTrip(n);
    } else {
      CompoundNumberRoundTrip(n);
    }
  }

  /** Distinct numbers in range have distinct spellings, none of them the out-of-range marker. */
  lemma NumberWordsInjective(m: int, n: int)
    requires 10 <= m <= 99 && 10 <= n <= 99
    ensures NumberToWords(m) == NumberToWords(n) ==> m == n
    ensures NumberToWords(n) != OutOfRange
  {
    NumberWordsRoundTrip(m);
    NumberWordsRoundTrip(n);
  }

  /**
   * Spot checks of `number_to_words`: a compound number, a round ten, and a
   * number just past the 10..99 range its docstring (utils.py:86) names.
   */
  lemma NumberWordsExamples()
    ensures NumberToWords(45) == "сорок пять"
    ensures NumberToWords(40) == "сорок"
    ensures NumberToWords(100) == OutOfRange
  {
  }

  /* ---------------------------------------------------------------- capitalize */

  /** Python's `str.capitalize()`: first character upper case, the rest lower case. */
  function Capitalize(s: String): (r: String)
    ensures |r| == |s|
    ensures |s| > 0 ==> r[0] == ToUpper(s[0]) && r[1..] == Lower(s[1..])
  {
    if |s| == 0 then [] else [ToUpper(s[0])] + Lower(s[1..])
  }
}
