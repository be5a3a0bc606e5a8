/** The pure helpers of the debugger visualiser (CometAutoExp.cpp): the
    day-number to calendar conversion behind the DateOnly display, the
    string escaper, and the two VARTYPE formatters. The debugger memory
    reads are a parameter: the value read, or None when the read failed. */
module AutoExp {
  import opened Common
  import opened VarType

  const S_OK := 0
  const E_FAIL := 0x8000_4005

  /** C++ integer division, which truncates toward zero. */
  function TDiv(x: int, y: int): (q: int)
    requires y > 0
    ensures x >= 0 ==> q == x / y
  {
    if x >= 0 then x / y else -((-x) / y)
  }

  /** C++ `%`, whose result takes the sign of the dividend. */
  function TRem(x: int, y: int): (r: int)
    requires y > 0
    ensures -y < r < y
    ensures x >= 0 ==> r == x % y
    ensures r == x - y * TDiv(x, y)
  {
    x - y * TDiv(x, y)
  }

  /** `static_cast<unsigned short>`. */
  function U16(x: int): (r: nat)
    ensures r < 0x1_0000
    ensures 0 <= x < 0x1_0000 ==> r == x
  {
    x % 0x1_0000
  }

  datatype DateResult = DateResult(ok: bool, year: nat, mon: nat, mday: nat)

  /** The intermediate quantities of `date_from_absdate_`. */
  datatype Steps = Steps(a: Long, b: int, c: Long, d: int, e: Long, m: int)

  /** The steps of `date_from_absdate_`, each a 32-bit `long` operation. */
  function AbsdateSteps(dayNumber: Long): (s: Steps)
  {
    var a := Wrap(dayNumber + 32044);
    var b := TDiv(Wrap(4 * a + 3), 146097);
    var c := Wrap(a - TDiv(Wrap(146097 * b), 4));
    var d := TDiv(Wrap(4 * c + 3), 1461);
    var e := Wrap(c - TDiv(Wrap(1461 * d), 4));
    var m := TDiv(Wrap(5 * e + 2), 153);
    Steps(a, b, c, d, e, m)
  }

  /** `date_from_absdate_`: the Julian-day-number to Gregorian
      conversion; the fields are cast to unsigned short. */
  function DateFromAbsdate(dayNumber: Long): (r: DateResult)
    ensures r.ok
  {
    var s := AbsdateSteps(dayNumber);
    DateResult(true,
      U16(Wrap(100 * s.b + s.d - 4800 + TDiv(s.m, 10))),
      U16(Wrap(s.m + 3 - 12 * TDiv(s.m, 10))),
      U16(Wrap(s.e - TDiv(Wrap(153 * s.m + 2), 5) + 1)))
  }

  /** A calendar date with unbounded fields. */
  datatype Ymd = Ymd(year: int, month: int, day: int)

  /** The same steps with unbounded integers, for `a` = day number +
      32044 non-negative, where every quotient is of non-negative numbers. */
  function FloorSteps(a: nat): (s: Steps)
    requires a < 0x8000_0000
    ensures s.a == a
  {
    var b := (4 * a + 3) / 146097;
    FloorStepsBounds(a, b);
    var c := a - (146097 * b) / 4;
    var d := (4 * c + 3) / 1461;
    var e := c - (1461 * d) / 4;
    var m := (5 * e + 2) / 153;
    Steps(a, b, c, d, e, m)
  }

  lemma FloorStepsBounds(a: nat, b: int)
    requires b == (4 * a + 3) / 146097
    ensures 0 <= a - (146097 * b) / 4 <= 36524
  {
    assert 146097 * b <= 4 * a + 3 < 146097 * b + 146097;
    var q := (146097 * b) / 4;
    assert 4 * q <= 146097 * b < 4 * q + 4;
  }

  /** The calendar date the unbounded steps give. */
  function Civil(n: int): (r: Ymd)
    requires -32044 <= n < 0x8000_0000 - 32044
  {
    var s := FloorSteps(n + 32044);
    Ymd(100 * s.b + s.d - 4800 + s.m / 10, s.m + 3 - 12 * (s.m / 10), s.e - (153 * s.m + 2) / 5 + 1)
  }

  /** The reference inverse: the Julian day number of a Gregorian date
      (the formula of Fliegel and Van Flandern). */
  function AbsdateOf(date: Ymd): (n: int)
  {
    var a := (14 - date.month) / 12;
    var y := date.year + 4800 - a;
    var m := date.month + 12 * a - 3;
    date.day + (153 * m + 2) / 5 + 365 * y + y / 4 - y / 100 + y / 400 - 32045
  }

  /** The largest day number whose `4 * a + 3` still fits a 32-bit long. */
  const NoWrapMax := 536870910 - 32044

  /** The intermediate bounds of the steps. */
  lemma {:induction false} CivilSteps(a: nat)
    requires a < 0x8000_0000
    ensures var s := FloorSteps(a);
      s.b >= 0 && 0 <= s.c <= 36524 && 0 <= s.d <= 99 && 0 <= s.e <= 365 && 0 <= s.m <= 11 &&
      1 <= s.e - (153 * s.m + 2) / 5 + 1 <= 31
  {
    var s := FloorSteps(a);
    FloorStepsBounds(a, s.b);
    assert 1461 * s.d <= 4 * s.c + 3 < 1461 * s.d + 1461;
    var q2 := (1461 * s.d) / 4;
    assert 4 * q2 <= 1461 * s.d < 4 * q2 + 4;
    assert 153 * s.m <= 5 * s.e + 2 < 153 * s.m + 153;
    var q3 := (153 * s.m + 2) / 5;
    assert 5 * q3 <= 153 * s.m + 2 < 5 * q3 + 5;
  }

  /** Below the overflow bound no 32-bit step wraps and truncation
      agrees with floor division. */
  lemma {:induction false} StepsNoWrap(n: Long)
    requires -32044 <= n <= NoWrapMax
    ensures AbsdateSteps(n) == FloorSteps(n + 32044)
  {
    var f := FloorSteps(n + 32044);
    CivilSteps(n + 32044);
    var s := AbsdateSteps(n);
    assert s.a == f.a;
    assert Wrap(4 * f.a + 3) == 4 * f.a + 3;
    assert s.b == f.b;
    assert f.b <= 14699;
    assert Wrap(146097 * f.b) == 146097 * f.b;
    assert s.c == f.c;
    assert Wrap(4 * f.c + 3) == 4 * f.c + 3;
    assert s.d == f.d;
    assert Wrap(1461 * f.d) == 1461 * f.d;
    assert s.e == f.e;
    assert Wrap(5 * f.e + 2) == 5 * f.e + 2;
    assert s.m == f.m;
  }

  /** Below the overflow bound the source computes the unbounded
      algorithm, cast to unsigned short. */
  lemma {:induction false} DateFromAbsdateIsCivil(n: Long)
    requires -32044 <= n <= NoWrapMax
    ensures var r := DateFromAbsdate(n); var v := Civil(n);
      r == DateResult(true, U16(v.year), U16(v.month), U16(v.day))
  {
    StepsNoWrap(n);
    CivilSteps(n + 32044);
    var f := FloorSteps(n + 32044);
    assert Wrap(153 * f.m + 2) == 153 * f.m + 2;
    assert TDiv(f.m, 10) == f.m / 10;
    assert Wrap(100 * f.b + f.d - 4800 + f.m / 10) == 100 * f.b + f.d - 4800 + f.m / 10;
  }

  /** The month lies in 1..12 and the day in 1..31 for every day number
      from -32044 up to the overflow bound. */
  lemma DateFromAbsdateRanges(n: Long)
    requires -32044 <= n <= NoWrapMax
    ensures var r := DateFromAbsdate(n); r.ok && 1 <= r.mon <= 12 && 1 <= r.mday <= 31
  {
    DateFromAbsdateIsCivil(n);
    CivilRanges(n);
  }

  lemma {:induction false} CivilRanges(n: int)
    requires -32044 <= n < 0x8000_0000 - 32044
    ensures 1 <= Civil(n).month <= 12 && 1 <= Civil(n).day <= 31
  {
    CivilSteps(n + 32044);
    var f := FloorSteps(n + 32044);
    var v := Civil(n);
    assert v.month == f.m + 3 - 12 * (f.m / 10);
    if f.m < 10 {
      assert f.m / 10 == 0;
    } else {
      assert f.m / 10 == 1;
    }
    assert v.day == f.e - (153 * f.m + 2) / 5 + 1;
  }

  /** Past the overflow bound the 32-bit steps wrap and the "month" is
      no month at all. */
  lemma DateFromAbsdateWraps()
    ensures DateFromAbsdate(2147451603).mon == 10883
  {
    WrapFacts();
    assert AbsdateSteps(2147451603) == Steps(0x7FFF_FFFF, 0, 0x7FFF_FFFF, 0, 0x7FFF_FFFF, 14035840);
  }

  lemma WrapFacts()
    ensures Wrap(2147451603 + 32044) == 0x7FFF_FFFF
    ensures Wrap(4 * 0x7FFF_FFFF + 3) == -1
    ensures TDiv(-1, 146097) == 0 && TDiv(-1, 1461) == 0 && TDiv(0, 4) == 0
    ensures Wrap(0x7FFF_FFFF - 0) == 0x7FFF_FFFF
    ensures Wrap(146097 * 0) == 0 && Wrap(1461 * 0) == 0
    ensures Wrap(5 * 0x7FFF_FFFF + 2) == 2147483645
    ensures TDiv(2147483645, 153) == 14035840
    ensures TDiv(14035840, 10) == 1403584
    ensures Wrap(14035840 + 3 - 12 * 1403584) == -2807165
    ensures U16(-2807165) == 10883
  {
  }

  /** Day 2451545 is the first of January 2000. */
  lemma DateFromAbsdateY2k(d: Long)
    requires d == 2451545
    ensures DateFromAbsdate(d) == DateResult(true, 2000, 1, 1)
  {
    DateFromAbsdateIsCivil(d);
    CivilY2k(d);
    assert U16(2000) == 2000 && U16(1) == 1;
  }

  lemma CivilY2k(d: int)
    requires d == 2451545
    ensures Civil(d) == Ymd(2000, 1, 1)
  {
    var f := FloorSteps(d + 32044);
    assert f.a == 2483589;
    assert (4 * 2483589 + 3) / 146097 == 67;
    assert f.b == 67;
    assert (146097 * 67) / 4 == 2447124;
    assert f.c == 36465;
    assert f.d == 99;
    assert f.e == 306;
    assert f.m == 10;
  }

  /** The unbounded algorithm is inverted by the day-number formula: no
      two day numbers give the same date. */
  lemma CivilRoundTrip(n: int)
    requires -32044 <= n < 0x8000_0000 - 32044
    ensures AbsdateOf(Civil(n)) == n
  {
    var f := FloorSteps(n + 32044);
    var b, c, d, e, m := f.b, f.c, f.d, f.e, f.m;
    CivilSteps(n + 32044);
    FloorStepsLinks(n + 32044);
    RoundTripArith(n, b, c, d, e, m);
    assert Civil(n) == Ymd(100 * b + d - 4800 + m / 10, m + 3 - 12 * (m / 10), e - (153 * m + 2) / 5 + 1);
  }

  /** How the remainders `c` and `e` of the steps follow from the quotients. */
  lemma FloorStepsLinks(a: nat)
    requires a < 0x8000_0000
    ensures var s := FloorSteps(a); s.c == a - (146097 * s.b) / 4 && s.e == s.c - (1461 * s.d) / 4
  {
  }

  /** The day-number formula undoes the steps, as integer arithmetic on
      the intermediate values. */
  lemma RoundTripArith(n: int, b: int, c: int, d: int, e: int, m: int)
    requires b >= 0 && 0 <= d <= 99 && 0 <= m <= 11 && 0 <= e - (153 * m + 2) / 5
    requires c == n + 32044 - (146097 * b) / 4 && e == c - (1461 * d) / 4
    ensures AbsdateOf(Ymd(100 * b + d - 4800 + m / 10, m + 3 - 12 * (m / 10), e - (153 * m + 2) / 5 + 1)) == n
  {
    var month := m + 3 - 12 * (m / 10);
    var aa := (14 - month) / 12;
    // the month maps back to the same March-based month index
    assert aa == m / 10 && month + 12 * aa - 3 == m by {
      if m < 10 { assert m / 10 == 0; } else { assert m / 10 == 1; }
    }
    var y := 100 * b + d;
    // the quotients of y split into the century part and the rest
    QuarterSplit(36524 * b, b);
    QuarterSplit(365 * d, d);
    QuarterSplit(25 * b, d);
    CenturySplit(b, d);
    assert (146097 * b) / 4 == 36524 * b + b / 4;
    assert (1461 * d) / 4 == 365 * d + d / 4;
  }

  lemma QuarterSplit(k: int, x: int)
    requires x >= 0
    ensures (4 * k + x) / 4 == k + x / 4
  {
  }

  lemma CenturySplit(b: int, d: int)
    requires b >= 0 && 0 <= d <= 99
    ensures (100 * b + d) / 100 == b && (100 * b + d) / 400 == b / 4
  {
    var q := b / 4;
    var r := b % 4;
    assert 100 * b + d == 400 * q + (100 * r + d);
  }

  /** Where the year fits an unsigned short and no step wraps, the
      calendar fields produced lead back to the day number. */
  lemma DateFromAbsdateRoundTrip(n: Long)
    requires -32044 <= n <= NoWrapMax && 0 <= Civil(n).year < 0x1_0000
    ensures var r := DateFromAbsdate(n); AbsdateOf(Ymd(r.year, r.mon, r.mday)) == n
  {
    DateFromAbsdateIsCivil(n);
    CivilSteps(n + 32044);
    CivilRoundTrip(n);
  }

  // ---------------------------------------------------------------
  // DateOnly_Evaluate

  const WeekdayNames: seq<string> := ["Su", "Mo", "Tu", "We", "Th", "Fr", "Sa"]

  /** The weekday index as written, `(DateOnly + 1) % 7L` with C's
      remainder, which is negative for a negative dividend. */
  function WeekdayIndexAsWritten(d: Long): (i: int)
  {
    TRem(Wrap(d + 1), 7)
  }

  /** The weekday index the table needs: the remainder taken as a
      non-negative residue. */
  function WeekdayIndex(d: Long): (i: nat)
    ensures i < |WeekdayNames|
  {
    (d + 1) % 7
  }

  /** Day -2 indexes the weekday table at -1, before its first entry. */
  lemma WeekdayAsWrittenOutOfTable()
    ensures WeekdayIndexAsWritten(-2) == -1
  {
    assert Wrap(-2 + 1) == -1;
  }

  /** As written, every day number below -1 that is not one less than a
      multiple of 7 gives a negative index. */
  lemma WeekdayAsWrittenNegative(d: Long)
    requires d <= -2 && (d + 1) % 7 != 0
    ensures WeekdayIndexAsWritten(d) < 0
  {
    assert Wrap(d + 1) == d + 1;
  }

  /** The corrected index agrees with the source wherever the source
      stays inside the table, and steps through the week one day at a
      time. */
  lemma WeekdayIndexRules(d: Long)
    ensures -1 <= d < 0x7FFF_FFFF ==> WeekdayIndex(d) == WeekdayIndexAsWritten(d)
    ensures d < 0x7FFF_FFFF ==> WeekdayIndex(d + 1) == (WeekdayIndex(d) + 1) % 7
  {
    if d < 0x7FFF_FFFF {
      assert Wrap(d + 1) == d + 1;
    }
  }

  datatype EvalReply = EvalReply(hr: int, text: Option<string>)

  /** The first `maxlen - 1` characters: `strncpy` into the result
      buffer followed by a NUL in its last slot. */
  function Truncate(s: string, maxlen: nat): (r: string)
    requires maxlen >= 1
    ensures |r| == Min(|s|, maxlen - 1) && r == s[..|r|]
  {
    if |s| <= maxlen - 1 then s else s[..maxlen - 1]
  }

  /** The display text of a calendar date and weekday: "year.mon.mday wd". */
  function DateText(r: DateResult, wday: nat): (t: string)
    requires wday < |WeekdayNames|
  {
    Decimal(r.year) + "." + Decimal(r.mon) + "." + Decimal(r.mday) + " " + WeekdayNames[wday]
  }

  /** `DateOnly_Evaluate`: `mem` is the long the debugger read, None when
      the read failed (the result buffer is then left alone); `maxlen`
      is the size of the result buffer. */
  function DateOnlyEvaluate(mem: Option<Long>, maxlen: nat): (r: EvalReply)
    requires maxlen >= 1
  {
    match mem
    case None => EvalReply(E_FAIL, None)
    case Some(d) =>
      if d == 0 then EvalReply(S_OK, Some("zero"))
      else if d == 0x7FFF_FFFF then EvalReply(S_OK, Some("invalid"))
      // the unsigned literal 2147483648 compares equal to the long 0x80000000
      else if d == -0x8000_0000 then EvalReply(S_OK, Some("null"))
      else
        var date := DateFromAbsdate(d);
        if !date.ok then EvalReply(S_OK, Some("n/a"))
        else EvalReply(S_OK, Some(Truncate(DateText(date, WeekdayIndex(d)), maxlen)))
  }

  /** The sentinels, and otherwise the date with its weekday, cut to the
      buffer; a failed read is the only failure. */
  lemma DateOnlyRules(mem: Option<Long>, maxlen: nat)
    requires maxlen >= 1
    ensures var r := DateOnlyEvaluate(mem, maxlen);
      (r.hr == E_FAIL <==> mem.None?) && (r.hr == E_FAIL <==> r.text.None?) &&
      (mem == Some(0) ==> r.text == Some("zero")) &&
      (mem == Some(0x7FFF_FFFF) ==> r.text == Some("invalid")) &&
      (mem == Some(-0x8000_0000) ==> r.text == Some("null")) &&
      (mem.Some? && mem.value !in {0, 0x7FFF_FFFF, -0x8000_0000} ==>
        var full := DateText(DateFromAbsdate(mem.value), WeekdayIndex(mem.value));
        IsPrefix(r.text.value, full) && |r.text.value| == Min(|full|, maxlen - 1))
  {
  }

  lemma DateOnlyShowsDate(d: Long, maxlen: nat)
    requires maxlen >= 1 && d !in {0, 0x7FFF_FFFF, -0x8000_0000}
    ensures DateOnlyEvaluate(Some(d), maxlen)
      == EvalReply(S_OK, Some(Truncate(DateText(DateFromAbsdate(d), WeekdayIndex(d)), maxlen)))
  {
  }

  /** Day 2451545 shows as the Saturday 1 January 2000. */
  lemma DateOnlyY2k(d: Long, maxlen: nat)
    requires d == 2451545 && maxlen > 11
    ensures DateOnlyEvaluate(Some(d), maxlen) == EvalReply(S_OK, Some("2000.1.1 Sa"))
  {
    Y2kText(d);
    DateOnlyShowsDate(d, maxlen);
    assert |"2000.1.1 Sa"| == 11;
  }

  lemma Y2kText(d: Long)
    requires d == 2451545
    ensures DateText(DateFromAbsdate(d), WeekdayIndex(d)) == "2000.1.1 Sa"
  {
    var r := DateFromAbsdate(d);
    DateFromAbsdateY2k(d);
    var w := WeekdayIndex(d);
    assert w == 6;
    DateTextY2k();
    assert r == DateResult(true, 2000, 1, 1);
    assert DateText(r, w) == DateText(DateResult(true, 2000, 1, 1), 6);
  }

  lemma DateTextY2k()
    ensures DateText(DateResult(true, 2000, 1, 1), 6) == "2000.1.1 Sa"
  {
    DecimalFacts();
  }

  lemma DecimalFacts()
    ensures Decimal(2000) == "2000" && Decimal(1) == "1"
  {
    assert Decimal(2) == "2";
    assert Decimal(20) == "20";
    assert Decimal(200) == "200";
  }

  // ---------------------------------------------------------------
  // string_as_string

  /** A `wchar_t` code unit. */
  type WChar = x: int | 0 <= x < 0x1_0000

  /** What `string_as_string` writes for one code unit. The switch is on
      the low byte, but it is only reached for codes up to 255. */
  function Escape(ch: WChar): (r: string)
  {
    if ch > 255 then "\\x" + Hex(ch, 4, false)
    else if ch == 9 then "\\t"
    else if ch == 10 then "\\n\n"
    else if ch == 13 then "\\r"
    else if ch == 0 then "\\0"
    else if ch == 92 then "\\\\"
    else if ch == 7 then "\\a"
    else if ch == 8 then "\\b"
    else if ch == 12 then "\\f"
    else if ch == 11 then "\\v"
    else if ch == 34 then "\\\""
    else if ch <= 27 then "\\x" + Hex(ch, 2, false)
    else [ch as char]
  }

  /** The code units `Escape` writes as a two-character escape. */
  predicate Named(ch: WChar)
  {
    ch in {0, 7, 8, 9, 10, 11, 12, 13, 34, 92}
  }

  /** The text `string_as_string` builds: the escapes of the code units,
      in order. */
  function StringAsStringSpec(s: seq<WChar>): (r: string)
  {
    EscapeEach(s, Escape)
  }

  /** The texts an escaper gives the code units, concatenated in order. */
  function EscapeEach(s: seq<WChar>, esc: WChar -> string): (r: string)
  {
    if s == [] then "" else EscapeEach(s[..|s| - 1], esc) + esc(s[|s| - 1])
  }

  lemma {:induction false} EscapeEachAppend(a: seq<WChar>, b: seq<WChar>, esc: WChar -> string)
    ensures EscapeEach(a + b, esc) == EscapeEach(a, esc) + EscapeEach(b, esc)
  {
    if b == [] {
      assert a + b == a;
    } else {
      EscapeEachAppend(a, b[..|b| - 1], esc);
      assert (a + b)[..|a + b| - 1] == a + b[..|b| - 1];
    }
  }

  /** `string_as_string`, which always succeeds. */
  method StringAsString(s: seq<WChar>) returns (ok: bool, r: string)
    ensures ok && r == StringAsStringSpec(s)
  {
    r := "";
    var i := 0;
    while i < |s|
      invariant 0 <= i <= |s|
      invariant r == StringAsStringSpec(s[..i])
    {
      assert s[..i + 1][..i] == s[..i];
      var ch := s[i];
      if ch > 255 {
        r := r + "\\x" + Hex(ch, 4, false);
      } else if ch == 9 {
        r := r + "\\t";
      } else if ch == 10 {
        r := r + "\\n\n";
      } else if ch == 13 {
        r := r + "\\r";
      } else if ch == 0 {
        r := r + "\\0";
      } else if ch == 92 {
        r := r + "\\\\";
      } else if ch == 7 {
        r := r + "\\a";
      } else if ch == 8 {
        r := r + "\\b";
      } else if ch == 12 {
        r := r + "\\f";
      } else if ch == 11 {
        r := r + "\\v";
      } else if ch == 34 {
        r := r + "\\\"";
      } else if ch <= 27 {
        r := r + "\\x" + Hex(ch, 2, false);
      } else {
        r := r + [ch as char];
      }
      i := i + 1;
    }
    assert s[..|s|] == s;
    ok := true;
  }

  /** Each code unit's escape reads back to it: a wide code is "\\x" and
      four hex digits of its value, an unnamed control up to 27 is "\\x"
      and two, a named one is a backslash pair ('\n' also followed by a
      real newline), and every other code is copied. */
  lemma EscapeRules(ch: WChar)
    ensures var r := Escape(ch);
      (ch > 255 ==> |r| == 6 && r[..2] == "\\x" && HexNumber(r[2..]) == ch) &&
      (ch <= 27 && !Named(ch) ==> |r| == 4 && r[..2] == "\\x" && HexNumber(r[2..]) == ch) &&
      (Named(ch) ==> |r| == (if ch == 10 then 3 else 2) && r[0] == '\\') &&
      (28 <= ch <= 255 && !Named(ch) ==> r == [ch as char])
  {
    var r := Escape(ch);
    if ch > 255 {
      HexRoundTrip(ch, 4, false);
      assert Pow16(4) == 0x1_0000;
      assert r[2..] == Hex(ch, 4, false);
    } else if ch <= 27 && !Named(ch) {
      HexRoundTrip(ch, 2, false);
      assert Pow16(2) == 256;
      assert r[2..] == Hex(ch, 2, false);
    }
  }

  /** Escaping distributes over concatenation. */
  lemma StringAsStringAppend(a: seq<WChar>, b: seq<WChar>)
    ensures StringAsStringSpec(a + b) == StringAsStringSpec(a) + StringAsStringSpec(b)
  {
    EscapeEachAppend(a, b, Escape);
  }

  // The `char*` instantiation (string_Eval and ms_string_Eval)

  /** A byte of a narrow string, as stored. */
  type Byte = x: int | 0 <= x < 0x100

  /** `wchar_t ch = *it;` for a signed `char`: the value is sign-extended
      and then taken modulo 2^16, so bytes from 0x80 up become 0xFF80 and
      above. */
  function Widen(b: Byte): (w: WChar)
    ensures b < 0x80 ==> w == b
    ensures b >= 0x80 ==> w == b + 0xFF00
  {
    var signed := if b < 0x80 then b else b - 0x100;
    signed % 0x1_0000
  }

  function WidenAll(bs: seq<Byte>): (ws: seq<WChar>)
    ensures |ws| == |bs| && forall i :: 0 <= i < |bs| ==> ws[i] == Widen(bs[i])
  {
    seq(|bs|, i requires 0 <= i < |bs| => Widen(bs[i]))
  }

  /** What a narrow string's escaper writes for one byte: a byte from
      0x80 up is written as "\\xff" and its two hex digits, any other as
      the wide escaper writes that code. */
  function NarrowEscape(b: Byte): (r: string)
  {
    if b >= 0x80 then "\\xff" + Hex(b, 2, false) else Escape(b)
  }

  /** The text of a narrow string, byte by byte (the reference). */
  function NarrowText(bs: seq<Byte>): (r: string)
  {
    if bs == [] then "" else NarrowText(bs[..|bs| - 1]) + NarrowEscape(bs[|bs| - 1])
  }

  /** A widened byte is escaped as `NarrowEscape` says. */
  lemma WidenEscape(b: Byte)
    ensures Escape(Widen(b)) == NarrowEscape(b)
  {
    if b >= 0x80 {
      var w := b + 0xFF00;
      var q := b / 16;
      assert w / 16 == 0xFF0 + q && w % 16 == b % 16;
      assert (0xFF0 + q) / 16 == 0xFF && (0xFF0 + q) % 16 == q;
      assert Hex(0xFF, 2, false) == "ff";
      assert Hex(0xFF0 + q, 3, false) == "ff" + [LowerHexDigit(q)];
      assert Hex(q, 1, false) == [LowerHexDigit(q)];
      assert Hex(w, 4, false) == "ff" + Hex(b, 2, false);
    }
  }

  /** Escaping a narrow string through `wchar_t` gives `NarrowText`: every
      byte from 0x80 up comes out as "\\xff" and two hex digits. */
  lemma {:induction false} StringAsStringNarrow(bs: seq<Byte>)
    ensures StringAsStringSpec(WidenAll(bs)) == NarrowText(bs)
  {
    if bs != [] {
      var n := |bs|;
      StringAsStringNarrow(bs[..n - 1]);
      assert WidenAll(bs)[..n - 1] == WidenAll(bs[..n - 1]);
      WidenEscape(bs[n - 1]);
    }
  }

  /** The byte 0xE9 ('\u00e9' in Latin-1) is written as "\\xffe9". */
  lemma NarrowLatinSmallEAcute()
    ensures StringAsStringSpec(WidenAll([0xE9])) == "\\xffe9"
  {
    StringAsStringNarrow([0xE9]);
    assert [0xE9][..0] == [];
    assert Hex(0xE9, 2, false) == "e9";
  }

  /** Reading an escaped text back (the reference partner of the
      escaper): a backslash pair, "\\n" and a newline, "\\x" and two hex
      digits, or a copied character; None where the text is not of that
      form. */
  function Unescape(t: string): (r: Option<seq<WChar>>)
    decreases |t|
  {
    if t == [] then Some([])
    else if t[0] != '\\' then (if t[0] as int < 256 then Prepend(t[0] as int, Unescape(t[1..])) else None)
    else if |t| < 2 then None
    else if t[1] == 'x' then
      if |t| >= 4 && IsLowerHex(t[2]) && IsLowerHex(t[3]) then Prepend(HexNumber(t[2..4]), Unescape(t[4..]))
      else None
    else if t[1] == 'n' then
      if |t| >= 3 && t[2] == '\n' then Prepend(10, Unescape(t[3..])) else None
    else match NamedCode(t[1])
      case Some(c) => Prepend(c, Unescape(t[2..]))
      case None => None
  }

  /** The code a backslash pair other than "\\n" and "\\x" stands for. */
  function NamedCode(c: char): (r: Option<WChar>)
    ensures r.Some? ==> Named(r.value) && r.value != 10
  {
    if c == 't' then Some(9)
    else if c == 'r' then Some(13)
    else if c == '0' then Some(0)
    else if c == '\\' then Some(92)
    else if c == 'a' then Some(7)
    else if c == 'b' then Some(8)
    else if c == 'f' then Some(12)
    else if c == 'v' then Some(11)
    else if c == '"' then Some(34)
    else None
  }

  predicate IsLowerHex(c: char)
  {
    '0' <= c <= '9' || 'a' <= c <= 'f'
  }

  function Prepend(x: int, rest: Option<seq<WChar>>): (r: Option<seq<WChar>>)
  {
    if rest.Some? && 0 <= x < 0x1_0000 then Some([x as WChar] + rest.value) else None
  }

  lemma TwoHexDigits(ch: nat)
    requires ch < 256
    ensures var h := Hex(ch, 2, false);
      |h| == 2 && IsLowerHex(h[0]) && IsLowerHex(h[1]) && HexNumber(h) == ch
  {
    HexRoundTrip(ch, 2, false);
    assert Pow16(2) == 256;
    var h := Hex(ch, 2, false);
    assert h == Hex(ch / 16, 1, false) + [LowerHexDigit(ch % 16)];
    assert Hex(ch / 16, 1, false) == [LowerHexDigit((ch / 16) % 16)];
  }

  /** One escape, followed by any text, reads back as its code unit
      followed by what that text reads back as. */
  lemma UnescapeStep(ch: WChar, t: string)
    requires ch <= 255
    ensures Unescape(Escape(ch) + t) == Prepend(ch, Unescape(t))
  {
    var e := Escape(ch);
    if ch <= 27 && !Named(ch) {
      TwoHexDigits(ch);
      assert (e + t)[2..4] == Hex(ch, 2, false);
      assert (e + t)[4..] == t;
    } else if ch == 10 {
      assert (e + t)[3..] == t;
    } else if Named(ch) {
      assert (e + t)[2..] == t;
    } else {
      assert (e + t)[1..] == t;
    }
  }

  /** For text without wide code units the escaper loses nothing: the
      escaped text reads back as the original. */
  lemma {:induction false} StringAsStringRoundTrip(s: seq<WChar>)
    requires forall i :: 0 <= i < |s| ==> s[i] <= 255
    ensures Unescape(StringAsStringSpec(s)) == Some(s)
  {
    if s != [] {
      StringAsStringRoundTrip(s[1..]);
      StringAsStringAppend([s[0]], s[1..]);
      assert [s[0]] + s[1..] == s;
      assert StringAsStringSpec([s[0]]) == Escape(s[0]) by {
        assert [s[0]][..0] == [];
        assert EscapeEach([s[0]], Escape) == EscapeEach([], Escape) + Escape(s[0]);
      }
      UnescapeStep(s[0], StringAsStringSpec(s[1..]));
    }
  }

  /** With wide code units the escaper is ambiguous: the control code 1
      followed by "00" and the single code 0x100 print alike. */
  lemma StringAsStringAmbiguous()
    ensures StringAsStringSpec([1, 48, 48]) == StringAsStringSpec([256])
    ensures [1, 48, 48] != [256]
  {
    assert StringAsStringSpec([1, 48, 48]) == "\\x0100" by {
      assert [1, 48, 48][..2] == [1, 48] && [1, 48][..1] == [1] && [1][..0] == [];
      assert Hex(1, 2, false) == "01";
    }
    assert StringAsStringSpec([256]) == "\\x0100" by {
      assert [256][..0] == [];
      assert Hex(256, 4, false) == "0100";
    }
  }

  // ---------------------------------------------------------------
  // vt_as_string

  /** Reference meaning of `vt_as_string`: what `vt2string` prints, and
      "?VARTYPE?" where `vt2string` throws. */
  function VtAsStringSpec(vt: bv16): (r: string)
  {
    match Vt2StringSpec(vt)
    case Ok(s) => s
    case Err(_) => "?VARTYPE?"
  }

  /** `vt_as_string`: the same steps as `vt2string` (shared `or_append`
      and `cond_bracket`), with "?VARTYPE?" returned where `vt2string`
      throws. */
  method VtAsString(vt: bv16) returns (r: string)
    ensures r == VtAsStringSpec(vt)
  {
    var t := Vt2String(vt);
    if t.Err? {
      return "?VARTYPE?";
    }
    r := t.value;
  }

  /** `vt_as_string` never fails: a reserved VARTYPE (whose bit the
      switch does not mask) and an unknown base type print "?VARTYPE?";
      any other prints in parentheses exactly when a flag joined the
      base name. */
  lemma VtAsStringRules(vt: bv16)
    ensures Has(vt, VT_RESERVED) ==> VtAsStringSpec(vt) == "?VARTYPE?"
    ensures Vt2StringCase(vt & !(VT_VECTOR | VT_ARRAY | VT_BYREF)).None? <==> VtAsStringSpec(vt) == "?VARTYPE?"
    ensures VtAsStringSpec(vt) != "?VARTYPE?" ==>
      (VtAsStringSpec(vt)[0] == '(' <==> Has(vt, VT_VECTOR) || Has(vt, VT_ARRAY) || Has(vt, VT_BYREF))
  {
    if Has(vt, VT_RESERVED) {
      ReservedThrows(vt);
    }
    if Vt2StringSpec(vt).Ok? {
      Vt2StringBracketing(vt);
      var s := Vt2StringSpec(vt).value;
      assert s != "?VARTYPE?" by {
        assert s[0] != '?';
      }
    }
  }

  // ---------------------------------------------------------------
  // desc_from_vartype

  /** The names the `desc_from_vartype` switch prints for a base type
      other than VT_UNKNOWN and VT_DISPATCH; None for its default. */
  function DescCase(t: bv16): (r: Option<string>)
  {
    if t == VT_I2 then Some("short")
    else if t == VT_I4 then Some("long")
    else if t == VT_I8 then Some("__int64")
    else if t == VT_R4 then Some("float")
    else if t == VT_R8 then Some("double")
    else if t == VT_BSTR then Some("BSTR")
    else if t == VT_BOOL then Some("VARIANT_BOOL")
    else if t == VT_VARIANT then Some("VARIANT")
    else if t == VT_DATE then Some("DATE")
    else if t == VT_CY then Some("CURRENCY")
    else if t == VT_I1 then Some("char")
    else if t == VT_UI1 then Some("uchar")
    else if t == VT_UI2 then Some("unsigned short")
    else if t == VT_UI4 then Some("unsigned long")
    else if t == VT_UI8 then Some("unsigned __int64")
    else if t == VT_INT then Some("int")
    else if t == VT_UINT then Some("unsigned int")
    else if t == VT_VOID then Some("void")
    else if t == VT_HRESULT then Some("HRESULT")
    else if t == VT_LPSTR then Some("char*")
    else if t == VT_LPWSTR then Some("wchar_t*")
    else if t == VT_EMPTY then Some("<empty>")
    else if t == VT_NULL then Some("<null>")
    else if t == VT_ERROR then Some("HRESULT")
    else if t == VT_PTR then Some("VT_PTR")
    else if t == VT_FILETIME then Some("VT_FILETIME")
    else if t == VT_DECIMAL then Some("VT_DECIMAL")
    else if t == VT_CLSID then Some("VT_CLSID")
    else None
  }

  /** The text of the switch on `vt & VT_TYPEMASK`. For an interface
      type with no `extra` description, the source (`asWritten`) picks
      "IUnknown" by comparing the whole `vt` with VT_UNKNOWN; the
      corrected test compares the base type. */
  function DescBody(vt: bv16, extra: string, asWritten: bool): (r: string)
  {
    var t := vt & VT_TYPEMASK;
    if t == VT_UNKNOWN || t == VT_DISPATCH then
      var isUnknown := if asWritten then vt == VT_UNKNOWN else t == VT_UNKNOWN;
      (if extra != [] then extra else if isUnknown then "IUnknown" else "IDispatch") + " *"
    else
      match DescCase(t)
      case Some(name) => name
      case None => "???"
  }

  function Opening(vt: bv16): (r: string)
  {
    (if Has(vt, VT_VECTOR) then "VECTOR(" else "") + (if Has(vt, VT_ARRAY) then "SAFEARRAY(" else "")
  }

  /** `desc_from_vartype`: "Reserved" for a reserved type, whatever was
      opened before; otherwise the openers, the base text, "*" for BYREF
      and a single ')' when anything was opened. */
  function DescSpec(vt: bv16, extra: string, asWritten: bool): (r: string)
  {
    if Has(vt, VT_RESERVED) then "Reserved"
    else
      Opening(vt) + DescBody(vt, extra, asWritten)
      + (if Has(vt, VT_BYREF) then "*" else "")
      + (if Has(vt, VT_VECTOR) || Has(vt, VT_ARRAY) then ")" else "")
  }

  function DescFromVartypeAsWritten(vt: bv16, extra: string): (r: string)
  {
    DescSpec(vt, extra, true)
  }

  function DescFromVartypeSpec(vt: bv16, extra: string): (r: string)
  {
    DescSpec(vt, extra, false)
  }

  /** The switch of `desc_from_vartype` on the base type, with the
      interface name chosen by the base type. */
  method DescBase(vt: bv16, extra: string) returns (text: string)
    ensures text == DescBody(vt, extra, false)
  {
    var t := vt & VT_TYPEMASK;
    if t == VT_UNKNOWN || t == VT_DISPATCH {
      if extra != [] {
        text := extra;
      } else {
        text := if t == VT_UNKNOWN then "IUnknown" else "IDispatch";
      }
      text := text + " *";
    } else {
      var name := DescCase(t);
      text := if name.Some? then name.value else "???";
    }
  }

  /** `desc_from_vartype`, written to its stream step by step. */
  method DescFromVartype(vt: bv16, extra: string) returns (r: string)
    ensures r == DescFromVartypeSpec(vt, extra)
  {
    var os := "";
    var needClose := false;
    if Has(vt, VT_VECTOR) {
      os := os + "VECTOR(";
      needClose := true;
    }
    if Has(vt, VT_ARRAY) {
      os := os + "SAFEARRAY(";
      needClose := true;
    }
    if Has(vt, VT_RESERVED) {
      return "Reserved";
    }
    assert os == Opening(vt);
    var base := DescBase(vt, extra);
    os := os + base;
    if Has(vt, VT_BYREF) {
      os := os + "*";
    }
    if needClose {
      os := os + ")";
    }
    r := os;
  }

  /** Corrected, the description of a type is the description of its
      base type wrapped by its flags: VECTOR( and SAFEARRAY( before, "*"
      for BYREF and one ')' after, a single one even when both openers
      were written. */
  lemma DescWrapsBase(vt: bv16, extra: string)
    requires !Has(vt, VT_RESERVED)
    ensures DescFromVartypeSpec(vt, extra) ==
      Opening(vt) + DescFromVartypeSpec(vt & VT_TYPEMASK, extra)
      + (if Has(vt, VT_BYREF) then "*" else "")
      + (if Has(vt, VT_VECTOR) || Has(vt, VT_ARRAY) then ")" else "")
  {
    var t := vt & VT_TYPEMASK;
    BaseHasNoFlags(vt);
    assert Opening(t) == "";
    assert DescBody(t, extra, false) == DescBody(vt, extra, false);
    assert DescFromVartypeSpec(t, extra) == DescBody(t, extra, false);
  }

  /** The base type of a VARTYPE is its own base type and carries none
      of the four flags. */
  lemma BaseHasNoFlags(vt: bv16)
    ensures var t := vt & VT_TYPEMASK;
      t & VT_TYPEMASK == t &&
      !Has(t, VT_RESERVED) && !Has(t, VT_VECTOR) && !Has(t, VT_ARRAY) && !Has(t, VT_BYREF)
  {
  }

  /** As written, a by-reference IUnknown without an extra description
      is printed as an IDispatch, although the base type alone prints as
      IUnknown. */
  lemma DescByrefUnknownAsWritten()
    ensures DescFromVartypeAsWritten(VT_BYREF | VT_UNKNOWN, "") == "IDispatch **"
    ensures DescFromVartypeAsWritten(VT_UNKNOWN, "") == "IUnknown *"
    ensures DescFromVartypeSpec(VT_BYREF | VT_UNKNOWN, "") == "IUnknown **"
  {
  }

  /** The two versions differ only for a flagged VT_UNKNOWN without an
      extra description. */
  lemma DescAsWrittenDiffers(vt: bv16, extra: string)
    ensures DescFromVartypeAsWritten(vt, extra) != DescFromVartypeSpec(vt, extra) <==>
      !Has(vt, VT_RESERVED) && vt & VT_TYPEMASK == VT_UNKNOWN && vt != VT_UNKNOWN && extra == []
  {
  }
}
