/** Small shared vocabulary: optional values, results carrying an error
    message (the C++ exceptions of the library), and the string helpers
    the formatters share. */
module Common {

  datatype Option<T> = None | Some(value: T)

  /** A C++ function that either returns a value or throws; the error
      carries the exception's message text. */
  datatype Result<T> = Ok(value: T) | Err(msg: string)

  /** Concatenation of `parts` with `sep` between consecutive parts. */
  function Join(parts: seq<string>, sep: string): (r: string)
    ensures parts == [] ==> r == ""
    ensures |parts| == 1 ==> r == parts[0]
  {
    if |parts| == 0 then ""
    else if |parts| == 1 then parts[0]
    else parts[0] + sep + Join(parts[1..], sep)
  }

  lemma {:induction false} JoinSnoc(parts: seq<string>, last: string, sep: string)
    requires parts != []
    ensures Join(parts + [last], sep) == Join(parts, sep) + sep + last
  {
    if |parts| > 1 {
      JoinSnoc(parts[1..], last, sep);
      assert (parts + [last])[1..] == parts[1..] + [last];
    }
  }

  /** `n` copies of `s`. */
  function Repeat(s: string, n: nat): (r: string)
    ensures |r| == n * |s|
  {
    if n == 0 then "" else s + Repeat(s, n - 1)
  }

  lemma {:induction false} RepeatSucc(s: string, n: nat)
    ensures Repeat(s, n + 1) == Repeat(s, n) + s
  {
    if n > 0 {
      RepeatSucc(s, n - 1);
    }
  }

  lemma AppendAssoc<T>(a: seq<T>, b: seq<T>, c: seq<T>)
    ensures (a + b) + c == a + (b + c)
  {
  }

  lemma UnionAssoc<T>(a: set<T>, b: set<T>, c: set<T>)
    ensures (a + b) + c == a + (b + c)
  {
  }

  function LowerHexDigit(d: nat): (c: char)
    requires d < 16
  {
    if d < 10 then ('0' as int + d) as char else ('a' as int + d - 10) as char
  }

  function UpperHexDigit(d: nat): (c: char)
    requires d < 16
  {
    if d < 10 then ('0' as int + d) as char else ('A' as int + d - 10) as char
  }

  /** `n` written in hexadecimal with exactly `width` digits (the
      `setw(width) << setfill('0')` of a value that fits), most
      significant digit first. */
  function Hex(n: nat, width: nat, upper: bool): (r: string)
    ensures |r| == width
    decreases width
  {
    if width == 0 then ""
    else Hex(n / 16, width - 1, upper)
         + [if upper then UpperHexDigit(n % 16) else LowerHexDigit(n % 16)]
  }

  function HexValue(c: char): (v: int)
  {
    if '0' <= c <= '9' then c as int - '0' as int
    else if 'a' <= c <= 'f' then c as int - 'a' as int + 10
    else if 'A' <= c <= 'F' then c as int - 'A' as int + 10
    else -1
  }

  function HexNumber(s: string): (v: int)
  {
    if s == [] then 0 else HexNumber(s[..|s| - 1]) * 16 + HexValue(s[|s| - 1])
  }

  /** Reading the digits back gives the number: `Hex` loses nothing for a
      value that fits the width. */
  lemma {:induction false} HexRoundTrip(n: nat, width: nat, upper: bool)
    ensures n < Pow16(width) ==> HexNumber(Hex(n, width, upper)) == n
  {
    if width > 0 {
      HexRoundTrip(n / 16, width - 1, upper);
      var s := Hex(n, width, upper);
      assert s[..|s| - 1] == Hex(n / 16, width - 1, upper);
    }
  }

  function Pow16(k: nat): (p: nat)
    ensures p >= 1
  {
    if k == 0 then 1 else 16 * Pow16(k - 1)
  }

  /** Decimal text of an integer as `operator<<` writes it: a leading
      '-' for negative values, no leading zeros. */
  function Decimal(n: int): (r: string)
    ensures |r| >= 1
    decreases if n < 0 then 1 - n else n
  {
    if n < 0 then "-" + Decimal(-n)
    else if n < 10 then [('0' as int + n) as char]
    else Decimal(n / 10) + [('0' as int + n % 10) as char]
  }

  predicate IsDigit(c: char) { '0' <= c <= '9' }

  /** The value of a string of decimal digits, read left to right. */
  function DigitsValue(s: string): (v: nat)
    requires forall i :: 0 <= i < |s| ==> IsDigit(s[i])
  {
    if s == [] then 0
    else
      assert IsDigit(s[|s| - 1]);
      10 * DigitsValue(s[..|s| - 1]) + (s[|s| - 1] as int - '0' as int)
  }

  /** The value of decimal text with an optional leading '-'. */
  function DecimalValue(s: string): (v: int)
    requires s != [] && (forall i :: 0 < i < |s| ==> IsDigit(s[i])) && (s[0] == '-' || IsDigit(s[0]))
  {
    if s[0] == '-' then -(DigitsValue(s[1..]) as int) else DigitsValue(s)
  }

  /** A natural number's text is digits without a leading zero (other
      than "0" itself), and reads back as the number. */
  lemma {:induction false} DecimalDigits(n: nat)
    ensures var r := Decimal(n);
      (forall i :: 0 <= i < |r| ==> IsDigit(r[i])) &&
      (r[0] == '0' ==> n == 0 && r == "0") &&
      DigitsValue(r) == n
    decreases n
  {
    if n >= 10 {
      DecimalDigits(n / 10);
      var r := Decimal(n);
      assert r[..|r| - 1] == Decimal(n / 10);
      assert r[0] == Decimal(n / 10)[0];
    }
  }

  /** Reading `Decimal(n)` back gives `n`; the text is digits after an
      optional '-', which is there exactly for a negative `n`. */
  lemma DecimalRoundTrip(n: int)
    ensures var r := Decimal(n);
      (r[0] == '-' <==> n < 0) &&
      (forall i :: 0 < i < |r| ==> IsDigit(r[i])) && (r[0] == '-' || IsDigit(r[0])) &&
      DecimalValue(r) == n
  {
    if n < 0 {
      DecimalDigits(-n);
      var r := Decimal(n);
      assert r[1..] == Decimal(-n);
    } else {
      DecimalDigits(n);
    }
  }

  /** ASCII upper-casing, the part of `CString::MakeUpper` the model keeps. */
  function UpperChar(c: char): (u: char)
    ensures 'a' <= c <= 'z' ==> 'A' <= u <= 'Z'
    ensures !('a' <= c <= 'z') ==> u == c
  {
    if 'a' <= c <= 'z' then (c as int - 32) as char else c
  }

  function Upper(s: string): (u: string)
    ensures |u| == |s|
    ensures forall i :: 0 <= i < |s| ==> u[i] == UpperChar(s[i])
  {
    if s == [] then [] else Upper(s[..|s| - 1]) + [UpperChar(s[|s| - 1])]
  }

  predicate IsPrefix(p: string, s: string)
  {
    |p| <= |s| && s[..|p|] == p
  }

  /** Index of the first occurrence of `c` in `s` (`find_first_of` with
      one character), or None. */
  function FirstIndexOf(s: string, c: char): (r: Option<nat>)
    ensures r.Some? ==> r.value < |s| && s[r.value] == c
    ensures r.Some? ==> forall i :: 0 <= i < r.value ==> s[i] != c
    ensures r.None? ==> forall i :: 0 <= i < |s| ==> s[i] != c
  {
    if s == [] then None
    else if s[0] == c then Some(0)
    else match FirstIndexOf(s[1..], c)
      case None => None
      case Some(k) => Some(k + 1)
  }

  function Min(a: int, b: int): (r: int)
    ensures r <= a && r <= b && (r == a || r == b)
  {
    if a <= b then a else b
  }

  /** A 32-bit `long` (or `int`), as MSVC has it. */
  type Long = x: int | -0x8000_0000 <= x < 0x8000_0000

  /** The value a 32-bit `long` operation leaves: two's-complement wrap. */
  function Wrap(x: int): (r: Long)
    ensures -0x8000_0000 <= x < 0x8000_0000 ==> r == x
  {
    (x + 0x8000_0000) % 0x1_0000_0000 - 0x8000_0000
  }
}
