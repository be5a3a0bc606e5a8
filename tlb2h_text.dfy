/** String helpers of the type-library translator (tlb2h) that do not
    touch the type library: C string-literal escaping, the GUID
    initialiser, blank stripping and the trailing resource specifier of
    an input file name. */
module Tlb2hText {
  import opened Common

  const BEL: char := 7 as char
  const BS: char := 8 as char
  const TAB: char := 9 as char
  const LF: char := 10 as char
  const VT: char := 11 as char
  const FF: char := 12 as char
  const CR: char := 13 as char

  /** The letter that follows the backslash when `escape_backslash`
      escapes `c`, or None when `c` is copied unchanged. */
  function EscapeLetter(c: char): (r: Option<char>)
  {
    if c == BEL then Some('a')
    else if c == BS then Some('b')
    else if c == FF then Some('f')
    else if c == LF then Some('n')
    else if c == CR then Some('r')
    else if c == TAB then Some('t')
    else if c == VT then Some('v')
    else if c == '?' then Some('?')
    else if c == '\'' then Some('\'')
    else if c == '"' then Some('"')
    else if c == '\\' then Some('\\')
    else None
  }

  /** Inverse of `EscapeLetter` on the letters it produces. */
  function UnescapeLetter(l: char): (c: char)
  {
    if l == 'a' then BEL
    else if l == 'b' then BS
    else if l == 'f' then FF
    else if l == 'n' then LF
    else if l == 'r' then CR
    else if l == 't' then TAB
    else if l == 'v' then VT
    else l
  }

  function EscapeChar(c: char): (r: string)
  {
    match EscapeLetter(c)
    case Some(l) => ['\\', l]
    case None => [c]
  }

  /** Reference meaning of `escape_backslash`: each character replaced by
      its escape. */
  function Escaped(s: string): (r: string)
  {
    if s == [] then [] else Escaped(s[..|s| - 1]) + EscapeChar(s[|s| - 1])
  }

  /** Number of characters of `s` that `escape_backslash` escapes. */
  function EscapeCount(s: string): (n: nat)
    ensures n <= |s|
  {
    if s == [] then 0
    else EscapeCount(s[..|s| - 1]) + (if EscapeLetter(s[|s| - 1]).Some? then 1 else 0)
  }

  /** `escape_backslash`: the loop appends each character's escape. */
  method EscapeBackslash(s: string) returns (rv: string)
    ensures rv == Escaped(s)
    ensures |rv| == |s| + EscapeCount(s)
  {
    rv := "";
    var i := 0;
    while i < |s|
      invariant 0 <= i <= |s|
      invariant rv == Escaped(s[..i])
      invariant |rv| == i + EscapeCount(s[..i])
    {
      assert s[..i + 1][..i] == s[..i];
      var c := s[i];
      if c == BEL { rv := rv + "\\a"; }
      else if c == BS { rv := rv + "\\b"; }
      else if c == FF { rv := rv + "\\f"; }
      else if c == LF { rv := rv + "\\n"; }
      else if c == CR { rv := rv + "\\r"; }
      else if c == TAB { rv := rv + "\\t"; }
      else if c == VT { rv := rv + "\\v"; }
      else if c == '?' { rv := rv + "\\?"; }
      else if c == '\'' { rv := rv + "\\'"; }
      else if c == '"' { rv := rv + "\\\""; }
      else if c == '\\' { rv := rv + "\\\\"; }
      else { rv := rv + [c]; }
      i := i + 1;
    }
    assert s[..|s|] == s;
  }

  /** What a C compiler makes of the escaped text: a backslash and the
      letter after it stand for one character. */
  function Unescaped(t: string): (r: string)
  {
    if t == [] then []
    else if t[0] == '\\' && |t| >= 2 then [UnescapeLetter(t[1])] + Unescaped(t[2..])
    else [t[0]] + Unescaped(t[1..])
  }

  /** Escaping loses nothing: reading the escaped literal back gives the
      original string. */
  lemma {:induction false} EscapeRoundTrip(s: string)
    ensures Unescaped(Escaped(s)) == s
  {
    EscapedFront(s);
    if s != [] {
      EscapeRoundTrip(s[1..]);
      EscapeCharRead(s[0], Escaped(s[1..]));
    }
  }

  /** One escaped character in front of any text reads back as that
      character. */
  lemma EscapeCharRead(c: char, rest: string)
    ensures Unescaped(EscapeChar(c) + rest) == [c] + Unescaped(rest)
  {
    var t := EscapeChar(c) + rest;
    if EscapeLetter(c).Some? {
      var l := EscapeLetter(c).value;
      LetterRoundTrip(c);
      assert t == ['\\', l] + rest;
      assert t[0] == '\\' && t[1] == l && t[2..] == rest;
    } else {
      assert c != '\\';
      assert t == [c] + rest;
      assert t[1..] == rest;
    }
  }

  /** `UnescapeLetter` undoes `EscapeLetter`. */
  lemma LetterRoundTrip(c: char)
    requires EscapeLetter(c).Some?
    ensures UnescapeLetter(EscapeLetter(c).value) == c
  {
  }

  /** `Escaped` read from the front. */
  lemma {:induction false} EscapedFront(s: string)
    ensures s != [] ==> Escaped(s) == EscapeChar(s[0]) + Escaped(s[1..])
    decreases |s|
  {
    if |s| > 1 {
      EscapedFront(s[..|s| - 1]);
      assert s[..|s| - 1][1..] == s[1..][..|s[1..]| - 1];
      assert s[..|s| - 1][0] == s[0];
    } else if |s| == 1 {
      assert s[..0] == [] && s[1..] == [];
    }
  }

  /** `std::string::substr(pos, n)`: throws out_of_range when `pos` is
      past the end, otherwise takes at most `n` characters. */
  function Substr(s: string, pos: nat, n: nat): (r: Result<string>)
    ensures r.Ok? <==> pos <= |s|
    ensures r.Ok? ==> |r.value| == if pos + n <= |s| then n else |s| - pos
    ensures r.Ok? && pos + n <= |s| ==> r.value == s[pos..pos + n]
  {
    if pos > |s| then Err("invalid string position")
    else if pos + n <= |s| then Ok(s[pos..pos + n])
    else Ok(s[pos..])
  }

  /** The offsets and widths `make_guid` takes from the registry form
      "xxxxxxxx-xxxx-xxxx-xxxx-xxxxxxxxxxxx". */
  const GuidPieces: seq<(nat, nat)> :=
    [(0, 8), (9, 4), (14, 4), (19, 2), (21, 2), (24, 2), (26, 2), (28, 2), (30, 2), (32, 2), (34, 2)]

  /** The text `make_guid` writes before each piece. */
  const GuidSeparators: seq<string> :=
    ["{ 0x", ", 0x", ", 0x", ", { 0x", ", 0x", ", 0x", ", 0x", ", 0x", ", 0x", ", 0x", ", 0x"]

  function Interleave(seps: seq<string>, pieces: seq<string>): (r: string)
    requires |seps| == |pieces|
  {
    if seps == [] then "" else seps[0] + pieces[0] + Interleave(seps[1..], pieces[1..])
  }

  /** The substrings `make_guid` takes, or the first substr error. */
  function Pieces(id: string, ps: seq<(nat, nat)>): (r: Result<seq<string>>)
    ensures r.Ok? ==> |r.value| == |ps|
  {
    if ps == [] then Ok([])
    else match Substr(id, ps[0].0, ps[0].1)
      case Err(m) => Err(m)
      case Ok(p) =>
        match Pieces(id, ps[1..])
        case Err(m) => Err(m)
        case Ok(rest) => Ok([p] + rest)
  }

  /** `make_guid`: the C initialiser `{ 0x…, 0x…, 0x…, { 0x…, … } }` of a
      GUID in registry form. */
  function MakeGuid(id: string): (r: Result<string>)
  {
    match Pieces(id, GuidPieces)
    case Err(m) => Err(m)
    case Ok(ps) => Ok(Interleave(GuidSeparators, ps) + " } }")
  }

  /** `Pieces` succeeds exactly when every piece starts inside the text,
      and then takes each piece's characters. */
  lemma {:induction false} PiecesSpec(id: string, ps: seq<(nat, nat)>)
    ensures Pieces(id, ps).Ok? <==> forall i :: 0 <= i < |ps| ==> ps[i].0 <= |id|
    ensures (forall i :: 0 <= i < |ps| ==> ps[i].0 + ps[i].1 <= |id|) ==>
      Pieces(id, ps).Ok? && forall i :: 0 <= i < |ps| ==> Pieces(id, ps).value[i] == id[ps[i].0..ps[i].0 + ps[i].1]
  {
    if ps != [] {
      PiecesSpec(id, ps[1..]);
      assert forall i :: 1 <= i < |ps| ==> ps[i] == ps[1..][i - 1];
    }
  }

  /** `make_guid` throws exactly when the text is too short for its last
      substring to start, and on a full-length id its pieces are the
      id's 32 digits in order, split 8-4-4-2-2-2-2-2-2-2-2 with the four
      hyphens (offsets 8, 13, 18 and 23) left out. */
  lemma MakeGuidPieces(id: string)
    ensures MakeGuid(id).Ok? <==> |id| >= 34
    ensures |id| >= 36 ==> Pieces(id, GuidPieces).Ok?
    ensures |id| >= 36 ==> forall i :: 0 <= i < 11 ==>
      Pieces(id, GuidPieces).value[i] == id[GuidPieces[i].0..GuidPieces[i].0 + GuidPieces[i].1]
  {
    MakeGuidThrows(id);
    if |id| >= 36 {
      GuidPiecesTaken(id);
    }
  }

  lemma MakeGuidThrows(id: string)
    ensures MakeGuid(id).Ok? <==> |id| >= 34
  {
    var ps := GuidPieces;
    GuidPiecesBounds();
    PiecesSpec(id, ps);
    assert MakeGuid(id).Ok? <==> Pieces(id, ps).Ok?;
    if |id| < 34 {
      assert ps[10].0 > |id|;
    } else {
      assert forall i :: 0 <= i < |ps| ==> ps[i].0 <= |id|;
    }
  }

  lemma GuidPiecesTaken(id: string)
    requires |id| >= 36
    ensures Pieces(id, GuidPieces).Ok?
    ensures forall i :: 0 <= i < 11 ==>
      Pieces(id, GuidPieces).value[i] == id[GuidPieces[i].0..GuidPieces[i].0 + GuidPieces[i].1]
  {
    GuidPiecesBounds();
    PiecesSpec(id, GuidPieces);
  }

  lemma GuidPiecesBounds()
    ensures |GuidPieces| == 11 && GuidPieces[10].0 == 34
    ensures forall i :: 0 <= i < 11 ==> GuidPieces[i].0 + GuidPieces[i].1 <= 36 && GuidPieces[i].0 <= 34
  {
  }

  predicate IsBlank(c: char) { c == ' ' || c == TAB }

  /** `NamespaceOptions::strip_whitespace`.  It drops every trailing
      blank, but of a leading run of k blanks it erases only k - 1
      (`replace(0, pos - 1, "")`), so one leading blank survives. */
  function StripWhitespace(s: string): (r: string)
  {
    var t := s[..TrimEnd(s)];
    var k := LeadingBlanks(t);
    if k == |t| || k == 0 then t else t[k - 1..]
  }

  /** Length of `s` without its trailing blanks. */
  function TrimEnd(s: string): (n: nat)
    ensures n <= |s|
    ensures forall i :: n <= i < |s| ==> IsBlank(s[i])
    ensures n > 0 ==> !IsBlank(s[n - 1])
  {
    if s == [] || !IsBlank(s[|s| - 1]) then |s| else TrimEnd(s[..|s| - 1])
  }

  /** Length of the leading run of blanks. */
  function LeadingBlanks(s: string): (k: nat)
    ensures k <= |s|
    ensures forall i :: 0 <= i < k ==> IsBlank(s[i])
    ensures k < |s| ==> !IsBlank(s[k])
  {
    if s == [] || !IsBlank(s[0]) then 0 else 1 + LeadingBlanks(s[1..])
  }

  /** What stripping leaves: nothing of an all-blank string; otherwise
      no trailing blank, and at most one leading blank, which is there
      exactly when the input had leading blanks. */
  lemma StripWhitespaceShape(s: string)
    ensures var r := StripWhitespace(s);
      (r == [] <==> forall i :: 0 <= i < |s| ==> IsBlank(s[i])) &&
      (r != [] ==> !IsBlank(r[|r| - 1])) &&
      (r != [] ==> (IsBlank(r[0]) <==> IsBlank(s[0]))) &&
      (r != [] && IsBlank(r[0]) ==> |r| >= 2 && !IsBlank(r[1]))
  {
    var t := s[..TrimEnd(s)];
    if TrimEnd(s) > 0 {
      assert !IsBlank(s[TrimEnd(s) - 1]);
      assert t[|t| - 1] == s[TrimEnd(s) - 1];
    }
  }

  /** The text stripping leaves: nothing of an all-blank string;
      otherwise the input up to its last non-blank character, from its
      first non-blank character, or from the blank just before it when
      there are leading blanks. */
  lemma StripWhitespaceText(s: string)
    ensures var r := StripWhitespace(s);
      var f := LeadingBlanks(s);
      (f == |s| ==> r == []) &&
      (f < |s| ==> f < TrimEnd(s) && r == s[(if f == 0 then 0 else f - 1)..TrimEnd(s)])
  {
    if LeadingBlanks(s) == |s| {
      assert TrimEnd(s) == 0;
    } else {
      StripNotAllBlank(s);
    }
  }

  lemma StripNotAllBlank(s: string)
    requires LeadingBlanks(s) < |s|
    ensures var f := LeadingBlanks(s);
      f < TrimEnd(s) && StripWhitespace(s) == s[(if f == 0 then 0 else f - 1)..TrimEnd(s)]
  {
    var n := TrimEnd(s);
    var f := LeadingBlanks(s);
    assert !IsBlank(s[f]);
    assert n > f;
    LeadingBlanksPrefix(s, n);
    var t := s[..n];
    if f > 0 {
      assert t[f - 1..] == s[f - 1..n];
    } else {
      assert t == s[0..n];
    }
  }

  /** A text that neither starts nor ends with a blank is left as it is. */
  lemma StripKeepsUnpadded(s: string)
    requires s != [] && !IsBlank(s[0]) && !IsBlank(s[|s| - 1])
    ensures StripWhitespace(s) == s
  {
    StripNotAllBlank(s);
    assert TrimEnd(s) == |s|;
    assert s[0..|s|] == s;
  }

  /** Cutting the text after its first non-blank character keeps the
      leading run. */
  lemma {:induction false} LeadingBlanksPrefix(s: string, n: nat)
    requires LeadingBlanks(s) < n <= |s|
    ensures LeadingBlanks(s[..n]) == LeadingBlanks(s)
  {
    if IsBlank(s[0]) {
      LeadingBlanksPrefix(s[1..], n - 1);
      assert s[..n][1..] == s[1..][..n - 1];
    }
  }

  /** A leading run of k >= 1 blanks loses all but one blank. */
  lemma StripLeadingBlanks(k: nat, w: string)
    requires k >= 1 && w != [] && !IsBlank(w[0]) && !IsBlank(w[|w| - 1])
    ensures StripWhitespace(Repeat(" ", k) + w) == " " + w
  {
    var s := Repeat(" ", k) + w;
    RepeatAt(k);
    assert s[|s| - 1] == w[|w| - 1];
    assert TrimEnd(s) == |s|;
    assert s[..|s|] == s;
    LeadingRun(s, k);
    assert s[k - 1..] == " " + w;
  }

  lemma {:induction false} RepeatAt(k: nat)
    ensures forall i :: 0 <= i < k ==> Repeat(" ", k)[i] == ' '
  {
    if k > 0 {
      RepeatAt(k - 1);
    }
  }

  lemma {:induction false} LeadingRun(s: string, k: nat)
    requires k <= |s|
    requires forall i :: 0 <= i < k ==> IsBlank(s[i])
    requires k < |s| && !IsBlank(s[k])
    ensures LeadingBlanks(s) == k
  {
    if k > 0 {
      LeadingRun(s[1..], k - 1);
    }
  }

  predicate IsSeparator(c: char) { c == '\\' || c == '/' }

  predicate AllDigits(s: string) { forall i :: 0 <= i < |s| ==> '0' <= s[i] <= '9' }

  /** Index of the last path separator, or None. */
  function LastSeparator(s: string): (r: Option<nat>)
    ensures r.Some? ==> r.value < |s| && IsSeparator(s[r.value])
    ensures r.Some? ==> forall i :: r.value < i < |s| ==> !IsSeparator(s[i])
    ensures r.None? ==> forall i :: 0 <= i < |s| ==> !IsSeparator(s[i])
  {
    if s == [] then None
    else if IsSeparator(s[|s| - 1]) then Some(|s| - 1)
    else LastSeparator(s[..|s| - 1])
  }

  /** The resource-specifier split in `main`: an input name whose last
      path component is all digits ("lib.dll\2") names a resource of the
      file before it; the split returns the file name and the specifier
      (empty when there is none). */
  function SplitResource(fn: string): (r: (string, string))
  {
    match LastSeparator(fn)
    case None => (fn, "")
    case Some(w) =>
      var rs := fn[w + 1..];
      if AllDigits(rs) then (fn[..w], rs) else (fn, "")
  }

  /** The split either keeps the name whole with no specifier, or cuts
      it at its last separator into a file and an all-digit specifier
      that together rebuild the name; it cuts exactly when the text
      after the last separator is all digits. */
  lemma SplitResourceRebuilds(fn: string)
    ensures var r := SplitResource(fn);
      (r.0 == fn && r.1 == "") ||
      (|r.0| < |fn| && IsSeparator(fn[|r.0|]) && fn == r.0 + [fn[|r.0|]] + r.1 && AllDigits(r.1))
    ensures SplitResource(fn).0 != fn <==>
      (LastSeparator(fn).Some? && AllDigits(fn[LastSeparator(fn).value + 1..]))
  {
    var ls := LastSeparator(fn);
    if ls.Some? {
      var w := ls.value;
      if AllDigits(fn[w + 1..]) {
        assert SplitResource(fn) == (fn[..w], fn[w + 1..]);
        assert fn == fn[..w] + [fn[w]] + fn[w + 1..];
      }
    }
  }
}
