/** The custom AppWizard `CCometAppWiz` (CometAw.cpp): it fills the
    wizard's symbol dictionary with the symbols the templates use, derived
    from the project's root name, and a fresh type-library GUID. The GUID
    itself is an input. */
module CometAw {
  import opened Common

  type U8 = x: int | 0 <= x < 0x100
  type U16 = x: int | 0 <= x < 0x1_0000
  type U32 = x: int | 0 <= x < 0x1_0000_0000

  datatype Guid = Guid(data1: U32, data2: U16, data3: U16, data4: seq<U8>)

  predicate ValidGuid(g: Guid)
  {
    |g.data4| == 8
  }

  function Byte(b: U8): (r: string)
    ensures |r| == 2
  {
    Hex(b, 2, true)
  }

  /** `%08lX-%04X-%04x-%02X%02X-%02X%02X%02X%02X%02X%02X`: upper-case hex
      digits except in the third group. */
  function GuidText(g: Guid): (r: string)
    requires ValidGuid(g)
    ensures |r| == 36
  {
    Hex(g.data1, 8, true) + "-" + Hex(g.data2, 4, true) + "-" + Hex(g.data3, 4, false) + "-"
    + Byte(g.data4[0]) + Byte(g.data4[1]) + "-"
    + Byte(g.data4[2]) + Byte(g.data4[3]) + Byte(g.data4[4]) + Byte(g.data4[5]) + Byte(g.data4[6]) + Byte(g.data4[7])
  }

  /** A reader for that format: four dashes in their places, the groups
      read as hexadecimal. */
  function ParseGuid(s: string): (r: Option<Guid>)
  {
    if |s| != 36 || s[8] != '-' || s[13] != '-' || s[18] != '-' || s[23] != '-' then None
    else
      var d1 := HexNumber(s[0..8]);
      var d2 := HexNumber(s[9..13]);
      var d3 := HexNumber(s[14..18]);
      var bytes := [HexNumber(s[19..21]), HexNumber(s[21..23]), HexNumber(s[24..26]), HexNumber(s[26..28]),
                    HexNumber(s[28..30]), HexNumber(s[30..32]), HexNumber(s[32..34]), HexNumber(s[34..36])];
      if 0 <= d1 < 0x1_0000_0000 && 0 <= d2 < 0x1_0000 && 0 <= d3 < 0x1_0000 && forall i :: 0 <= i < 8 ==> 0 <= bytes[i] < 0x100
      then Some(Guid(d1, d2, d3, bytes))
      else None
  }

  /** The digits of `Hex` in the chosen case only. */
  lemma {:induction false} HexCase(n: nat, width: nat, upper: bool)
    ensures forall i :: 0 <= i < width ==>
      var c := Hex(n, width, upper)[i];
      ('0' <= c <= '9') || (upper && 'A' <= c <= 'F') || (!upper && 'a' <= c <= 'f')
  {
    if width > 0 {
      HexCase(n / 16, width - 1, upper);
      assert Hex(n, width, upper)[..width - 1] == Hex(n / 16, width - 1, upper);
    }
  }

  /** Where the groups of a GUID's text sit. */
  lemma GuidGroups(g: Guid)
    requires ValidGuid(g)
    ensures var s := GuidText(g);
      s[0..8] == Hex(g.data1, 8, true) && s[9..13] == Hex(g.data2, 4, true) &&
      s[14..18] == Hex(g.data3, 4, false) &&
      s[8] == '-' && s[13] == '-' && s[18] == '-' && s[23] == '-' &&
      forall i :: 0 <= i < 8 ==> s[GuidBytePos(i)..GuidBytePos(i) + 2] == Byte(g.data4[i])
  {
    var a, b, c := Hex(g.data1, 8, true), Hex(g.data2, 4, true), Hex(g.data3, 4, false);
    var p := a + "-" + b + "-" + c + "-";
    var d := g.data4;
    HeadLayout(a, b, c);
    BytesLayout(p, Byte(d[0]), Byte(d[1]), Byte(d[2]), Byte(d[3]), Byte(d[4]), Byte(d[5]), Byte(d[6]), Byte(d[7]));
    var s := GuidText(g);
    assert s[0..8] == p[0..8] && s[9..13] == p[9..13] && s[14..18] == p[14..18];
    forall i | 0 <= i < 8 ensures s[GuidBytePos(i)..GuidBytePos(i) + 2] == Byte(d[i]) {
      assert i == 0 || i == 1 || i == 2 || i == 3 || i == 4 || i == 5 || i == 6 || i == 7;
    }
  }

  /** The first three groups, each followed by a dash. */
  lemma HeadLayout(a: string, b: string, c: string)
    requires |a| == 8 && |b| == 4 && |c| == 4
    ensures var p := a + "-" + b + "-" + c + "-";
      |p| == 19 && p[0..8] == a && p[9..13] == b && p[14..18] == c && p[8] == '-' && p[13] == '-' && p[18] == '-'
  {
  }

  /** The eight two-digit groups after the first 19 characters, with the
      dash after the second. */
  lemma BytesLayout(p: string, b0: string, b1: string, b2: string, b3: string, b4: string, b5: string, b6: string, b7: string)
    requires |p| == 19 && |b0| == 2 && |b1| == 2 && |b2| == 2 && |b3| == 2 && |b4| == 2 && |b5| == 2 && |b6| == 2 && |b7| == 2
    ensures var s := p + b0 + b1 + "-" + b2 + b3 + b4 + b5 + b6 + b7;
      s[..19] == p && s[19..21] == b0 && s[21..23] == b1 && s[23] == '-' && s[24..26] == b2 && s[26..28] == b3 &&
      s[28..30] == b4 && s[30..32] == b5 && s[32..34] == b6 && s[34..36] == b7
  {
  }

  /** Where the text of the i-th byte of `data4` starts. */
  function GuidBytePos(i: nat): (p: nat)
  {
    if i < 2 then 19 + 2 * i else 20 + 2 * i
  }

  /** The text holds the whole GUID: reading it back gives the GUID. */
  lemma GuidRoundTrip(g: Guid)
    requires ValidGuid(g)
    ensures ParseGuid(GuidText(g)) == Some(g)
  {
    var s := GuidText(g);
    GuidGroups(g);
    assert Pow16(8) == 0x1_0000_0000 && Pow16(4) == 0x1_0000 && Pow16(2) == 0x100;
    HexRoundTrip(g.data1, 8, true);
    HexRoundTrip(g.data2, 4, true);
    HexRoundTrip(g.data3, 4, false);
    forall i | 0 <= i < 8 ensures HexNumber(s[GuidBytePos(i)..GuidBytePos(i) + 2]) == g.data4[i] {
      HexRoundTrip(g.data4[i], 2, true);
    }
    ParseGuidReads(s, g);
  }

  /** `ParseGuid` gives the GUID whose fields its groups read as. */
  lemma ParseGuidReads(s: string, g: Guid)
    requires ValidGuid(g) && |s| == 36
    requires s[8] == '-' && s[13] == '-' && s[18] == '-' && s[23] == '-'
    requires HexNumber(s[0..8]) == g.data1 && HexNumber(s[9..13]) == g.data2 && HexNumber(s[14..18]) == g.data3
    requires forall i :: 0 <= i < 8 ==> HexNumber(s[GuidBytePos(i)..GuidBytePos(i) + 2]) == g.data4[i]
    ensures ParseGuid(s) == Some(g)
  {
    var bytes := [HexNumber(s[19..21]), HexNumber(s[21..23]), HexNumber(s[24..26]), HexNumber(s[26..28]),
                  HexNumber(s[28..30]), HexNumber(s[30..32]), HexNumber(s[32..34]), HexNumber(s[34..36])];
    assert bytes == g.data4 by {
      forall i | 0 <= i < 8 ensures bytes[i] == g.data4[i] {
        assert i == 0 || i == 1 || i == 2 || i == 3 || i == 4 || i == 5 || i == 6 || i == 7;
      }
    }
  }

  /** The third group alone is written in lower case: the text has no
      lower-case letter outside positions 14-17 and no upper-case letter
      inside them. */
  lemma GuidCase(g: Guid)
    requires ValidGuid(g)
    ensures var s := GuidText(g);
      (forall i :: 14 <= i < 18 ==> !('A' <= s[i] <= 'Z')) &&
      (forall i :: 0 <= i < 36 && !(14 <= i < 18) ==> !('a' <= s[i] <= 'z'))
  {
    var s := GuidText(g);
    GuidGroups(g);
    HexCase(g.data1, 8, true);
    HexCase(g.data2, 4, true);
    HexCase(g.data3, 4, false);
    forall i | 14 <= i < 18 ensures !('A' <= s[i] <= 'Z') {
      assert s[i] == s[14..18][i - 14];
    }
    forall i | 0 <= i < 36 && !(14 <= i < 18) ensures !('a' <= s[i] <= 'z') {
      if i < 8 {
        assert s[i] == s[0..8][i];
      } else if 9 <= i < 13 {
        assert s[i] == s[9..13][i - 9];
      } else if i in {8, 13, 18, 23} {
      } else {
        var k := if i < 23 then (i - 19) / 2 else (i - 20) / 2;
        assert GuidBytePos(k) <= i < GuidBytePos(k) + 2;
        HexCase(g.data4[k], 2, true);
        assert s[i] == s[GuidBytePos(k)..GuidBytePos(k) + 2][i - GuidBytePos(k)];
      }
    }
  }

  // ---------------------------------------------------------------
  // The symbols derived from the root name

  /** `CString::Left(n)`. */
  function Left(s: string, n: nat): (r: string)
  {
    s[..Min(n, |s|)]
  }

  /** `$$Doc$$`: the root's first six characters. */
  function DocSymbol(root: string): (r: string)
  {
    Left(root, 6)
  }

  /** `$$MAC_TYPE$$`: the root's first four characters, padded with
      spaces to four and upper-cased. */
  function MacType(root: string): (r: string)
  {
    var s := Left(root, 4);
    Upper(if |s| < 4 then s + Repeat(" ", 4 - |s|) else s)
  }

  /** A repeated character fills every position. */
  lemma {:induction false} RepeatChars(n: nat)
    ensures |Repeat(" ", n)| == n && forall i :: 0 <= i < n ==> Repeat(" ", n)[i] == ' '
  {
    if n > 0 {
      RepeatChars(n - 1);
      RepeatSucc(" ", n - 1);
    }
  }

  /** `Doc` is a prefix of the root, all of it when the root is at most
      six long; `DOC` is the same upper-cased. */
  lemma DocRules(root: string)
    ensures var d := DocSymbol(root);
      |d| == Min(6, |root|) && IsPrefix(d, root) && (|root| <= 6 ==> d == root) &&
      |Upper(d)| == |d| && forall i :: 0 <= i < |d| ==> Upper(d)[i] == UpperChar(root[i])
  {
  }

  /** `MAC_TYPE` has exactly four characters: the upper-cased first four
      of the root, then spaces. */
  lemma MacTypeRules(root: string)
    ensures var m := MacType(root);
      |m| == 4 &&
      (forall i :: 0 <= i < 4 && i < |root| ==> m[i] == UpperChar(root[i])) &&
      (forall i :: |root| <= i < 4 ==> m[i] == ' ')
  {
    var s := Left(root, 4);
    if |s| < 4 {
      RepeatChars(4 - |s|);
      var p := s + Repeat(" ", 4 - |s|);
      forall i | |root| <= i < 4 ensures p[i] == ' ' {
        assert p[i] == Repeat(" ", 4 - |s|)[i - |s|];
      }
    }
  }

  /** The two symbols agree where they overlap. */
  lemma MacTypeAgreesWithDoc(root: string)
    ensures var n := Min(4, |root|);
      MacType(root)[..n] == Upper(DocSymbol(root))[..n]
  {
    MacTypeRules(root);
  }

  /** The symbols `Next` writes, one update at a time, are those
      `RootSymbols` describes: the padded prefix it upper-cases for
      MAC_TYPE is the one `MacType` describes. */
  lemma NextSymbols(d: map<string, string>, root: string, padded: string)
    requires root == RootSymbol(d)
    requires padded == (var s := Left(root, 4); if |s| < 4 then s + Repeat(" ", 4 - |s|) else s)
    ensures d["Doc" := Left(root, 6)]["DOC" := Upper(Left(root, 6))]["MAC_TYPE" := Upper(padded)] == RootSymbols(d, root)
  {
  }

  /** The `root` symbol, empty when the dictionary has none. */
  function RootSymbol(d: map<string, string>): (root: string)
  {
    if "root" in d then d["root"] else ""
  }

  /** The dictionary with the symbols derived from `root` set. */
  function RootSymbols(d: map<string, string>, root: string): (r: map<string, string>)
  {
    d["Doc" := DocSymbol(root)]["DOC" := Upper(DocSymbol(root))]["MAC_TYPE" := MacType(root)]
  }

  // ---------------------------------------------------------------
  // The wizard object

  class CometAppWiz {
    /** `m_Dictionary`, the template symbols. */
    var dictionary: map<string, string>
    var numberOfSteps: int
    /** The global `g_root`, which `Next` sets. */
    var globalRoot: string

    constructor (symbols: map<string, string>)
      ensures dictionary == symbols && numberOfSteps == 0 && globalRoot == ""
    {
      dictionary := symbols;
      numberOfSteps := 0;
      globalRoot := "";
    }

    /** No steps, the HELP and PROJTYPE_DLL flags, and the GUID text under
        TLIB_GUID; `guid` stands for what `CoCreateGuid` returns. */
    method InitCustomAppWiz(guid: Guid)
      requires ValidGuid(guid)
      modifies this`dictionary, this`numberOfSteps
      ensures numberOfSteps == 0
      ensures dictionary == old(dictionary)["HELP" := "1"]["PROJTYPE_DLL" := "1"]["TLIB_GUID" := GuidText(guid)]
    {
      numberOfSteps := 0;
      dictionary := dictionary["HELP" := "1"];
      dictionary := dictionary["PROJTYPE_DLL" := "1"];
      var buffer := Hex(guid.data1, 8, true) + "-" + Hex(guid.data2, 4, true) + "-" + Hex(guid.data3, 4, false) + "-"
        + Byte(guid.data4[0]) + Byte(guid.data4[1]) + "-"
        + Byte(guid.data4[2]) + Byte(guid.data4[3]) + Byte(guid.data4[4]) + Byte(guid.data4[5]) + Byte(guid.data4[6]) + Byte(guid.data4[7]);
      dictionary := dictionary["TLIB_GUID" := buffer];
    }

    /** The root symbol (empty when the dictionary has none) is kept in
        `g_root` and gives Doc, DOC and MAC_TYPE. No step dialog follows:
        the result is null. */
    method Next(dialog: Option<nat>) returns (next: Option<nat>)
      requires dialog.None?
      modifies this`dictionary, this`globalRoot
      ensures globalRoot == RootSymbol(old(dictionary))
      ensures dictionary == RootSymbols(old(dictionary), RootSymbol(old(dictionary)))
      ensures next.None?
    {
      ghost var d0 := dictionary;
      var strRoot := "";
      if "root" in dictionary {
        strRoot := dictionary["root"];
      }
      globalRoot := strRoot;
      ghost var root := strRoot;
      var strDoc := Left(strRoot, 6);
      dictionary := dictionary["Doc" := strDoc];
      strDoc := Upper(strDoc);
      dictionary := dictionary["DOC" := strDoc];
      strRoot := Left(strRoot, 4);
      var nLen := |strRoot|;
      if |strRoot| < 4 {
        var strPad := Repeat(" ", 4 - nLen);
        strRoot := strRoot + strPad;
      }
      ghost var padded := strRoot;
      strRoot := Upper(strRoot);
      dictionary := dictionary["MAC_TYPE" := strRoot];
      NextSymbols(d0, root, padded);
      next := None;
    }
  }
}
