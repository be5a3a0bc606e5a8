/** VARTYPE printing shared by the type-library translator (`vt2string`,
    `vt2refmacro`) and the debugger visualiser (`vt_as_string`,
    `desc_from_vartype`).  A VARTYPE is a 16-bit word: a base type in the
    low 12 bits and the VECTOR, ARRAY, BYREF and RESERVED flag bits above. */
module VarType {
  import opened Common

  type VarTypeWord = bv16

  // Base types, as numbered by the Windows SDK (wtypes.h).
  const VT_EMPTY: bv16 := 0
  const VT_NULL: bv16 := 1
  const VT_I2: bv16 := 2
  const VT_I4: bv16 := 3
  const VT_R4: bv16 := 4
  const VT_R8: bv16 := 5
  const VT_CY: bv16 := 6
  const VT_DATE: bv16 := 7
  const VT_BSTR: bv16 := 8
  const VT_DISPATCH: bv16 := 9
  const VT_ERROR: bv16 := 10
  const VT_BOOL: bv16 := 11
  const VT_VARIANT: bv16 := 12
  const VT_UNKNOWN: bv16 := 13
  const VT_DECIMAL: bv16 := 14
  const VT_I1: bv16 := 16
  const VT_UI1: bv16 := 17
  const VT_UI2: bv16 := 18
  const VT_UI4: bv16 := 19
  const VT_I8: bv16 := 20
  const VT_UI8: bv16 := 21
  const VT_INT: bv16 := 22
  const VT_UINT: bv16 := 23
  const VT_VOID: bv16 := 24
  const VT_HRESULT: bv16 := 25
  const VT_PTR: bv16 := 26
  const VT_SAFEARRAY: bv16 := 27
  const VT_CARRAY: bv16 := 28
  const VT_USERDEFINED: bv16 := 29
  const VT_LPSTR: bv16 := 30
  const VT_LPWSTR: bv16 := 31
  const VT_RECORD: bv16 := 36
  const VT_FILETIME: bv16 := 64
  const VT_BLOB: bv16 := 65
  const VT_STREAM: bv16 := 66
  const VT_STORAGE: bv16 := 67
  const VT_STREAMED_OBJECT: bv16 := 68
  const VT_STORED_OBJECT: bv16 := 69
  const VT_BLOB_OBJECT: bv16 := 70
  const VT_CF: bv16 := 71
  const VT_CLSID: bv16 := 72

  // Flag bits.
  const VT_VECTOR: bv16 := 0x1000
  const VT_ARRAY: bv16 := 0x2000
  const VT_BYREF: bv16 := 0x4000
  const VT_RESERVED: bv16 := 0x8000
  const VT_TYPEMASK: bv16 := 0x0FFF

  predicate Has(vt: bv16, flag: bv16) { vt & flag != 0 }

  /** The name the `VT2STRING(x)` cases print for a switch value `t`,
      or None where the switch falls to its default. */
  function Vt2StringCase(t: bv16): (r: Option<string>)
    ensures t & 0xF000 != 0 ==> r == None
    ensures r.Some? ==> IsPrefix("VT_", r.value)
  {
    if t == VT_I2 then Some("VT_I2")
    else if t == VT_I4 then Some("VT_I4")
    else if t == VT_R4 then Some("VT_R4")
    else if t == VT_R8 then Some("VT_R8")
    else if t == VT_BSTR then Some("VT_BSTR")
    else if t == VT_DISPATCH then Some("VT_DISPATCH")
    else if t == VT_BOOL then Some("VT_BOOL")
    else if t == VT_VARIANT then Some("VT_VARIANT")
    else if t == VT_UNKNOWN then Some("VT_UNKNOWN")
    else if t == VT_I1 then Some("VT_I1")
    else if t == VT_UI1 then Some("VT_UI1")
    else if t == VT_UI2 then Some("VT_UI2")
    else if t == VT_UI4 then Some("VT_UI4")
    else if t == VT_INT then Some("VT_INT")
    else if t == VT_UINT then Some("VT_UINT")
    else if t == VT_VOID then Some("VT_VOID")
    else if t == VT_HRESULT then Some("VT_HRESULT")
    else if t == VT_LPSTR then Some("VT_LPSTR")
    else if t == VT_LPWSTR then Some("VT_LPWSTR")
    else if t == VT_EMPTY then Some("VT_EMPTY")
    else if t == VT_CY then Some("VT_CY")
    else if t == VT_ERROR then Some("VT_ERROR")
    else if t == VT_DATE then Some("VT_DATE")
    else if t == VT_I8 then Some("VT_I8")
    else if t == VT_UI8 then Some("VT_UI8")
    else if t == VT_PTR then Some("VT_PTR")
    else if t == VT_SAFEARRAY then Some("VT_SAFEARRAY")
    else if t == VT_CARRAY then Some("VT_CARRAY")
    else if t == VT_USERDEFINED then Some("VT_USERDEFINED")
    else if t == VT_RECORD then Some("VT_RECORD")
    else if t == VT_FILETIME then Some("VT_FILETIME")
    else if t == VT_BLOB then Some("VT_BLOB")
    else if t == VT_DECIMAL then Some("VT_DECIMAL")
    else if t == VT_STREAM then Some("VT_STREAM")
    else if t == VT_STORAGE then Some("VT_STORAGE")
    else if t == VT_STREAMED_OBJECT then Some("VT_STREAMED_OBJECT")
    else if t == VT_STORED_OBJECT then Some("VT_STORED_OBJECT")
    else if t == VT_BLOB_OBJECT then Some("VT_BLOB_OBJECT")
    else if t == VT_CF then Some("VT_CF")
    else if t == VT_CLSID then Some("VT_CLSID")
    else if t == VT_NULL then Some("VT_NULL")
    else None
  }

  /** `or_append`: joins `str2` onto `str` with " | ", and sets the
      by-reference flag `orred` when a join happened. */
  function OrAppend(str: string, str2: string, orred: bool): (res: (string, bool))
  {
    if str2 == [] then (str, orred)
    else if str != [] then (str + " | " + str2, true)
    else (str2, orred)
  }

  /** `cond_bracket`. */
  function CondBracket(str: string, bracket: bool): (r: string)
  {
    if bracket then "(" + str + ")" else str
  }

  function NonEmpty(parts: seq<string>): (r: seq<string>)
    ensures |r| <= |parts|
    ensures forall i :: 0 <= i < |r| ==> r[i] != []
  {
    if parts == [] then []
    else if parts[|parts| - 1] == [] then NonEmpty(parts[..|parts| - 1])
    else NonEmpty(parts[..|parts| - 1]) + [parts[|parts| - 1]]
  }

  /** Applying `or_append` to a list of parts in order, starting from the
      empty string and a clear flag. */
  function OrFold(parts: seq<string>): (res: (string, bool))
  {
    if parts == [] then ("", false)
    else
      var prev := OrFold(parts[..|parts| - 1]);
      OrAppend(prev.0, parts[|parts| - 1], prev.1)
  }

  /** Folding `or_append` over parts is joining the non-empty ones with
      " | ", and the flag is set exactly when at least two were joined. */
  lemma {:induction false} OrFoldJoins(parts: seq<string>)
    ensures OrFold(parts).0 == Join(NonEmpty(parts), " | ")
    ensures OrFold(parts).1 <==> |NonEmpty(parts)| >= 2
  {
    if parts != [] {
      var init := parts[..|parts| - 1];
      OrFoldJoins(init);
      var last := parts[|parts| - 1];
      if last != [] {
        if NonEmpty(init) != [] {
          JoinSnoc(NonEmpty(init), last, " | ");
          // a join of non-empty parts is itself non-empty
          assert NonEmpty(init)[0] != [];
          JoinNonEmpty(NonEmpty(init), " | ");
        } else {
          JoinEmpty(init);
        }
      }
    }
  }

  /** Parts whose first is non-empty join into a non-empty text. */
  lemma {:induction false} JoinNonEmpty(parts: seq<string>, sep: string)
    requires parts != [] && parts[0] != []
    ensures Join(parts, sep) != []
  {
  }

  /** Folding parts that are all empty gives the empty string. */
  lemma {:induction false} JoinEmpty(parts: seq<string>)
    requires NonEmpty(parts) == []
    ensures OrFold(parts).0 == []
  {
    if parts != [] {
      var init := parts[..|parts| - 1];
      JoinEmpty(init);
    }
  }

  /** The parts `vt2string` and `vt_as_string` join, in order: the set
      flags VECTOR, ARRAY, RESERVED, then the base name, then BYREF. */
  function VtParts(vt: bv16, base: string): (parts: seq<string>)
  {
    (if Has(vt, VT_VECTOR) then ["VT_VECTOR"] else [])
    + (if Has(vt, VT_ARRAY) then ["VT_ARRAY"] else [])
    + (if Has(vt, VT_RESERVED) then ["VT_RESERVED"] else [])
    + [base]
    + (if Has(vt, VT_BYREF) then ["VT_BYREF"] else [])
  }

  /** Reference meaning of `vt2string`: the parts joined by " | ",
      parenthesised iff there are at least two of them; "Unknown VARTYPE"
      when the switch value (vt without VECTOR, ARRAY and BYREF) names no
      base type. */
  function Vt2StringSpec(vt: bv16): (r: Result<string>)
  {
    match Vt2StringCase(vt & !(VT_VECTOR | VT_ARRAY | VT_BYREF))
    case None => Err("Unknown VARTYPE")
    case Some(base) =>
      var parts := VtParts(vt, base);
      Ok(if |parts| >= 2 then "(" + Join(parts, " | ") + ")" else Join(parts, " | "))
  }

  /** No part of a type's name is empty, so dropping the empty parts
      keeps them all. */
  lemma {:induction false} VtPartsNonEmpty(vt: bv16, base: string)
    requires base != []
    ensures NonEmpty(VtParts(vt, base)) == VtParts(vt, base)
  {
    var p := VtParts(vt, base);
    forall i | 0 <= i < |p| ensures p[i] != [] { }
    AllNonEmpty(p);
  }

  /** Dropping the empty parts changes nothing when none is empty. */
  lemma {:induction false} AllNonEmpty(p: seq<string>)
    requires forall i :: 0 <= i < |p| ==> p[i] != []
    ensures NonEmpty(p) == p
  {
    if p != [] {
      AllNonEmpty(p[..|p| - 1]);
    }
  }

  /** Folding one more part is one more `OrAppend`. */
  lemma OrFoldSnoc(parts: seq<string>, x: string)
    ensures OrFold(parts + [x]) == OrAppend(OrFold(parts).0, x, OrFold(parts).1)
  {
    assert (parts + [x])[..|parts|] == parts;
  }

  /** The flag parts that precede the base name. */
  function FlagParts(vt: bv16): (parts: seq<string>)
  {
    (if Has(vt, VT_VECTOR) then ["VT_VECTOR"] else [])
    + (if Has(vt, VT_ARRAY) then ["VT_ARRAY"] else [])
    + (if Has(vt, VT_RESERVED) then ["VT_RESERVED"] else [])
  }

  /** The first three steps of `vt2string`: VECTOR, ARRAY, RESERVED. */
  method FlagPrefix(vt: bv16) returns (s: string, orred: bool)
    ensures (s, orred) == OrFold(FlagParts(vt))
  {
    s := "";
    orred := false;
    ghost var parts: seq<string> := [];
    if Has(vt, VT_VECTOR) {
      OrFoldSnoc(parts, "VT_VECTOR");
      parts := parts + ["VT_VECTOR"];
      s := "VT_VECTOR";
    }
    assert (s, orred) == OrFold(parts);
    if Has(vt, VT_ARRAY) {
      OrFoldSnoc(parts, "VT_ARRAY");
      parts := parts + ["VT_ARRAY"];
      var st := OrAppend(s, "VT_ARRAY", orred);
      s, orred := st.0, st.1;
    }
    assert (s, orred) == OrFold(parts);
    if Has(vt, VT_RESERVED) {
      OrFoldSnoc(parts, "VT_RESERVED");
      parts := parts + ["VT_RESERVED"];
      var st := OrAppend(s, "VT_RESERVED", orred);
      s, orred := st.0, st.1;
    }
    assert parts == FlagParts(vt);
  }

  /** Folding all the parts continues the fold of the flag parts with the
      base name and then the BYREF text ("" when the flag is clear). */
  lemma FoldAfterFlags(vt: bv16, base: string)
    ensures var f := OrFold(FlagParts(vt));
      var g := OrAppend(f.0, base, f.1);
      OrFold(VtParts(vt, base)) == OrAppend(g.0, if Has(vt, VT_BYREF) then "VT_BYREF" else "", g.1)
  {
    var fp := FlagParts(vt);
    OrFoldSnoc(fp, base);
    assert VtParts(vt, base) == fp + [base] + (if Has(vt, VT_BYREF) then ["VT_BYREF"] else []);
    if Has(vt, VT_BYREF) {
      OrFoldSnoc(fp + [base], "VT_BYREF");
    } else {
      assert VtParts(vt, base) == fp + [base];
    }
  }

  /** `vt2string`, built step by step as the source does. */
  method Vt2String(vt: bv16) returns (r: Result<string>)
    ensures r == Vt2StringSpec(vt)
  {
    var byref := "";
    if Has(vt, VT_BYREF) { byref := "VT_BYREF"; }
    var s, orred := FlagPrefix(vt);
    var t := vt & !(VT_VECTOR | VT_ARRAY | VT_BYREF);
    var name := Vt2StringCase(t);
    if name.None? {
      return Err("Unknown VARTYPE");
    }
    var st := OrAppend(s, name.value, orred);
    s, orred := st.0, st.1;
    st := OrAppend(s, byref, orred);
    s, orred := st.0, st.1;
    FoldAfterFlags(vt, name.value);
    SpecFromFold(vt, name.value);
    r := Ok(CondBracket(s, orred));
  }

  /** A known base name: the reference result is the bracketed fold of the
      parts. */
  lemma SpecFromFold(vt: bv16, base: string)
    requires Vt2StringCase(vt & !(VT_VECTOR | VT_ARRAY | VT_BYREF)) == Some(base)
    ensures Vt2StringSpec(vt) == Ok(CondBracket(OrFold(VtParts(vt, base)).0, OrFold(VtParts(vt, base)).1))
  {
    FoldAll(vt, base);
  }

  /** The RESERVED bit is not among the bits `vt2string` masks off, so
      its switch always falls to the default and throws. */
  lemma ReservedThrows(vt: bv16)
    requires Has(vt, VT_RESERVED)
    ensures Vt2StringSpec(vt) == Err("Unknown VARTYPE")
  {
    assert (vt & !(VT_VECTOR | VT_ARRAY | VT_BYREF)) & 0xF000 != 0;
  }

  /** The step-by-step appends end where the fold over `VtParts` ends. */
  lemma {:induction false} FoldAll(vt: bv16, base: string)
    requires base != []
    ensures OrFold(VtParts(vt, base)).0 == Join(VtParts(vt, base), " | ")
    ensures OrFold(VtParts(vt, base)).1 <==> |VtParts(vt, base)| >= 2
  {
    OrFoldJoins(VtParts(vt, base));
    VtPartsNonEmpty(vt, base);
  }

  /** Parenthesised exactly when a flag (VECTOR, ARRAY or BYREF) joined
      the base name; an unbracketed result is the bare base name. */
  lemma Vt2StringBracketing(vt: bv16)
    requires Vt2StringSpec(vt).Ok?
    ensures var s := Vt2StringSpec(vt).value;
      |s| >= 3 && (s[0] == '(' <==> Has(vt, VT_VECTOR) || Has(vt, VT_ARRAY) || Has(vt, VT_BYREF)) &&
      (s[0] == '(' || s[0] == 'V')
  {
    var base := Vt2StringCase(vt & !(VT_VECTOR | VT_ARRAY | VT_BYREF)).value;
    ReservedNotInParts(vt);
    var parts := VtParts(vt, base);
    if |parts| < 2 {
      assert parts == [base];
      assert IsPrefix("VT_", base);
      assert base[0] == 'V';
    }
  }

  /** A type that has a name never has the RESERVED flag. */
  lemma ReservedNotInParts(vt: bv16)
    requires Vt2StringSpec(vt).Ok?
    ensures !Has(vt, VT_RESERVED)
  {
    if Has(vt, VT_RESERVED) {
      ReservedThrows(vt);
    }
  }

  /** `vt2refmacro`: the V_xxx accessor macro for a VARTYPE, "" when the
      table has none. */
  function Vt2RefMacro(vt: bv16): (r: string)
    ensures Has(vt, VT_ARRAY) ==> r == (if Has(vt, VT_BYREF) then "V_ARRAYREF" else "V_ARRAY")
    ensures r != [] ==> IsPrefix("V_", r)
  {
    if Has(vt, VT_ARRAY) then (if !Has(vt, VT_BYREF) then "V_ARRAY" else "V_ARRAYREF")
    else if vt == VT_UI1 then "V_UI1"
    else if vt == VT_I2 then "V_I2"
    else if vt == VT_I4 then "V_I4"
    else if vt == VT_R4 then "V_R4"
    else if vt == VT_R8 then "V_R8"
    else if vt == VT_BOOL then "V_BOOL"
    else if vt == VT_ERROR then "V_ERROR"
    else if vt == VT_CY then "V_CY"
    else if vt == VT_DATE then "V_DATE"
    else if vt == VT_BSTR then "V_BSTR"
    else if vt == VT_DECIMAL then "V_DECIMAL"
    else if vt == VT_UNKNOWN then "V_UNKNOWN"
    else if vt == VT_DISPATCH then "V_DISPATCH"
    else if vt == VT_BYREF | VT_UI1 then "V_UI1REF"
    else if vt == VT_BYREF | VT_I2 then "V_I2REF"
    else if vt == VT_BYREF | VT_I4 then "V_I4REF"
    else if vt == VT_BYREF | VT_R4 then "V_R4REF"
    else if vt == VT_BYREF | VT_R8 then "V_R8REF"
    else if vt == VT_BYREF | VT_BOOL then "V_BOOLREF"
    else if vt == VT_BYREF | VT_ERROR then "V_ERRORREF"
    else if vt == VT_BYREF | VT_CY then "V_CYREF"
    else if vt == VT_BYREF | VT_DATE then "V_DATEREF"
    else if vt == VT_BYREF | VT_BSTR then "V_BSTRREF"
    else if vt == VT_BYREF | VT_DECIMAL then "V_DECIMALREF"
    else if vt == VT_BYREF | VT_UNKNOWN then "V_UNKNOWNREF"
    else if vt == VT_BYREF | VT_DISPATCH then "V_DISPATCHREF"
    else if vt == VT_BYREF | VT_VARIANT then "V_VARIANTREF"
    else if vt == VT_BYREF then "V_BYREF"
    else if vt == VT_I1 then "V_I1"
    else if vt == VT_UI2 then "V_UI2"
    else if vt == VT_UI4 then "V_UI4"
    else if vt == VT_INT then "V_INT"
    else if vt == VT_UINT then "V_UINT"
    else if vt == VT_BYREF | VT_I1 then "V_I1REF"
    else if vt == VT_BYREF | VT_UI2 then "V_UI2REF"
    else if vt == VT_BYREF | VT_UI4 then "V_UI4REF"
    else if vt == VT_BYREF | VT_INT then "V_INTREF"
    else if vt == VT_BYREF | VT_UINT then "V_UINTREF"
    else ""
  }

  predicate EndsWithRef(s: string)
  {
    |s| >= 3 && s[|s| - 3..] == "REF"
  }

  /** Every plain type that has an accessor macro has a by-reference
      twin, named with a "REF" suffix. */
  lemma RefMacroTwins(b: bv16)
    requires b & 0xF000 == 0 && Vt2RefMacro(b) != ""
    ensures Vt2RefMacro(b | VT_BYREF) == Vt2RefMacro(b) + "REF"
  {
    if b < VT_I1 {
      PlainLow(b);
      if b < VT_BSTR {
        TwinsFirst(b);
      } else {
        TwinsSecond(b);
      }
    } else {
      PlainHigh(b);
      TwinsThird(b);
    }
  }

  /** A plain type and its BYREF form have accessors named alike, the
      second with a "REF" suffix. */
  predicate Twin(b: bv16)
  {
    Vt2RefMacro(b | VT_BYREF) == Vt2RefMacro(b) + "REF"
  }

  /** The plain types numbered below VT_I1 that have an accessor. */
  lemma PlainLow(b: bv16)
    requires b & 0xF000 == 0 && Vt2RefMacro(b) != "" && b < VT_I1
    ensures b == VT_I2 || b == VT_I4 || b == VT_R4 || b == VT_R8 || b == VT_CY || b == VT_DATE || b == VT_BSTR || b == VT_DISPATCH || b == VT_ERROR || b == VT_BOOL || b == VT_UNKNOWN || b == VT_DECIMAL
  {
  }

  /** The plain types from VT_I1 on that have an accessor. */
  lemma PlainHigh(b: bv16)
    requires b & 0xF000 == 0 && Vt2RefMacro(b) != "" && VT_I1 <= b
    ensures b == VT_I1 || b == VT_UI1 || b == VT_UI2 || b == VT_UI4 || b == VT_INT || b == VT_UINT
  {
  }

  /** The twins of I2, I4, R4, R8, CY and DATE. */
  lemma TwinsFirst(b: bv16)
    requires b == VT_I2 || b == VT_I4 || b == VT_R4 || b == VT_R8 || b == VT_CY || b == VT_DATE
    ensures Twin(b)
  {
  }

  /** The twins of BSTR, DISPATCH, ERROR, BOOL, UNKNOWN and DECIMAL. */
  lemma TwinsSecond(b: bv16)
    requires b == VT_BSTR || b == VT_DISPATCH || b == VT_ERROR || b == VT_BOOL || b == VT_UNKNOWN || b == VT_DECIMAL
    ensures Twin(b)
  {
  }

  /** The twins of I1, UI1, UI2, UI4, INT and UINT. */
  lemma TwinsThird(b: bv16)
    requires b == VT_I1 || b == VT_UI1 || b == VT_UI2 || b == VT_UI4 || b == VT_INT || b == VT_UINT
    ensures Twin(b)
  {
  }

}
