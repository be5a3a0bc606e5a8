/** Parameter direction decoding (`Parameter::get_direction`) and the
    property table of an interface (`Interface::add_prop`), the two
    pieces of tlb2h's member analysis that do not read the type library
    themselves: the flags and invoke kinds come in as values. */
module Tlb2hParams {
  import opened Common

  /** The PARAMFLAG bits of the Windows headers. */
  const PARAMFLAG_FIN: bv16 := 0x1
  const PARAMFLAG_FOUT: bv16 := 0x2
  const PARAMFLAG_FLCID: bv16 := 0x4
  const PARAMFLAG_FRETVAL: bv16 := 0x8
  const PARAMFLAG_FOPT: bv16 := 0x10
  const PARAMFLAG_FHASDEFAULT: bv16 := 0x20

  /** The flags that do not decide a direction. */
  const IgnoredFlags: bv16 := PARAMFLAG_FHASDEFAULT | PARAMFLAG_FOPT | PARAMFLAG_FLCID

  datatype Direction = DirIn | DirOut | DirInOut | DirRetval

  /** The flags with HASDEFAULT, OPT and LCID cleared, as `get_direction`
      clears them one by one. */
  function Masked(f: bv16): (r: bv16)
    ensures r == f & 0xFFCB
  {
    f & !PARAMFLAG_FHASDEFAULT & !PARAMFLAG_FOPT & !PARAMFLAG_FLCID
  }

  /** `get_direction`: `forceRetval` is the parameter's `force_retval_`,
      `flags` its PARAMDESC flags (None when it has no parameter
      description) and `okAsOut` what its type's `ok_as_out` says. */
  function GetDirection(forceRetval: bool, flags: Option<bv16>, okAsOut: bool): (r: Result<Direction>)
  {
    if forceRetval then Ok(DirRetval)
    else
      var f0 := if flags.Some? then flags.value else 0;
      var f := Masked(f0);
      if f == PARAMFLAG_FIN then Ok(DirIn)
      else if f == PARAMFLAG_FOUT then Ok(DirOut)
      else if f == PARAMFLAG_FIN | PARAMFLAG_FOUT then Ok(DirInOut)
      else if f == PARAMFLAG_FOUT | PARAMFLAG_FRETVAL then Ok(DirRetval)
      else if f == 0 then (if okAsOut then Ok(DirInOut) else Ok(DirIn))
      else Err("Unexpected PARAMFLAG")
  }

  /** The decoding table in full: which masked flag combinations give
      which direction, and that every other combination throws. */
  lemma GetDirectionTable(flags: bv16, okAsOut: bool)
    ensures var f := Masked(flags); var r := GetDirection(false, Some(flags), okAsOut);
      (r == Ok(DirIn) <==> f == PARAMFLAG_FIN || (f == 0 && !okAsOut)) &&
      (r == Ok(DirOut) <==> f == PARAMFLAG_FOUT) &&
      (r == Ok(DirInOut) <==> f == PARAMFLAG_FIN | PARAMFLAG_FOUT || (f == 0 && okAsOut)) &&
      (r == Ok(DirRetval) <==> f == PARAMFLAG_FOUT | PARAMFLAG_FRETVAL) &&
      (r.Err? <==> f != 0 && f != 1 && f != 2 && f != 3 && f != 10)
  {
  }

  /** HASDEFAULT, OPT and LCID never change the answer, a missing
      parameter description behaves as no flags, and a forced retval
      wins over everything. */
  lemma GetDirectionIgnores(flags: bv16, extra: bv16, okAsOut: bool)
    ensures GetDirection(false, Some(flags | (extra & IgnoredFlags)), okAsOut) == GetDirection(false, Some(flags), okAsOut)
    ensures GetDirection(false, None, okAsOut) == GetDirection(false, Some(0), okAsOut)
    ensures GetDirection(true, Some(flags), okAsOut) == Ok(DirRetval)
  {
    MaskedIgnores(flags, extra);
  }

  lemma MaskedIgnores(flags: bv16, extra: bv16)
    ensures Masked(flags | (extra & IgnoredFlags)) == Masked(flags)
  {
    assert IgnoredFlags == 0x34;
    assert (flags | (extra & 0x34)) & 0xFFCB == flags & 0xFFCB;
  }

  /** The TLI invoke kinds `add_prop` distinguishes; `OtherKind` is any
      other (a plain function). */
  datatype InvokeKind = PropertyGet | PropertyPut | PropertyPutRef | OtherKind

  /** A member of the interface, by identity. */
  type MemberId = nat

  /** `Interface::Property`: the accessors found for one property name. */
  datatype Property = Property(put: Option<MemberId>, get: Option<MemberId>, secondPut: Option<MemberId>)

  const EmptyProperty := Property(None, None, None)

  /** The effect of one accessor on its property's entry. */
  function AddPropEntry(p: Property, m: MemberId, kind: InvokeKind): (r: Result<Property>)
    ensures r.Err? <==> kind == OtherKind
    ensures kind == PropertyGet ==> r == Ok(p.(get := Some(m)))
  {
    match kind
    case PropertyGet => Ok(p.(get := Some(m)))
    case PropertyPut =>
      Ok(Property(Some(m), p.get, if p.put.Some? then p.put else p.secondPut))
    case PropertyPutRef =>
      if p.put.Some? then Ok(p.(secondPut := Some(m))) else Ok(p.(put := Some(m)))
    case OtherKind => Err("unexpected invoke kind")
  }

  /** A propput and a propputref of the same property end up the same
      way whichever comes first: the propput is the main setter and the
      propputref the second one. */
  lemma PutOrderIrrelevant(p: Property, a: MemberId, b: MemberId)
    requires p.put.None?
    ensures var ab := AddPropEntry(AddPropEntry(p, a, PropertyPut).value, b, PropertyPutRef).value;
      var ba := AddPropEntry(AddPropEntry(p, b, PropertyPutRef).value, a, PropertyPut).value;
      ab == ba && ab.put == Some(a) && ab.secondPut == Some(b) && ab.get == p.get
  {
  }

  /** A later propput displaces an earlier one into the second slot. */
  lemma PutTwice(p: Property, a: MemberId, b: MemberId)
    requires p.put.None?
    ensures var q := AddPropEntry(AddPropEntry(p, a, PropertyPut).value, b, PropertyPut).value;
      q.put == Some(b) && q.secondPut == Some(a)
  {
  }

  class PropertyTable {
    var properties: map<string, Property>

    constructor ()
      ensures properties == map[]
    {
      properties := map[];
    }

    /** `add_prop`: the entry is created (empty) before the invoke kind
        is looked at, so a member of an unexpected kind still leaves an
        entry for its name behind when it throws. */
    method AddProp(name: string, m: MemberId, kind: InvokeKind) returns (r: Result<()>)
      modifies this
      ensures var p := if name in old(properties) then old(properties)[name] else EmptyProperty;
        match AddPropEntry(p, m, kind)
        case Ok(q) => r == Ok(()) && properties == old(properties)[name := q]
        case Err(e) => r == Err(e) && properties == old(properties)[name := p]
    {
      if name !in properties {
        properties := properties[name := EmptyProperty];
      }
      var prop := properties[name];
      r := Ok(());
      match kind
      case PropertyGet =>
        properties := properties[name := prop.(get := Some(m))];
      case PropertyPut =>
        if prop.put.Some? {
          prop := prop.(secondPut := prop.put);
        }
        properties := properties[name := prop.(put := Some(m))];
      case PropertyPutRef =>
        if prop.put.Some? {
          properties := properties[name := prop.(secondPut := Some(m))];
        } else {
          properties := properties[name := prop.(put := Some(m))];
        }
      case OtherKind =>
        r := Err("unexpected invoke kind");
    }
  }
}
