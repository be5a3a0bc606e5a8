/** The namespace and symbol translation table of tlb2h
    (`NamespaceOptions`): a map from source names to target names, the
    current library and namespace, and the set of foreign type
    libraries a generated header ends up needing. */
module Tlb2hNamespaces {
  import opened Common
  import opened Tlb2hText

  /** `trans_symbol` on a given table: the mapped name, or the name
      itself when it has no entry. */
  function Lookup(m: map<string, string>, key: string): (r: string)
    ensures key in m ==> r == m[key]
    ensures key !in m ==> r == key
  {
    if key in m then m[key] else key
  }

  /** `trans_interface_method` on a given table. */
  function InterfaceMethod(m: map<string, string>, iface: string, meth: string): (r: string)
  {
    var q := iface + "." + meth;
    if q in m then m[q] else Lookup(m, meth)
  }

  /** The qualified "Iface.method" entry wins; without it the bare method
      entry is used; with neither the method name comes back unchanged. */
  lemma InterfaceMethodOrder(m: map<string, string>, iface: string, meth: string)
    ensures iface + "." + meth in m ==> InterfaceMethod(m, iface, meth) == m[iface + "." + meth]
    ensures iface + "." + meth !in m && meth in m ==> InterfaceMethod(m, iface, meth) == m[meth]
    ensures iface + "." + meth !in m && meth !in m ==> InterfaceMethod(m, iface, meth) == meth
    ensures iface + "." + meth !in m ==> InterfaceMethod(m, iface, meth) == Lookup(m, meth)
  {
  }

  /** The mapping an "lhs = rhs" line of a namespace file adds: split at
      the first '=', both sides stripped; None when there is no '='. */
  function MappingLine(line: string): (r: Option<(string, string)>)
    ensures r.None? <==> forall i :: 0 <= i < |line| ==> line[i] != '='
  {
    match FirstIndexOf(line, '=')
    case None => None
    case Some(p) => Some((StripWhitespace(line[..p]), StripWhitespace(line[p + 1..])))
  }

  /** The left-hand side ends at the first '=': later '=' signs belong to
      the right-hand side. */
  lemma MappingLineSplit(key: string, value: string)
    requires forall i :: 0 <= i < |key| ==> key[i] != '='
    ensures MappingLine(key + "=" + value) == Some((StripWhitespace(key), StripWhitespace(value)))
  {
    var line := key + "=" + value;
    assert line[|key|] == '=';
    assert forall i :: 0 <= i < |key| ==> line[i] == key[i];
    var p := FirstIndexOf(line, '=');
    assert p == Some(|key|);
    assert line[..|key|] == key && line[|key| + 1..] == value;
  }

  /** Whether `load_namespaces` skips a line once it is stripped. */
  predicate SkippedLine(stripped: string)
  {
    stripped == [] || stripped[0] == ';' || stripped[0] == '#'
  }

  /** The table after one line of a namespace file. */
  function NamespaceLineEffect(m: map<string, string>, line: string): (r: map<string, string>)
  {
    var v := StripWhitespace(line);
    if SkippedLine(v) then m
    else match MappingLine(v)
      case None => m
      case Some(kv) => m[kv.0 := kv.1]
  }

  /** The table after the lines of a namespace file, in order. */
  function NamespaceLinesEffect(m: map<string, string>, lines: seq<string>): (r: map<string, string>)
  {
    if lines == [] then m
    else NamespaceLineEffect(NamespaceLinesEffect(m, lines[..|lines| - 1]), lines[|lines| - 1])
  }

  /** Loading lines never forgets a mapping key: entries are only added
      or overwritten. */
  lemma {:induction false} NamespaceLinesKeepKeys(m: map<string, string>, lines: seq<string>)
    ensures m.Keys <= NamespaceLinesEffect(m, lines).Keys
  {
    if lines != [] {
      NamespaceLinesKeepKeys(m, lines[..|lines| - 1]);
    }
  }

  /** Comment lines, blank lines and lines without '=' change nothing. */
  lemma IgnoredLines(m: map<string, string>, line: string)
    requires SkippedLine(StripWhitespace(line)) || MappingLine(StripWhitespace(line)).None?
    ensures NamespaceLineEffect(m, line) == m
  {
  }

  /** A type-library type as `get_name_with_ns` sees it: its name and
      the name of the library that contains it. */
  datatype TypeRef = TypeRef(name: string, parentName: string)

  class NamespaceOptions {
    var namespaces: map<string, string>
    var namespaceName: string
    var libName: string
    var ignoreNamespace: bool
    var insideNamespace: int
    /** The program-wide `required_tlbs` set that `get_name_with_ns`
        fills; kept with the table that fills it. */
    var requiredTlbs: set<string>

    constructor ()
      ensures namespaces == map[] && namespaceName == "" && libName == ""
      ensures !ignoreNamespace && insideNamespace == 0 && requiredTlbs == {}
    {
      namespaces := map[];
      namespaceName := "";
      libName := "";
      ignoreNamespace := false;
      insideNamespace := 0;
      requiredTlbs := {};
    }

    /** `add_namespace_mapping(lhs, rhs)`; `add_translate_namespace` does
        the same. */
    method AddNamespaceMapping(lhs: string, rhs: string)
      modifies this`namespaces
      ensures namespaces == old(namespaces)[lhs := rhs]
      ensures TransSymbol(lhs) == rhs
      ensures forall k :: k != lhs ==> TransSymbol(k) == old(TransSymbol(k))
    {
      namespaces := namespaces[lhs := rhs];
    }

    function TransSymbol(str: string): (r: string)
      reads this
    {
      Lookup(namespaces, str)
    }

    function TransInterfaceMethod(iface: string, meth: string): (r: string)
      reads this
    {
      InterfaceMethod(namespaces, iface, meth)
    }

    /** `foreign_namespace`: the current namespace for the library being
        translated, otherwise the mapped name. */
    function ForeignNamespace(str: string): (r: string)
      reads this
      ensures str == libName ==> r == namespaceName
      ensures str != libName ==> r == TransSymbol(str)
    {
      if str == libName then namespaceName else Lookup(namespaces, str)
    }

    /** `translate_foreign_namespace`: unlike `ForeignNamespace`, the
        mapping is also applied to the current namespace. */
    function TranslateForeignNamespace(str: string): (r: string)
      reads this
      ensures r == TransSymbol(if str == libName then namespaceName else str)
    {
      Lookup(namespaces, if str == libName then namespaceName else str)
    }

    /** The two translations differ only for the library itself, and
        only when the table maps the current namespace name. */
    lemma ForeignAgainstTranslate(str: string)
      ensures str != libName ==> ForeignNamespace(str) == TranslateForeignNamespace(str)
      ensures str == libName ==>
        (ForeignNamespace(str) == TranslateForeignNamespace(str) <==>
         (namespaceName !in namespaces || namespaces[namespaceName] == namespaceName))
    {
    }

    /** `set_library_name`: the library name is cleared while the new
        namespace is computed, so an empty library name keeps the current
        namespace and any other name takes its mapping. */
    method SetLibraryName(lib: string)
      modifies this`libName, this`namespaceName
      ensures libName == lib
      ensures namespaceName == if lib == "" then old(namespaceName) else TransSymbol(lib)
      ensures ForeignNamespace(lib) == namespaceName
    {
      libName := "";
      namespaceName := ForeignNamespace(lib);
      libName := lib;
    }

    /** `set_namespace_name` ignores an empty name. */
    method SetNamespaceName(ns: string)
      modifies this`namespaceName
      ensures namespaceName == if ns == "" then old(namespaceName) else ns
    {
      if ns != "" {
        namespaceName := ns;
      }
    }

    /** `get_ns`: the translated namespace of a type's library. */
    function GetNs(ti: TypeRef): (r: string)
      reads this
      ensures r == TranslateForeignNamespace(ti.parentName)
    {
      var ns := if ti.parentName == libName then namespaceName else ti.parentName;
      TranslateForeignNamespace(ns)
    }

    /** `get_name_with_ns` as built with NDEBUG (release): a null type throws;
        the name is left bare when not forced and namespaces are ignored
        or the type is in the namespace being emitted; "stdole" types get
        the global "::"; otherwise the name is qualified and a foreign
        namespace is recorded as required. */
    method GetNameWithNs(ti: Option<TypeRef>, force: bool, prefix: Option<string>) returns (r: Result<string>)
      modifies this`requiredTlbs
      ensures ti.None? ==> r == Err("Assertion failed") && requiredTlbs == old(requiredTlbs)
      ensures ti.Some? ==>
        var ns := old(GetNs(ti.value));
        var t := old(TransSymbol(ti.value.name));
        var name := if prefix.Some? then prefix.value + t else t;
        var bare := !force && (ignoreNamespace || (insideNamespace > 0 && ns == namespaceName));
        (bare ==> r == Ok(name) && requiredTlbs == old(requiredTlbs)) &&
        (!bare && ns == "stdole" ==> r == Ok("::" + name) && requiredTlbs == old(requiredTlbs)) &&
        (!bare && ns != "stdole" ==>
           r == Ok(ns + "::" + name) && requiredTlbs == old(requiredTlbs) + (if ns != namespaceName then {ns} else {}))
    {
      if ti.None? {
        return Err("Assertion failed");
      }
      var t := ti.value;
      var ns := GetNs(t);
      var name := TransSymbol(t.name);
      if prefix.Some? {
        name := prefix.value + name;
      }
      if !force && (ignoreNamespace || (insideNamespace > 0 && ns == namespaceName)) {
        return Ok(name);
      }
      if ns == "stdole" {
        return Ok("::" + name);
      }
      if ns != namespaceName {
        requiredTlbs := requiredTlbs + {ns};
      }
      r := Ok(ns + "::" + name);
    }

    method EnterNamespace()
      modifies this`insideNamespace
      ensures insideNamespace == old(insideNamespace) + 1
    {
      insideNamespace := insideNamespace + 1;
    }

    method LeaveNamespace()
      modifies this`insideNamespace
      ensures insideNamespace == old(insideNamespace) - 1
    {
      insideNamespace := insideNamespace - 1;
    }

    method IgnoreNamespace(ignore: bool)
      modifies this`ignoreNamespace
      ensures ignoreNamespace == ignore
    {
      ignoreNamespace := ignore;
    }

    /** `get_namespace_entry`: the mapped name, or "" without an entry. */
    function GetNamespaceEntry(str: string): (r: string)
      reads this
      ensures str in namespaces ==> r == namespaces[str]
      ensures str !in namespaces ==> r == ""
    {
      if str in namespaces then namespaces[str] else ""
    }

    /** `add_namespace_mapping(newval)`: adds the mapping of an
        "lhs = rhs" line and reports whether the line had an '='. */
    method AddNamespaceMappingLine(newval: string) returns (added: bool)
      modifies this`namespaces
      ensures added <==> MappingLine(newval).Some?
      ensures added ==> namespaces == old(namespaces)[MappingLine(newval).value.0 := MappingLine(newval).value.1]
      ensures !added ==> namespaces == old(namespaces)
    {
      var pos := FirstIndexOf(newval, '=');
      if pos.Some? {
        var lhs := StripWhitespace(newval[..pos.value]);
        var rhs := StripWhitespace(newval[pos.value + 1..]);
        namespaces := namespaces[lhs := rhs];
        added := true;
      } else {
        added := false;
      }
    }

    /** The per-line loop of `load_namespaces`; `lines` is None when the
        file cannot be opened, which it silently ignores. */
    method LoadNamespaceLines(lines: Option<seq<string>>)
      modifies this`namespaces
      ensures lines.None? ==> namespaces == old(namespaces)
      ensures lines.Some? ==> namespaces == NamespaceLinesEffect(old(namespaces), lines.value)
    {
      if lines.None? {
        return;
      }
      var ls := lines.value;
      var i := 0;
      while i < |ls|
        invariant 0 <= i <= |ls|
        invariant namespaces == NamespaceLinesEffect(old(namespaces), ls[..i])
      {
        assert ls[..i + 1][..i] == ls[..i];
        var newval := StripWhitespace(ls[i]);
        if !(newval == [] || newval[0] == ';' || newval[0] == '#') {
          var _ := AddNamespaceMappingLine(newval);
        }
        i := i + 1;
      }
      assert ls[..|ls|] == ls;
    }
  }
}
