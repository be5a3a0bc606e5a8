/** The small collection coclasses of the examples: a set of variants
    (varset.h), variant-to-variant and name-to-object maps (map.h,
    objmap.h), a parent that creates and hands out its children
    (ParentChild2/pc.cpp) and the dynamic-dispatch demo (demo.h). Keys
    are strings, ordered by code point; stored values are of a type
    parameter. */
module Collections {
  import opened Common

  // ---------------------------------------------------------------
  // Key order and the order in which a std::map is walked

  /** `a` sorts no later than `b`. */
  predicate Below(a: string, b: string)
  {
    a == [] || (b != [] && (a[0] < b[0] || (a[0] == b[0] && Below(a[1..], b[1..]))))
  }

  lemma {:induction false} BelowReflexive(a: string)
    ensures Below(a, a)
  {
    if a != [] {
      BelowReflexive(a[1..]);
    }
  }

  lemma {:induction false} BelowTotal(a: string, b: string)
    ensures Below(a, b) || Below(b, a)
  {
    if a != [] && b != [] && a[0] == b[0] {
      BelowTotal(a[1..], b[1..]);
    }
  }

  lemma {:induction false} BelowTransitive(a: string, b: string, c: string)
    requires Below(a, b) && Below(b, c)
    ensures Below(a, c)
  {
    if a != [] && b != [] && c != [] && a[0] == b[0] && b[0] == c[0] {
      BelowTransitive(a[1..], b[1..], c[1..]);
    }
  }

  /** The first key of a set. */
  ghost function MinOf(s: set<string>): (m: string)
    requires s != {}
    ensures m in s && forall y :: y in s ==> Below(m, y)
    decreases |s|
  {
    var x :| x in s;
    BelowReflexive(x);
    if s == {x} then x
    else
      var m := MinOf(s - {x});
      BelowTotal(x, m);
      if Below(x, m) then
        (forall y | y in s ensures Below(x, y) { if y != x { BelowTransitive(x, m, y); } }
        x)
      else m
  }

  /** The keys in the order a map's iterators visit them. */
  ghost function SortedKeys(s: set<string>): (r: seq<string>)
    decreases |s|
  {
    if s == {} then [] else var m := MinOf(s); [m] + SortedKeys(s - {m})
  }

  /** Each key exactly once, in strictly increasing order. */
  lemma {:induction false} SortedKeysRules(s: set<string>)
    ensures var r := SortedKeys(s);
      |r| == |s| && (forall x :: x in r <==> x in s) &&
      forall i, j :: 0 <= i < j < |r| ==> Below(r[i], r[j]) && r[i] != r[j]
    decreases |s|
  {
    if s != {} {
      var m := MinOf(s);
      SortedKeysRules(s - {m});
      var r := SortedKeys(s);
      assert r == [m] + SortedKeys(s - {m});
      forall i, j | 0 <= i < j < |r| ensures Below(r[i], r[j]) && r[i] != r[j] {
        if i == 0 {
          assert r[j] in SortedKeys(s - {m});
        }
      }
    }
  }

  /** `create_enum(map_, this, select1st)`: the keys in key order. */
  ghost function EnumFirsts<V>(m: map<string, V>): (r: seq<string>)
  {
    SortedKeys(m.Keys)
  }

  /** `create_enum(map_, this, select2nd)`: the values in key order. */
  ghost function EnumSeconds<V>(m: map<string, V>): (r: seq<V>)
  {
    var ks := SortedKeys(m.Keys);
    SortedKeysRules(m.Keys);
    seq(|ks|, i requires 0 <= i < |ks| => m[ks[i]])
  }

  /** Both enumerations walk the same entries: one element per entry, the
      i-th value being that of the i-th key. */
  lemma EnumProjections<V>(m: map<string, V>)
    ensures |EnumFirsts(m)| == |EnumSeconds(m)| == |m|
    ensures forall i :: 0 <= i < |m| ==> EnumFirsts(m)[i] in m && EnumSeconds(m)[i] == m[EnumFirsts(m)[i]]
    ensures forall k :: k in m <==> k in EnumFirsts(m)
  {
    SortedKeysRules(m.Keys);
  }

  // ---------------------------------------------------------------
  // Lookups that throw

  /** `find`, throwing `msg` when the key is absent. */
  function Lookup<V>(m: map<string, V>, k: string, msg: string): (r: Result<V>)
  {
    if k in m then Ok(m[k]) else Err(msg)
  }

  /** A lookup fails exactly for an absent key, with the given message,
      and otherwise gives the stored value; after storing `v` under `k`
      the lookup of `k` gives `v` and every other lookup is as before. */
  lemma LookupRules<V>(m: map<string, V>, k: string, msg: string, v: V)
    ensures Lookup(m, k, msg).Err? <==> k !in m
    ensures Lookup(m, k, msg).Err? ==> Lookup(m, k, msg).msg == msg
    ensures k in m ==> Lookup(m, k, msg) == Ok(m[k])
    ensures Lookup(m[k := v], k, msg) == Ok(v)
    ensures forall j :: j != k ==> Lookup(m[k := v], j, msg) == Lookup(m, j, msg)
  {
  }

  // ---------------------------------------------------------------
  // varset.h

  /** `PutItem(v, newval)`: true inserts; false erases, and throws when
      `v` is absent, leaving the set as it was. */
  function SetPutSpec(s: set<string>, v: string, newval: bool): (r: Result<set<string>>)
  {
    if newval then Ok(s + {v})
    else if v !in s then Err("No such element")
    else Ok(s - {v})
  }

  /** Inserting makes the item present and is idempotent; erasing makes
      it absent and fails exactly when it was absent; nothing else
      changes; the count is one more, or one less, exactly when the item
      was absent, or present. */
  lemma SetPutRules(s: set<string>, v: string)
    ensures SetPutSpec(s, v, true) == Ok(s + {v}) && v in s + {v}
    ensures SetPutSpec(s + {v}, v, true) == SetPutSpec(s, v, true)
    ensures SetPutSpec(s, v, false).Err? <==> v !in s
    ensures v in s ==> SetPutSpec(s, v, false) == Ok(s - {v}) && v !in s - {v} && |s - {v}| == |s| - 1
    ensures v !in s ==> |s + {v}| == |s| + 1
    ensures forall u :: u != v ==> (u in s <==> u in s + {v}) && (u in s <==> u in s - {v})
  {
  }

  class VariantSet {
    var items: set<string>

    constructor ()
      ensures items == {}
    {
      items := {};
    }

    method GetCount() returns (n: int)
      ensures n == |items|
    {
      n := |items|;
    }

    method GetItem(v: string) returns (present: bool)
      ensures present <==> v in items
    {
      present := v in items;
    }

    method PutItem(v: string, newval: bool) returns (r: Result<()>)
      modifies this
      ensures var spec := SetPutSpec(old(items), v, newval);
        (spec.Ok? ==> r == Ok(()) && items == spec.value) &&
        (spec.Err? ==> r == Err(spec.msg) && items == old(items))
    {
      if newval {
        items := items + {v};
      } else {
        if v !in items {
          return Err("No such element");
        }
        items := items - {v};
      }
      r := Ok(());
    }

    /** `create_enum(set_, this)`: the items, each once, in the set's
        ascending order. */
    ghost function Enum(): (r: seq<string>)
      reads this
      ensures |r| == |items| && forall v :: v in r <==> v in items
      ensures forall i, j :: 0 <= i < j < |r| ==> Below(r[i], r[j]) && r[i] != r[j]
    {
      SortedKeysRules(items);
      SortedKeys(items)
    }
  }

  // ---------------------------------------------------------------
  // map.h

  class VariantMap<V> {
    var entries: map<string, V>

    constructor ()
      ensures entries == map[]
    {
      entries := map[];
    }

    method GetItem(idx: string) returns (r: Result<V>)
      ensures r == Lookup(entries, idx, "No such element")
    {
      if idx !in entries {
        return Err("No such element");
      }
      r := Ok(entries[idx]);
    }

    method PutItem(idx: string, val: V)
      modifies this
      ensures entries == old(entries)[idx := val]
    {
      entries := entries[idx := val];
    }

    /** `EnumKeys` projects with `select2nd`: it enumerates the values. */
    ghost function EnumKeys(): (r: seq<V>)
      reads this
      ensures |r| == |entries|
      ensures var ks := SortedKeys(entries.Keys);
        |ks| == |r| && forall i :: 0 <= i < |r| ==> ks[i] in entries && r[i] == entries[ks[i]]
    {
      EnumProjections(entries);
      EnumSeconds(entries)
    }
  }

  /** What map.h calls its key enumeration yields the stored values, one
      per key in key order, and not the keys. */
  lemma VariantMapEnumKeysYieldsValues(m: map<string, string>)
    requires m == map["a" := "x"]
    ensures EnumSeconds(m) == ["x"] && EnumFirsts(m) == ["a"]
  {
    EnumProjections(m);
    assert m.Keys == {"a"};
  }

  // ---------------------------------------------------------------
  // objmap.h

  class ObjectMap<V> {
    var entries: map<string, V>

    constructor ()
      ensures entries == map[]
    {
      entries := map[];
    }

    method GetItem(idx: string) returns (r: Result<V>)
      ensures r == Lookup(entries, idx, "No such element")
    {
      if idx !in entries {
        return Err("No such element");
      }
      r := Ok(entries[idx]);
    }

    method PutItem(idx: string, val: V)
      modifies this
      ensures entries == old(entries)[idx := val]
    {
      entries := entries[idx := val];
    }

    method GetCount() returns (n: int)
      ensures n == |entries|
    {
      n := |entries|;
    }

    /** `create_enum(map_, this, select1st)`: the names, each once, in
        the map's ascending key order. */
    ghost function EnumKeys(): (r: seq<string>)
      reads this
      ensures |r| == |entries| && forall k :: k in r <==> k in entries
      ensures forall i, j :: 0 <= i < j < |r| ==> Below(r[i], r[j]) && r[i] != r[j]
      ensures r == SortedKeys(entries.Keys)
    {
      EnumProjections(entries);
      SortedKeysRules(entries.Keys);
      EnumFirsts(entries)
    }

    ghost function EnumValues(): (r: seq<V>)
      reads this
      ensures |r| == |entries|
      ensures forall i :: 0 <= i < |r| ==> r[i] == entries[EnumKeys()[i]]
    {
      EnumProjections(entries);
      EnumSeconds(entries)
    }
  }

  // ---------------------------------------------------------------
  // ParentChild2/pc.cpp

  /** `at(t, k)`: the entry, key and value, or "Index out of range". */
  function At<V>(t: map<string, V>, k: string): (r: Result<(string, V)>)
    ensures r.Ok? <==> k in t
    ensures r.Ok? ==> r.value == (k, t[k])
    ensures r.Err? ==> r.msg == "Index out of range"
  {
    if k !in t then Err("Index out of range") else Ok((k, t[k]))
  }

  class Child {
    const parent: Parent

    constructor (p: Parent)
      ensures parent == p
    {
      parent := p;
    }
  }

  /** `TDemo`, the parent object: its children by name. */
  class Parent {
    var children: map<string, Child>

    constructor ()
      ensures children == map[]
    {
      children := map[];
    }

    method GetChild(idx: string) returns (r: Result<Child>)
      ensures var e := At(children, idx);
        (e.Ok? ==> r == Ok(e.value.1)) && (e.Err? ==> r == Err(e.msg))
    {
      var e := At(children, idx);
      if e.Err? {
        return Err(e.msg);
      }
      r := Ok(e.value.1);
    }

    /** A new child is created with this object as parent and stored
        under a fresh name; an existing name throws. */
    method AddChild(idx: string) returns (r: Result<Child>)
      modifies this
      ensures idx in old(children) ==> r == Err("Child already exists") && children == old(children)
      ensures idx !in old(children) ==>
        r.Ok? && fresh(r.value) && r.value.parent == this && children == old(children)[idx := r.value]
      ensures r.Ok? ==> AddChildSpec(old(children), idx, r.value) == Ok(children)
    {
      if idx in children {
        return Err("Child already exists");
      }
      var p := new Child(this);
      children := children[idx := p];
      r := Ok(p);
    }
  }

  /** `AddChild` on the name map: adding under a fresh name adds exactly
      one entry, which `at` then finds; a taken name changes nothing. */
  function AddChildSpec<V>(t: map<string, V>, idx: string, child: V): (r: Result<map<string, V>>)
  {
    if idx in t then Err("Child already exists") else Ok(t[idx := child])
  }

  lemma AddChildRules<V>(t: map<string, V>, idx: string, child: V)
    ensures AddChildSpec(t, idx, child).Err? <==> idx in t
    ensures idx !in t ==> var t' := AddChildSpec(t, idx, child).value;
      |t'| == |t| + 1 && t'.Keys == t.Keys + {idx} && At(t', idx) == Ok((idx, child)) &&
      forall k :: k in t ==> At(t', k) == At(t, k)
  {
    if idx !in t {
      var t' := t[idx := child];
      assert t'.Keys == t.Keys + {idx};
    }
  }

  // ---------------------------------------------------------------
  // DynamicDispatch/demo.h

  /** `AddOne`: the variant converted to `int`, plus one, in 32 bits. The
      sum overflows at 0x7FFFFFFF, which C++ leaves undefined; the wrap to
      the most negative value is what compilers do in practice. */
  function AddOne(v: Long): (r: Long)
    ensures v < 0x7FFF_FFFF ==> r == v + 1
    ensures v == 0x7FFF_FFFF ==> r == -0x8000_0000
  {
    Wrap(v + 1)
  }

  class Demo<V> {
    var entries: map<string, V>

    constructor ()
      ensures entries == map[]
    {
      entries := map[];
    }

    /** The constant the demo exposes as `MeaningOfTheUniverse`. */
    method GetMeaningOfTheUniverse() returns (r: int)
      ensures r == 42
    {
      r := 42;
    }

    method GetItem(idx: string) returns (r: Result<V>)
      ensures r == Lookup(entries, idx, "No such item.")
    {
      if idx !in entries {
        return Err("No such item.");
      }
      r := Ok(entries[idx]);
    }

    method PutItem(idx: string, val: V)
      modifies this
      ensures entries == old(entries)[idx := val]
    {
      entries := entries[idx := val];
    }
  }

  /** A value stored through the demo's `Item` property reads back. */
  lemma DemoPutThenGet<V>(m: map<string, V>, k: string, v: V)
    ensures Lookup(m[k := v], k, "No such item.") == Ok(v)
  {
  }
}
