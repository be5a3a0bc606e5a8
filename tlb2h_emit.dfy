/** The small stateful writers tlb2h uses while emitting C++ text:
    `output_typelist_t`, which turns a stream of type names into nested
    `typelist::append< make_list<…>::result, … >` groups of at most ten
    names, and the two one-shot prefix writers `oneoff_output_to_stream`
    and `oneoff_output`.  The output stream is modelled as the text
    written to it so far. */
module Tlb2hEmit {
  import opened Common

  /** `output_typelist`'s `Maxelt`. */
  const MaxElt: nat := 10

  /** The fields of an `output_typelist_t` together with the text its
      stream has received. */
  datatype TypeListState = TypeListState(count: int, elements: string, close: string, out: string)

  function FreshTypeList(out: string): (st: TypeListState)
  {
    TypeListState(0, "", "", out)
  }

  /** The text written when a group of ten is closed off. */
  function Opener(group: string): (r: string)
  {
    "\ntypelist::append< make_list<" + group + ">::result, "
  }

  /** `operator<<`: every tenth name (1st, 11th, …) starts a new group,
      first writing out the previous group, if it is not empty, as an
      `append` opener whose closer is saved for later. */
  function Pushed(st: TypeListState, str: string): (r: TypeListState)
    ensures r.count == st.count + 1
  {
    var count := st.count + 1;
    if count % MaxElt == 1 then
      if st.elements != "" then
        TypeListState(count, str, st.close + " > ", st.out + Opener(st.elements))
      else TypeListState(count, str, st.close, st.out)
    else TypeListState(count, st.elements + ", " + str, st.close, st.out)
  }

  function PushAll(st: TypeListState, names: seq<string>): (r: TypeListState)
  {
    if names == [] then st else Pushed(PushAll(st, names[..|names| - 1]), names[|names| - 1])
  }

  /** `end()`: writes the last group (also when nothing was pushed) and
      all saved closers, resets the fields and reports whether the last
      group held anything. */
  function Ended(st: TypeListState): (r: (TypeListState, bool))
    ensures r.0 == FreshTypeList(r.0.out)
    ensures r.1 <==> st.elements != ""
  {
    var ret := st.elements != "";
    var out := if ret || st.count == 0 then st.out + " make_list<" + st.elements + ">::result " else st.out;
    (FreshTypeList(out + st.close), ret)
  }

  /** The text a list of names should become: the first ten names make
      one `make_list`, appended in front of the text of the rest. */
  function Rendered(names: seq<string>): (r: string)
    requires names != []
    decreases |names|
  {
    if |names| <= MaxElt then " make_list<" + Join(names, ", ") + ">::result "
    else Opener(Join(names[..MaxElt], ", ")) + Rendered(names[MaxElt..]) + " > "
  }

  /** The openers written for the first `k` whole groups of ten. */
  function Openers(names: seq<string>, k: nat): (r: string)
    requires 10 * k <= |names|
    decreases k
  {
    if k == 0 then "" else Opener(Join(names[..10], ", ")) + Openers(names[10..], k - 1)
  }

  predicate NonEmptyNames(names: seq<string>)
  {
    forall i :: 0 <= i < |names| ==> names[i] != ""
  }

  /** What a fresh list holds after `names` were pushed, with `k` whole
      groups before the current one: the count, the current group joined
      with ", ", one closer per finished group, and the openers of the
      finished groups written. */
  predicate PushedState(st: TypeListState, out0: string, names: seq<string>, k: nat)
  {
    10 * k < |names| <= 10 * k + 10 &&
    st.count == |names| &&
    st.elements == Join(names[10 * k..], ", ") &&
    st.close == Repeat(" > ", k) &&
    st.out == out0 + Openers(names, k)
  }

  /** Openers only look at the names of their groups. */
  lemma {:induction false} OpenersPrefix(names: seq<string>, more: seq<string>, k: nat)
    requires 10 * k <= |names|
    ensures Openers(names + more, k) == Openers(names, k)
    decreases k
  {
    if k > 0 {
      assert (names + more)[..10] == names[..10];
      assert (names + more)[10..] == names[10..] + more;
      OpenersPrefix(names[10..], more, k - 1);
    }
  }

  /** One more group adds its opener at the end. */
  lemma {:induction false} OpenersSnoc(names: seq<string>, k: nat)
    requires 10 * k + 10 <= |names|
    ensures Openers(names, k + 1) == Openers(names, k) + Opener(Join(names[10 * k..10 * k + 10], ", "))
    decreases k
  {
    if k == 0 {
      assert names[0..10] == names[..10];
      assert Openers(names, 0) == "";
      assert Openers(names[10..], 0) == "";
    } else {
      var rest := names[10..];
      OpenersSnoc(rest, k - 1);
      var o := Opener(Join(names[..10], ", "));
      var g := Opener(Join(names[10 * k..10 * k + 10], ", "));
      assert rest[10 * (k - 1)..10 * (k - 1) + 10] == names[10 * k..10 * k + 10];
      assert Openers(rest, k) == Openers(rest, k - 1) + g;
      assert Openers(names, k + 1) == o + Openers(rest, k);
      assert Openers(names, k) == o + Openers(rest, k - 1);
      AppendAssoc(o, Openers(rest, k - 1), g);
    }
  }

  /** Joining non-empty names gives a non-empty text. */
  lemma JoinNonEmptyNames(names: seq<string>)
    requires names != [] && NonEmptyNames(names)
    ensures Join(names, ", ") != ""
  {
    if |names| > 1 {
      assert |Join(names, ", ")| >= |names[0]|;
    }
  }

  /** One push keeps `PushedState`: the name ending a full group of ten
      starts a new group, any other joins the current one. */
  lemma PushStep(st: TypeListState, out0: string, names: seq<string>, k: nat, x: string)
    requires NonEmptyNames(names) && PushedState(st, out0, names, k)
    ensures |names| == 10 * k + 10 ==> PushedState(Pushed(st, x), out0, names + [x], k + 1)
    ensures |names| < 10 * k + 10 ==> PushedState(Pushed(st, x), out0, names + [x], k)
  {
    if |names| == 10 * k + 10 {
      assert NonEmptyNames(names[10 * k..]);
      JoinNonEmptyNames(names[10 * k..]);
      PushNewGroup(st, out0, names, k, x);
    } else {
      PushSameGroup(st, out0, names, k, x);
    }
  }

  /** A push after a full group of ten opens a new group. */
  lemma PushNewGroup(st: TypeListState, out0: string, names: seq<string>, k: nat, x: string)
    requires PushedState(st, out0, names, k) && |names| == 10 * k + 10 && st.elements != ""
    ensures PushedState(Pushed(st, x), out0, names + [x], k + 1)
  {
    var ns := names + [x];
    GroupStart(|names|, k);
    var r := Pushed(st, x);
    assert r.count == |ns| && r.elements == x;
    assert r.close == st.close + " > " && r.out == st.out + Opener(st.elements);
    assert ns[10 * (k + 1)..] == [x];
    OpenersNewGroup(names, k, x);
    RepeatSucc(" > ", k);
    AppendAssoc(out0, Openers(names, k), Opener(st.elements));
  }

  /** The openers after a new group started: those before, then the
      opener of the group just finished. */
  lemma OpenersNewGroup(names: seq<string>, k: nat, x: string)
    requires |names| == 10 * k + 10
    ensures Openers(names + [x], k + 1) == Openers(names, k) + Opener(Join(names[10 * k..], ", "))
  {
    OpenersPrefix(names, [x], k + 1);
    OpenersSnoc(names, k);
    var last := names[10 * k..];
    assert names[10 * k..10 * k + 10] == last;
  }

  /** The count after a full group of ten starts a new group. */
  lemma GroupStart(n: nat, k: nat)
    requires n == 10 * k + 10
    ensures (n + 1) % MaxElt == 1 && 10 * (k + 1) < n + 1 <= 10 * (k + 1) + 10
  {
  }

  /** A push into a group that is not yet full extends it. */
  lemma PushSameGroup(st: TypeListState, out0: string, names: seq<string>, k: nat, x: string)
    requires NonEmptyNames(names) && PushedState(st, out0, names, k) && |names| < 10 * k + 10
    ensures PushedState(Pushed(st, x), out0, names + [x], k)
  {
    var ns := names + [x];
    assert (|names| + 1) % MaxElt != 1;
    var r := Pushed(st, x);
    assert r == TypeListState(|ns|, st.elements + ", " + x, st.close, st.out);
    assert ns[10 * k..] == names[10 * k..] + [x];
    JoinSnoc(names[10 * k..], x, ", ");
    OpenersPrefix(names, [x], k);
  }

  /** The state after pushing a list of names, group by group. */
  lemma {:induction false} PushAllState(out0: string, names: seq<string>)
    requires names != [] && NonEmptyNames(names)
    ensures PushedState(PushAll(FreshTypeList(out0), names), out0, names, (|names| - 1) / 10)
  {
    var init := names[..|names| - 1];
    var x := names[|names| - 1];
    assert init + [x] == names;
    if init == [] {
      assert names == [x];
      assert names[..0] == [];
    } else {
      assert NonEmptyNames(init);
      var k := (|init| - 1) / 10;
      PushAllState(out0, init);
      var st := PushAll(FreshTypeList(out0), init);
      assert PushAll(FreshTypeList(out0), names) == Pushed(st, x);
      PushStep(st, out0, init, k, x);
      NextGroupIndex(|init|, k);
    }
  }

  /** The group index of the name after the n-th. */
  lemma NextGroupIndex(n: nat, k: nat)
    requires 10 * k < n <= 10 * k + 10
    ensures n / 10 == if n == 10 * k + 10 then k + 1 else k
  {
  }

  /** The finished groups, the last group and the closers make up
      `Rendered`. */
  lemma {:induction false} RenderedSplit(names: seq<string>, k: nat)
    requires 10 * k < |names| <= 10 * k + 10
    ensures Openers(names, k) + (" make_list<" + Join(names[10 * k..], ", ") + ">::result " + Repeat(" > ", k))
        == Rendered(names)
    decreases k
  {
    if k == 0 {
      assert names[0..] == names;
      assert Repeat(" > ", 0) == "";
    } else {
      var rest := names[10..];
      RenderedSplit(rest, k - 1);
      assert rest[10 * (k - 1)..] == names[10 * k..];
      var tail := " make_list<" + Join(names[10 * k..], ", ") + ">::result ";
      var o1 := Opener(Join(names[..10], ", "));
      RepeatSucc(" > ", k - 1);
      var r := Repeat(" > ", k - 1);
      var o := Openers(rest, k - 1);
      assert names[..MaxElt] == names[..10];
      assert Rendered(names) == o1 + Rendered(rest) + " > ";
      assert Openers(names, k) == o1 + o;
      Regroup(o1, o, tail, r, " > ");
    }
  }

  /** Regrouping five concatenated texts. */
  lemma Regroup(a: string, b: string, c: string, d: string, e: string)
    ensures (a + (b + (c + d))) + e == (a + b) + (c + (d + e))
  {
    AppendAssoc(a, b + (c + d), e);
    AppendAssoc(b, c + d, e);
    AppendAssoc(c, d, e);
    AppendAssoc(a, b, c + (d + e));
  }

  /** Pushing n >= 1 non-empty names into a fresh list and ending it
      writes exactly `Rendered` of them (groups of at most ten, each
      finished group in an `append` with its closer at the end) and
      returns true; with no names it writes " make_list<>::result " and
      returns false.  Either way the list is fresh again. */
  lemma TypeListRendering(out0: string, names: seq<string>)
    requires NonEmptyNames(names)
    ensures names == [] ==> Ended(PushAll(FreshTypeList(out0), names)) == (FreshTypeList(out0 + " make_list<>::result "), false)
    ensures names != [] ==> Ended(PushAll(FreshTypeList(out0), names)) == (FreshTypeList(out0 + Rendered(names)), true)
  {
    if names == [] {
      assert PushAll(FreshTypeList(out0), names) == FreshTypeList(out0);
      var e := Ended(FreshTypeList(out0));
      assert e.0.out == out0 + " make_list<" + "" + ">::result " + "";
      assert out0 + " make_list<" + "" + ">::result " + "" == out0 + " make_list<>::result ";
      assert e.0 == FreshTypeList(out0 + " make_list<>::result ");
    } else {
      var k := (|names| - 1) / 10;
      PushAllState(out0, names);
      EndedPushed(PushAll(FreshTypeList(out0), names), out0, names, k);
    }
  }

  /** Ending the type list closes every group opened. */
  lemma EndedPushed(st: TypeListState, out0: string, names: seq<string>, k: nat)
    requires NonEmptyNames(names) && PushedState(st, out0, names, k)
    ensures Ended(st) == (FreshTypeList(out0 + Rendered(names)), true)
  {
    RenderedSplit(names, k);
    assert NonEmptyNames(names[10 * k..]);
    JoinNonEmptyNames(names[10 * k..]);
    var tail := " make_list<" + st.elements + ">::result ";
    var e := Ended(st);
    assert e.0.out == st.out + tail + st.close;
    var o := Openers(names, k);
    AppendAssoc(out0, o, tail);
    AppendAssoc(out0 + o, tail, st.close);
    AppendAssoc(out0, o + tail, st.close);
    AppendAssoc(o, tail, st.close);
  }

  class TypeList {
    var count: int
    var elements: string
    var close: string
    /** The text written to the output stream. */
    var out: string

    function State(): (s: TypeListState)
      reads this
    {
      TypeListState(count, elements, close, out)
    }

    constructor (out0: string)
      ensures State() == FreshTypeList(out0)
    {
      count := 0;
      elements := "";
      close := "";
      out := out0;
    }

    method Push(str: string)
      modifies this
      ensures State() == Pushed(old(State()), str)
    {
      count := count + 1;
      if count % MaxElt == 1 {
        if elements != "" {
          out := out + "\ntypelist::append< make_list<" + elements + ">::result, ";
          close := close + " > ";
        }
        elements := str;
      } else {
        elements := elements + ", ";
        elements := elements + str;
      }
    }

    method End() returns (ret: bool)
      modifies this
      ensures (State(), ret) == Ended(old(State()))
    {
      ret := elements != "";
      if ret || count == 0 {
        out := out + " make_list<" + elements + ">::result ";
      }
      out := out + close;
      count := 0;
      elements := "";
      close := "";
    }
  }

  /** `oneoff_output_to_stream`: writes its prefix once, just before the
      first non-empty text. */
  datatype OneoffState = OneoffState(prefix: string, done: bool, out: string)

  function OneoffWrite(st: OneoffState, str: string): (r: OneoffState)
  {
    if str == "" then st
    else if !st.done then OneoffState(st.prefix, true, st.out + st.prefix + str)
    else OneoffState(st.prefix, true, st.out + str)
  }

  function OneoffWriteAll(st: OneoffState, strs: seq<string>): (r: OneoffState)
  {
    if strs == [] then st else OneoffWrite(OneoffWriteAll(st, strs[..|strs| - 1]), strs[|strs| - 1])
  }

  function Concat(strs: seq<string>): (r: string)
  {
    if strs == [] then "" else Concat(strs[..|strs| - 1]) + strs[|strs| - 1]
  }

  /** After a run of writes starting not done, the stream holds the
      prefix followed by all the text if any of it was non-empty, and
      nothing new otherwise; `did_output` says which. */
  lemma {:induction false} OneoffPrefixOnce(prefix: string, out0: string, strs: seq<string>)
    ensures var st := OneoffWriteAll(OneoffState(prefix, false, out0), strs);
      st.prefix == prefix &&
      (st.done <==> Concat(strs) != "") &&
      st.out == out0 + (if Concat(strs) != "" then prefix + Concat(strs) else "")
  {
    if strs != [] {
      var init := strs[..|strs| - 1];
      OneoffPrefixOnce(prefix, out0, init);
    }
  }

  class OneoffOutputToStream {
    var prefix: string
    var done: bool
    var out: string

    function State(): (s: OneoffState)
      reads this
    {
      OneoffState(prefix, done, out)
    }

    constructor (out0: string, str: string)
      ensures State() == OneoffState(str, false, out0)
    {
      prefix := str;
      done := false;
      out := out0;
    }

    method Write(str: string)
      modifies this`done, this`out
      ensures State() == OneoffWrite(old(State()), str)
    {
      if str != "" {
        if !done {
          done := true;
          out := out + prefix;
        }
        out := out + str;
      }
    }

    function DidOutput(): (r: bool)
      reads this
    {
      done
    }

    /** `close(str)`: the closing text only follows a prefix that was
        written. */
    method Close(str: string)
      modifies this`out
      ensures out == old(out) + (if done then str else "")
    {
      if done {
        out := out + str;
      }
    }

    method Open()
      modifies this`done
      ensures !done
    {
      done := false;
    }

    method OpenWith(str: string)
      modifies this`done, this`prefix
      ensures !done && prefix == str
    {
      done := false;
      prefix := str;
    }
  }

  /** `oneoff_output`: the prefix goes to whichever stream it is first
      applied to, and never again. */
  class OneoffOutput {
    const prefix: string
    var done: bool

    constructor (str: string)
      ensures prefix == str && !done
    {
      prefix := str;
      done := false;
    }

    method Apply(strm: string) returns (r: string)
      modifies this`done
      ensures done
      ensures r == strm + (if old(done) then "" else prefix)
    {
      r := strm;
      if !done {
        done := true;
        r := r + prefix;
      }
    }

    function DidOutput(): (r: bool)
      reads this
    {
      done
    }
  }
}
