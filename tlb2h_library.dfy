/** The per-library options of tlb2h (`LibraryOptions`) that decide
    which type-library symbols are generated: an include or exclude set
    filled from the command line or a symbol file, the per-symbol
    server-wrapper and stub-only options, and the output file name. */
module Tlb2hLibrary {
  import opened Common
  import opened Tlb2hText

  /** `so_server_wrapper` and `so_stub_only`. */
  const ServerWrapper: bv32 := 0x1
  const StubOnly: bv32 := 0x2

  /** `expose_symbol`: a listed symbol is generated in inclusive mode
      and left out in exclusive mode; an unlisted one the other way. */
  function Expose(symbols: set<string>, exclude: bool, s: string): (r: bool)
  {
    if s in symbols then !exclude else exclude
  }

  /** The symbol set after `include_symbol(s)`. */
  function IncludeSet(symbols: set<string>, exclude: bool, s: string): (r: set<string>)
  {
    if exclude then symbols - {s} else symbols + {s}
  }

  /** The symbol set after `exclude_symbol(s)`. */
  function ExcludeSet(symbols: set<string>, exclude: bool, s: string): (r: set<string>)
  {
    if !exclude then symbols - {s} else symbols + {s}
  }

  /** Including a symbol exposes it, excluding hides it, whichever mode
      the set is in, and no other symbol changes membership. */
  lemma IncludeExcludeExpose(symbols: set<string>, exclude: bool, s: string)
    ensures Expose(IncludeSet(symbols, exclude, s), exclude, s)
    ensures !Expose(ExcludeSet(symbols, exclude, s), exclude, s)
    ensures IncludeSet(symbols, exclude, s) - {s} == symbols - {s}
    ensures ExcludeSet(symbols, exclude, s) - {s} == symbols - {s}
  {
  }

  predicate IsDelim(c: char) { c == ' ' || c == TAB || c == ',' || c == ':' }

  /** Length of the leading run of non-delimiters. */
  function RunLength(s: string): (n: nat)
    ensures n <= |s|
    ensures forall i :: 0 <= i < n ==> !IsDelim(s[i])
    ensures n < |s| ==> IsDelim(s[n])
  {
    if s == [] || IsDelim(s[0]) then 0 else 1 + RunLength(s[1..])
  }

  /** The symbols `parse_symbols` finds in a command-line argument: the
      maximal runs of characters other than blank, tab, ',' and ':'. */
  function Tokens(s: string): (ts: seq<string>)
    decreases |s|
  {
    if s == [] then []
    else if IsDelim(s[0]) then Tokens(s[1..])
    else var n := RunLength(s); [s[..n]] + Tokens(s[n..])
  }

  /** Every token is non-empty and holds no delimiter. */
  lemma {:induction false} TokensWellFormed(s: string)
    ensures forall t :: t in Tokens(s) ==> t != [] && forall i :: 0 <= i < |t| ==> !IsDelim(t[i])
    decreases |s|
  {
    if s != [] {
      if IsDelim(s[0]) {
        TokensWellFormed(s[1..]);
      } else {
        TokensWellFormed(s[RunLength(s)..]);
      }
    }
  }

  lemma {:induction false} RunLengthUnique(s: string, n: nat)
    requires n <= |s|
    requires forall i :: 0 <= i < n ==> !IsDelim(s[i])
    requires n < |s| ==> IsDelim(s[n])
    ensures RunLength(s) == n
  {
    if n > 0 {
      RunLengthUnique(s[1..], n - 1);
    }
  }

  /** Leading delimiters do not matter. */
  lemma {:induction false} TokensSkip(s: string, k: nat)
    requires k <= |s|
    requires forall i :: 0 <= i < k ==> IsDelim(s[i])
    ensures Tokens(s) == Tokens(s[k..])
  {
    if k > 0 {
      TokensSkip(s[1..], k - 1);
      assert s[1..][k - 1..] == s[k..];
    }
  }

  /** A run of non-delimiters followed by the end or a delimiter is one
      token. */
  lemma TokensRun(w: string, tail: string)
    requires w != [] && forall i :: 0 <= i < |w| ==> !IsDelim(w[i])
    requires tail != [] ==> IsDelim(tail[0])
    ensures Tokens(w + tail) == [w] + Tokens(tail)
  {
    var s := w + tail;
    RunLengthUnique(s, |w|);
    assert s[..|w|] == w && s[|w|..] == tail;
  }

  /** Symbols written as a comma-separated list come back as that list. */
  lemma {:induction false} TokensOfJoin(ts: seq<string>)
    requires forall t :: t in ts ==> t != [] && forall i :: 0 <= i < |t| ==> !IsDelim(t[i])
    ensures Tokens(Join(ts, ",")) == ts
  {
    if |ts| == 1 {
      TokensRun(ts[0], "");
      assert ts[0] + "" == ts[0];
    } else if |ts| > 1 {
      var rest := Join(ts[1..], ",");
      assert Join(ts, ",") == ts[0] + "," + rest;
      AppendAssoc(ts[0], ",", rest);
      var tail := "," + rest;
      assert tail[1..] == rest;
      assert Tokens(tail) == Tokens(rest);
      TokensRun(ts[0], tail);
      TokensOfJoin(ts[1..]);
    }
  }

  /** First delimiter at or after `from` (`find_first_of`; |s| stands
      for npos). */
  function FirstDelim(s: string, from: nat): (r: nat)
    requires from <= |s|
    ensures from <= r <= |s|
    ensures forall i :: from <= i < r ==> !IsDelim(s[i])
    ensures r < |s| ==> IsDelim(s[r])
    decreases |s| - from
  {
    if from == |s| || IsDelim(s[from]) then from else FirstDelim(s, from + 1)
  }

  /** First non-delimiter at or after `from` (`find_first_not_of`). */
  function FirstNotDelim(s: string, from: nat): (r: nat)
    requires from <= |s|
    ensures from <= r <= |s|
    ensures forall i :: from <= i < r ==> IsDelim(s[i])
    ensures r < |s| ==> !IsDelim(s[r])
    decreases |s| - from
  {
    if from == |s| || !IsDelim(s[from]) then from else FirstNotDelim(s, from + 1)
  }

  /** The strings of a sequence, as a set. */
  function Elements(ts: seq<string>): (r: set<string>)
  {
    if ts == [] then {} else Elements(ts[..|ts| - 1]) + {ts[|ts| - 1]}
  }

  lemma {:induction false} ElementsCons(x: string, ts: seq<string>)
    ensures Elements([x] + ts) == {x} + Elements(ts)
    decreases |ts|
  {
    if ts != [] {
      ElementsCons(x, ts[..|ts| - 1]);
      assert ([x] + ts)[..|ts|] == [x] + ts[..|ts| - 1];
    }
  }

  /** One round of the `parse_symbols` loop: the token starting at
      `mark`, then the delimiters after it are skipped. */
  lemma TokensStep(arg: string, mark: nat)
    requires mark < |arg| && !IsDelim(arg[mark])
    ensures Tokens(arg[mark..]) == [arg[mark..FirstDelim(arg, mark)]] + Tokens(arg[FirstNotDelim(arg, FirstDelim(arg, mark))..])
  {
    var pos := FirstDelim(arg, mark);
    var w := arg[mark..pos];
    var tail := arg[pos..];
    assert forall i :: 0 <= i < |w| ==> !IsDelim(w[i]);
    assert tail != [] ==> IsDelim(tail[0]);
    TokensRun(w, tail);
    assert arg[mark..] == w + tail;
    TokensSkipFrom(arg, pos);
  }

  lemma TokensSkipFrom(arg: string, pos: nat)
    requires pos <= |arg|
    ensures Tokens(arg[pos..]) == Tokens(arg[FirstNotDelim(arg, pos)..])
  {
    var next := FirstNotDelim(arg, pos);
    var tail := arg[pos..];
    assert forall i :: 0 <= i < next - pos ==> IsDelim(tail[i]);
    TokensSkip(tail, next - pos);
    assert tail[next - pos..] == arg[next..];
  }

  /** The table a symbol file builds: the symbol set and the extra
      per-symbol options. */
  datatype SymbolTable = SymbolTable(symbols: set<string>, extra: map<string, bv32>)

  /** A line of a symbol file without its trailing blanks and tabs. */
  function TrimTrailing(line: string): (r: string)
  {
    line[..TrimEnd(line)]
  }

  /** One line of `load_symbols`: comments (';', '#') and blank lines
      are skipped; a line marked '*' (server wrapper) or '~' (stub only)
      records that option for the rest of the line, which becomes a
      symbol only in inclusive mode; any other line is a symbol. */
  function SymbolLineEffect(t: SymbolTable, exclude: bool, line: string): (r: SymbolTable)
  {
    var v := TrimTrailing(line);
    if v == [] || v[0] == ';' || v[0] == '#' then t
    else if v[0] == '*' || v[0] == '~' then
      var name := v[1..];
      SymbolTable(if !exclude then t.symbols + {name} else t.symbols,
                  t.extra[name := if v[0] == '*' then ServerWrapper else StubOnly])
    else SymbolTable(t.symbols + {v}, t.extra)
  }

  function SymbolLinesEffect(t: SymbolTable, exclude: bool, lines: seq<string>): (r: SymbolTable)
  {
    if lines == [] then t
    else SymbolLineEffect(SymbolLinesEffect(t, exclude, lines[..|lines| - 1]), exclude, lines[|lines| - 1])
  }

  /** A marked line sets exactly its symbol's option (replacing an
      earlier one) and adds the symbol only in inclusive mode; an
      unmarked line adds itself without its trailing blanks. */
  lemma SymbolLineRules(t: SymbolTable, exclude: bool, line: string)
    ensures var v := TrimTrailing(line);
      v != [] && (v[0] == '*' || v[0] == '~') ==>
        SymbolLineEffect(t, exclude, line).extra == t.extra[v[1..] := if v[0] == '*' then ServerWrapper else StubOnly] &&
        (v[1..] in SymbolLineEffect(t, exclude, line).symbols <==> !exclude || v[1..] in t.symbols)
    ensures var v := TrimTrailing(line);
      v != [] && v[0] !in {';', '#', '*', '~'} ==>
        SymbolLineEffect(t, exclude, line) == SymbolTable(t.symbols + {v}, t.extra)
    ensures var v := TrimTrailing(line);
      (v == [] || v[0] == ';' || v[0] == '#') ==> SymbolLineEffect(t, exclude, line) == t
    ensures TrimTrailing(line) == [] <==> forall i :: 0 <= i < |line| ==> IsBlank(line[i])
  {
    var n := TrimEnd(line);
    if n > 0 {
      assert !IsBlank(line[n - 1]);
    }
  }

  /** In exclusive mode a symbol file only ever adds unmarked symbols:
      every symbol it adds appears, trailing blanks trimmed, as an
      unmarked line. */
  lemma {:induction false} ExclusiveAddsOnlyUnmarked(t: SymbolTable, lines: seq<string>, x: string)
    requires x in SymbolLinesEffect(t, true, lines).symbols && x !in t.symbols
    ensures exists i :: 0 <= i < |lines| && TrimTrailing(lines[i]) == x && x != [] && x[0] !in {';', '#', '*', '~'}
  {
    var init := lines[..|lines| - 1];
    var prev := SymbolLinesEffect(t, true, init);
    if x in prev.symbols {
      ExclusiveAddsOnlyUnmarked(t, init, x);
      var i :| 0 <= i < |init| && TrimTrailing(init[i]) == x && x != [] && x[0] !in {';', '#', '*', '~'};
      assert lines[i] == init[i];
    } else {
      assert TrimTrailing(lines[|lines| - 1]) == x;
    }
  }

  /** Options recorded by a symbol file are never dropped by later
      lines. */
  lemma {:induction false} SymbolLinesKeepOptions(t: SymbolTable, exclude: bool, lines: seq<string>)
    ensures t.extra.Keys <= SymbolLinesEffect(t, exclude, lines).extra.Keys
  {
    if lines != [] {
      SymbolLinesKeepOptions(t, exclude, lines[..|lines| - 1]);
    }
  }

  /** `make_output_filename`: in directory mode the library name and
      extension are appended to the output path, after a '\' unless the
      path is empty or already ends in a separator; otherwise the output
      file is used as given. */
  function OutputFilename(outputFile: string, isDirectory: bool, libraryName: string, ext: string): (r: string)
    ensures !isDirectory ==> r == outputFile
    ensures isDirectory ==>
      |r| == |outputFile| + |libraryName| + |ext| + (if outputFile == [] || IsSeparator(outputFile[|outputFile| - 1]) then 0 else 1)
    ensures isDirectory ==> IsPrefix(outputFile, r) && r[|r| - |libraryName + ext|..] == libraryName + ext
    ensures isDirectory && outputFile != [] ==> IsSeparator(r[|r| - |libraryName + ext| - 1])
  {
    if isDirectory then
      var fn := if outputFile != [] && !IsSeparator(outputFile[|outputFile| - 1]) then outputFile + "\\" else outputFile;
      assert (fn + (libraryName + ext))[..|outputFile|] == outputFile;
      fn + (libraryName + ext)
    else outputFile
  }

  class LibraryOptions {
    var symbols: set<string>
    var extraOptions: map<string, bv32>
    var exclude: bool
    var outputIsDirectory: bool
    var outputFile: string
    var libraryName: string

    /** The constructor's defaults: exclusive mode with no symbols, so
        everything is exposed, and output into a directory. */
    constructor ()
      ensures symbols == {} && extraOptions == map[] && exclude && outputIsDirectory
      ensures outputFile == "" && libraryName == ""
      ensures forall s :: ExposeSymbol(s)
    {
      symbols := {};
      extraOptions := map[];
      exclude := true;
      outputIsDirectory := true;
      outputFile := "";
      libraryName := "";
    }

    method SetLibraryName(name: string)
      modifies this`libraryName
      ensures libraryName == name
    {
      libraryName := name;
    }

    method SetOutputFile(filename: string, isDirectory: bool)
      modifies this`outputFile, this`outputIsDirectory
      ensures outputFile == filename && outputIsDirectory == isDirectory
    {
      outputFile := filename;
      outputIsDirectory := isDirectory;
    }

    function MakeOutputFilename(ext: string): (r: string)
      reads this
      ensures r == OutputFilename(outputFile, outputIsDirectory, libraryName, ext)
    {
      if outputIsDirectory then
        var fn := if outputFile != [] && !IsSeparator(outputFile[|outputFile| - 1]) then outputFile + "\\" else outputFile;
        fn + (libraryName + ext)
      else outputFile
    }

    /** `has_exclude`: whether the set restricts anything. */
    function HasExclude(): (r: bool)
      reads this
      ensures r <==> !exclude || symbols != {}
      ensures !r ==> forall s :: ExposeSymbol(s)
    {
      if !exclude then true else symbols != {}
    }

    function ExposeSymbol(s: string): (r: bool)
      reads this
    {
      Expose(symbols, exclude, s)
    }

    /** `server_wrapper_for` and `stub_only_for`. */
    function ServerWrapperFor(s: string): (r: bool)
      reads this
      ensures r ==> s in extraOptions
    {
      if s !in extraOptions then false else extraOptions[s] & ServerWrapper != 0
    }

    function StubOnlyFor(s: string): (r: bool)
      reads this
      ensures r ==> s in extraOptions
    {
      if s !in extraOptions then false else extraOptions[s] & StubOnly != 0
    }

    method IncludeSymbol(s: string)
      modifies this`symbols
      ensures symbols == IncludeSet(old(symbols), exclude, s)
      ensures ExposeSymbol(s)
    {
      if exclude {
        symbols := symbols - {s};
      } else {
        symbols := symbols + {s};
      }
    }

    method ExcludeSymbol(s: string)
      modifies this`symbols
      ensures symbols == ExcludeSet(old(symbols), exclude, s)
      ensures !ExposeSymbol(s)
    {
      if !exclude {
        symbols := symbols - {s};
      } else {
        symbols := symbols + {s};
      }
    }

    /** `parse_symbols`: switches to inclusive mode and adds every token
        of the argument. */
    method ParseSymbols(arg: string)
      modifies this`exclude, this`symbols
      ensures !exclude
      ensures symbols == old(symbols) + Elements(Tokens(arg))
    {
      exclude := false;
      var mark := FirstNotDelim(arg, 0);
      TokensSkipFrom(arg, 0);
      assert arg[0..] == arg;
      while mark < |arg|
        invariant mark <= |arg|
        invariant mark < |arg| ==> !IsDelim(arg[mark])
        invariant symbols + Elements(Tokens(arg[mark..])) == old(symbols) + Elements(Tokens(arg))
        invariant old(symbols) <= symbols
        invariant !exclude
        decreases |arg| - mark
      {
        var pos := FirstDelim(arg, mark);
        var newval := arg[mark..pos];
        var next := FirstNotDelim(arg, pos);
        TokensStep(arg, mark);
        ElementsCons(newval, Tokens(arg[next..]));
        UnionAssoc(symbols, {newval}, Elements(Tokens(arg[next..])));
        if newval != [] {
          symbols := symbols + {newval};
        }
        mark := next;
      }
      assert arg[mark..] == [];
    }

    /** `load_symbols`: sets the mode and clears the symbols before the
        file is opened, so a missing file (`lines` is None) still leaves
        them cleared; the extra options are kept and added to. */
    method LoadSymbols(filename: string, lines: Option<seq<string>>, excl: bool) returns (r: Result<()>)
      modifies this`exclude, this`symbols, this`extraOptions
      ensures exclude == excl
      ensures lines.None? ==>
        r == Err("Unable to open symbol file: '" + filename + "'") && symbols == {} && extraOptions == old(extraOptions)
      ensures lines.Some? ==>
        r == Ok(()) && SymbolTable(symbols, extraOptions) == SymbolLinesEffect(SymbolTable({}, old(extraOptions)), excl, lines.value)
    {
      exclude := excl;
      symbols := {};
      if lines.None? {
        return Err("Unable to open symbol file: '" + filename + "'");
      }
      var ls := lines.value;
      var i := 0;
      while i < |ls|
        invariant 0 <= i <= |ls|
        invariant exclude == excl
        invariant SymbolTable(symbols, extraOptions) == SymbolLinesEffect(SymbolTable({}, old(extraOptions)), excl, ls[..i])
      {
        assert ls[..i + 1][..i] == ls[..i];
        var newval := ls[i][..TrimEnd(ls[i])];
        if newval != [] && newval[0] != ';' && newval[0] != '#' {
          var ch := newval[0];
          if ch == '*' || ch == '~' {
            newval := newval[1..];
            if !excl {
              symbols := symbols + {newval};
            }
            extraOptions := extraOptions[newval := if ch == '*' then ServerWrapper else StubOnly];
          } else {
            symbols := symbols + {newval};
          }
        }
        i := i + 1;
      }
      assert ls[..|ls|] == ls;
      r := Ok(());
    }
  }
}
