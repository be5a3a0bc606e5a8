/** The project wizard's script (default.js): the names the template files
    get in a new project, which templates are copied rather than
    rendered, the walk over the template manifest, and the directory a
    new solution is created in. Host calls (rendering, adding files,
    creating solutions) become actions the model returns. */
module WizardScript {
  import opened Common

  // ---------------------------------------------------------------
  // The JavaScript string operations the script relies on

  /** `String.prototype.lastIndexOf` for one character: -1 when absent. */
  function LastIndexOf(s: string, c: char): (r: int)
    ensures -1 <= r < |s|
    ensures r >= 0 ==> s[r] == c && forall i :: r < i < |s| ==> s[i] != c
    ensures r == -1 ==> forall i :: 0 <= i < |s| ==> s[i] != c
  {
    if s == [] then -1
    else if s[|s| - 1] == c then |s| - 1
    else LastIndexOf(s[..|s| - 1], c)
  }

  /** Where `substr` starts in the JScript engine that runs the wizard:
      a negative start is taken as 0, a start past the end as the end. */
  function SubstrStart(s: string, start: int): (b: nat)
    ensures b <= |s|
    ensures start <= 0 ==> b == 0
    ensures 0 <= start <= |s| ==> b == start
    ensures start >= |s| ==> b == |s|
  {
    if start < 0 then 0
    else if start > |s| then |s| else start
  }

  /** `s.substr(start)`. */
  function SubstrFrom(s: string, start: int): (r: string)
  {
    s[SubstrStart(s, start)..]
  }

  /** `s.substr(start, length)`: a length that is not positive gives "". */
  function Substr(s: string, start: int, length: int): (r: string)
  {
    var b := SubstrStart(s, start);
    if length <= 0 then "" else s[b..if b + length > |s| then |s| else b + length]
  }

  predicate EndsWith(s: string, e: string)
  {
    |e| <= |s| && s[|s| - |e|..] == e
  }

  // ---------------------------------------------------------------
  // GetTargetName

  /** The name a template file gets in the project. `symbol` is the
      wizard's PROJECT_NAME symbol, which main.cpp reads itself; the
      script's one caller passes that same symbol as `projectName`. */
  function GetTargetName(name: string, projectName: string, symbol: string): (r: string)
  {
    if name == "readme.txt" then "ReadMe.txt"
    else if name == "sample.txt" then "Sample.txt"
    else if name == "main.idl" then projectName + ".idl"
    else if name == "main.rc" then projectName + ".rc"
    else if name == "main.def" then projectName + ".def"
    else if name == "main.cpp" then symbol + ".cpp"
    else name
  }

  const TemplateNames: set<string> := {"readme.txt", "sample.txt", "main.idl", "main.rc", "main.def", "main.cpp"}

  /** The suffix from the last '.', as the script takes it (the whole
      name when there is no '.'). */
  function Extension(name: string): (r: string)
  {
    SubstrFrom(name, LastIndexOf(name, '.'))
  }

  /** Any name but the six templates keeps its name (matched exactly);
      the two text files are capitalised, the idl, rc and def files take
      the project name argument, and main.cpp the PROJECT_NAME symbol. */
  lemma GetTargetNameRules(name: string, projectName: string, symbol: string)
    ensures name !in TemplateNames ==> GetTargetName(name, projectName, symbol) == name
    ensures name == "readme.txt" ==> GetTargetName(name, projectName, symbol) == "ReadMe.txt"
    ensures name == "sample.txt" ==> GetTargetName(name, projectName, symbol) == "Sample.txt"
    ensures name == "main.idl" ==> GetTargetName(name, projectName, symbol) == projectName + ".idl"
    ensures name == "main.rc" ==> GetTargetName(name, projectName, symbol) == projectName + ".rc"
    ensures name == "main.def" ==> GetTargetName(name, projectName, symbol) == projectName + ".def"
    ensures name == "main.cpp" ==> GetTargetName(name, projectName, symbol) == symbol + ".cpp"
  {
  }

  /** Every target keeps its template's extension, so renaming never
      changes whether a file is only copied. */
  lemma TargetKeepsExtension(name: string, projectName: string, symbol: string)
    ensures Extension(GetTargetName(name, projectName, symbol)) == Extension(name)
  {
    var t := GetTargetName(name, projectName, symbol);
    if name == "readme.txt" {
      assert name == "readme" + ".txt" && t == "ReadMe" + ".txt";
      SameExtension("readme", "ReadMe", ".txt");
    } else if name == "sample.txt" {
      assert name == "sample" + ".txt" && t == "Sample" + ".txt";
      SameExtension("sample", "Sample", ".txt");
    } else if name == "main.idl" {
      assert name == "main" + ".idl";
      SameExtension("main", projectName, ".idl");
    } else if name == "main.rc" {
      assert name == "main" + ".rc";
      SameExtension("main", projectName, ".rc");
    } else if name == "main.def" {
      assert name == "main" + ".def";
      SameExtension("main", projectName, ".def");
    } else if name == "main.cpp" {
      assert name == "main" + ".cpp";
      SameExtension("main", symbol, ".cpp");
    }
  }

  /** Two names with the same dotted suffix share their extension. */
  lemma SameExtension(a: string, b: string, ext: string)
    requires |ext| > 0 && ext[0] == '.' && forall i :: 0 < i < |ext| ==> ext[i] != '.'
    ensures Extension(a + ext) == ext && Extension(b + ext) == ext
  {
    ExtensionOfSuffix(a + ext, |a|);
    ExtensionOfSuffix(b + ext, |b|);
    assert (a + ext)[|a|..] == ext && (b + ext)[|b|..] == ext;
  }

  /** A dot at `p` with none after it: the extension starts there. */
  lemma ExtensionOfSuffix(s: string, p: nat)
    requires p < |s| && s[p] == '.' && forall i :: p < i < |s| ==> s[i] != '.'
    ensures Extension(s) == s[p..]
  {
  }

  /** Without a dot, `substr(-1)` is the whole name. */
  lemma ExtensionWithoutDot(s: string)
    requires LastIndexOf(s, '.') < 0
    ensures Extension(s) == s
  {
  }

  // ---------------------------------------------------------------
  // The copy-only test

  const CopyOnlyExtensions: seq<string> := [".bmp", ".ico", ".gif", ".rtf", ".css"]

  predicate IsCopyOnly(name: string)
  {
    Extension(name) in CopyOnlyExtensions
  }

  /** A template is only copied exactly when its name ends in one of the
      five extensions (case-sensitively). */
  lemma CopyOnlyIffSuffix(name: string)
    ensures IsCopyOnly(name) <==> exists e :: e in CopyOnlyExtensions && EndsWith(name, e)
  {
    if IsCopyOnly(name) {
      CopyOnlyEndsWith(name);
    }
    if exists e :: e in CopyOnlyExtensions && EndsWith(name, e) {
      var e :| e in CopyOnlyExtensions && EndsWith(name, e);
      EndsWithCopyOnly(name, e);
    }
  }

  /** A copied-only name ends in its extension, which has a dot, so the
      name has one too. */
  lemma CopyOnlyEndsWith(name: string)
    requires IsCopyOnly(name)
    ensures EndsWith(name, Extension(name))
  {
    var e := Extension(name);
    assert |e| == 4 && e[0] == '.';
    if LastIndexOf(name, '.') < 0 {
      ExtensionWithoutDot(name);
      assert false;
    }
  }

  /** A name ending in a copy-only extension has that extension. */
  lemma EndsWithCopyOnly(name: string, e: string)
    requires e in CopyOnlyExtensions && EndsWith(name, e)
    ensures Extension(name) == e
  {
    var q := |name| - 4;
    assert name[q..] == e;
    assert name[q] == '.';
    forall i | q < i < |name| ensures name[i] != '.' {
      assert name[i] == e[i - q];
    }
    ExtensionOfSuffix(name, q);
  }

  // ---------------------------------------------------------------
  // AddFilesToCustomProj

  /** The wizard symbols and arguments the manifest walk reads. */
  datatype WizardEnv = WizardEnv(templatesPath: string, projectName: string, projectPath: string, symbol: string)

  /** The host calls the walk makes. */
  datatype Action =
    | Render(template: string, file: string, copyOnly: bool)
    | AddFile(file: string)

  /** What one manifest line causes: nothing for an empty line, otherwise
      a render of the template into its target and the target's addition
      to the project. */
  function LineActions(line: string, env: WizardEnv): (r: seq<Action>)
  {
    if line == "" then []
    else
      var file := env.projectPath + "\\" + GetTargetName(line, env.projectName, env.symbol);
      [Render(env.templatesPath + "\\" + line, file, IsCopyOnly(line)), AddFile(file)]
  }

  function ManifestSpec(lines: seq<string>, env: WizardEnv): (r: seq<Action>)
  {
    if lines == [] then []
    else ManifestSpec(lines[..|lines| - 1], env) + LineActions(lines[|lines| - 1], env)
  }

  /** The loop over the manifest's lines. */
  method AddFilesToCustomProj(lines: seq<string>, env: WizardEnv) returns (actions: seq<Action>)
    ensures actions == ManifestSpec(lines, env)
  {
    actions := [];
    var i := 0;
    while i < |lines|
      invariant i <= |lines|
      invariant actions == ManifestSpec(lines[..i], env)
    {
      var tpl := lines[i];
      if tpl != "" {
        var name := tpl;
        var target := GetTargetName(name, env.projectName, env.symbol);
        var template := env.templatesPath + "\\" + tpl;
        var file := env.projectPath + "\\" + target;
        var copyOnly := false;
        var ext := SubstrFrom(name, LastIndexOf(name, '.'));
        if ext == ".bmp" || ext == ".ico" || ext == ".gif" || ext == ".rtf" || ext == ".css" {
          copyOnly := true;
        }
        actions := actions + [Render(template, file, copyOnly), AddFile(file)];
      }
      assert lines[..i + 1][..i] == lines[..i];
      i := i + 1;
    }
    assert lines[..i] == lines;
  }

  /** The walk is line by line: a manifest split anywhere gives the
      actions of its halves in order. */
  lemma {:induction false} ManifestAppend(a: seq<string>, b: seq<string>, env: WizardEnv)
    ensures ManifestSpec(a + b, env) == ManifestSpec(a, env) + ManifestSpec(b, env)
    decreases |b|
  {
    if b == [] {
      assert a + b == a;
    } else {
      var b' := b[..|b| - 1];
      ManifestAppend(a, b', env);
      assert (a + b)[..|a + b| - 1] == a + b';
    }
  }

  /** An empty line adds nothing. */
  lemma EmptyLineSkipped(a: seq<string>, b: seq<string>, env: WizardEnv)
    ensures ManifestSpec(a + [""] + b, env) == ManifestSpec(a + b, env)
  {
    var a' := a + [""];
    assert a'[..|a'| - 1] == a;
    assert ManifestSpec(a', env) == ManifestSpec(a, env) + [];
    ManifestAppend(a', b, env);
    ManifestAppend(a, b, env);
  }

  /** A manifest without empty lines renders its k-th line and then adds
      its target, at positions 2k and 2k+1. */
  lemma {:induction false} ManifestPositions(lines: seq<string>, env: WizardEnv)
    requires forall i :: 0 <= i < |lines| ==> lines[i] != ""
    ensures var r := ManifestSpec(lines, env);
      |r| == 2 * |lines| &&
      forall k :: 0 <= k < |lines| ==>
        var file := env.projectPath + "\\" + GetTargetName(lines[k], env.projectName, env.symbol);
        r[2 * k] == Render(env.templatesPath + "\\" + lines[k], file, IsCopyOnly(lines[k])) &&
        r[2 * k + 1] == AddFile(file)
  {
    if lines != [] {
      var init := lines[..|lines| - 1];
      ManifestPositions(init, env);
      var r := ManifestSpec(lines, env);
      assert r == ManifestSpec(init, env) + LineActions(lines[|lines| - 1], env);
      forall k | 0 <= k < |lines|
        ensures r[2 * k] == LineActions(lines[k], env)[0] && r[2 * k + 1] == LineActions(lines[k], env)[1]
      {
        if k < |init| {
          assert lines[k] == init[k];
        }
      }
    }
  }

  /** A four-line manifest with a blank line: main.cpp and readme.txt are
      rendered into `Foo.cpp` and `ReadMe.txt`, logo.bmp is only copied,
      and the files are added in manifest order. */
  lemma ManifestExample(env: WizardEnv)
    requires env.symbol == "Foo" && env.projectName == "Foo"
    ensures var t := env.templatesPath + "\\";
      var p := env.projectPath + "\\";
      ManifestSpec(["main.cpp", "", "readme.txt", "logo.bmp"], env) ==
        [Render(t + "main.cpp", p + "Foo.cpp", false), AddFile(p + "Foo.cpp"),
         Render(t + "readme.txt", p + "ReadMe.txt", false), AddFile(p + "ReadMe.txt"),
         Render(t + "logo.bmp", p + "logo.bmp", true), AddFile(p + "logo.bmp")]
  {
    ManifestOfFour("main.cpp", "", "readme.txt", "logo.bmp", env);
    ExampleLines(env);
  }

  /** A four-line manifest gives its lines' actions in order. */
  lemma ManifestOfFour(a: string, b: string, c: string, d: string, env: WizardEnv)
    ensures ManifestSpec([a, b, c, d], env) ==
      LineActions(a, env) + LineActions(b, env) + LineActions(c, env) + LineActions(d, env)
  {
    var l1: seq<string> := [a];
    var l2 := l1 + [b];
    var l3 := l2 + [c];
    var l4 := l3 + [d];
    assert l1[..0] == [] && l2[..1] == l1 && l3[..2] == l2 && l4[..3] == l3;
    assert ManifestSpec(l1, env) == LineActions(a, env);
    assert ManifestSpec(l2, env) == ManifestSpec(l1, env) + LineActions(b, env);
    assert ManifestSpec(l3, env) == ManifestSpec(l2, env) + LineActions(c, env);
    assert ManifestSpec(l4, env) == ManifestSpec(l3, env) + LineActions(d, env);
    assert l4 == [a, b, c, d];
  }

  /** The example's lines one by one: main.cpp takes the symbol, readme.txt
      is capitalised, logo.bmp keeps its name and is only copied. */
  lemma ExampleLines(env: WizardEnv)
    requires env.symbol == "Foo" && env.projectName == "Foo"
    ensures var t := env.templatesPath + "\\";
      var p := env.projectPath + "\\";
      LineActions("main.cpp", env) == [Render(t + "main.cpp", p + "Foo.cpp", false), AddFile(p + "Foo.cpp")] &&
      LineActions("", env) == [] &&
      LineActions("readme.txt", env) == [Render(t + "readme.txt", p + "ReadMe.txt", false), AddFile(p + "ReadMe.txt")] &&
      LineActions("logo.bmp", env) == [Render(t + "logo.bmp", p + "logo.bmp", true), AddFile(p + "logo.bmp")]
  {
    ExtensionOfSuffix("main.cpp", 4);
    ExtensionOfSuffix("readme.txt", 6);
    ExtensionOfSuffix("logo.bmp", 4);
    assert "main.cpp"[4..] == ".cpp" && "readme.txt"[6..] == ".txt" && "logo.bmp"[4..] == ".bmp";
    assert GetTargetName("main.cpp", env.projectName, env.symbol) == "Foo.cpp";
  }

  // ---------------------------------------------------------------
  // CreateCustomProject's solution

  /** The solution directory: the project path without its last
      `|projectName|` characters. */
  function SolutionPath(projectPath: string, projectName: string): (r: string)
  {
    Substr(projectPath, 0, |projectPath| - |projectName|)
  }

  /** The solution created, if any: only when the open solution is to be
      closed and a solution name is given. */
  function SolutionToCreate(closeSolution: bool, solutionName: string, projectPath: string, projectName: string): (r: Option<(string, string)>)
  {
    if closeSolution && |solutionName| > 0 then Some((SolutionPath(projectPath, projectName), solutionName))
    else None
  }

  /** The solution path is the project path's prefix that leaves out as
      many characters as the project name has: a project path ending in
      the project name is the solution path followed by it, and a name at
      least as long as the path leaves nothing. */
  lemma SolutionPathRules(projectPath: string, projectName: string)
    ensures var r := SolutionPath(projectPath, projectName);
      IsPrefix(r, projectPath) &&
      (|projectName| <= |projectPath| ==> |r| == |projectPath| - |projectName|) &&
      (|projectName| >= |projectPath| ==> r == "") &&
      (EndsWith(projectPath, projectName) ==> r + projectName == projectPath)
  {
    var r := SolutionPath(projectPath, projectName);
    if EndsWith(projectPath, projectName) && |projectName| < |projectPath| {
      assert r == projectPath[..|projectPath| - |projectName|];
      assert projectPath == projectPath[..|projectPath| - |projectName|] + projectPath[|projectPath| - |projectName|..];
    }
  }

  lemma SolutionToCreateRules(closeSolution: bool, solutionName: string, projectPath: string, projectName: string)
    ensures var r := SolutionToCreate(closeSolution, solutionName, projectPath, projectName);
      (r.Some? <==> closeSolution && solutionName != "") &&
      (r.Some? ==> r.value.1 == solutionName && IsPrefix(r.value.0, projectPath))
  {
    SolutionPathRules(projectPath, projectName);
  }
}
