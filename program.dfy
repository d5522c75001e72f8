/**
 * `Program.Process(inputFolder, files, outputType)`: for every effect file, the
 * variant strings of its descriptor, the output name of each variant, the
 * compiler command line of each variant followed by the errorlevel guard, the
 * script id, and the `"all"` aggregate; and the argument loop of `Process(args)`.
 *
 * The file system is not modelled. The `Path` functions, `Environment.NewLine`,
 * the extension from the options and the culture's string comparer are fields of
 * an `Env`; whether a descriptor exists and the texts of its root's children are
 * fields of a `FilePair`.
 */
module Program {
  import opened Wrappers
  import opened Strings
  import opened Dictionaries
  import opened Sorting
  import opened VariantsParser

  datatype OutputType = MGDX11 | MGOGL | FNA

  /** The folder each output type writes below. */
  function OutputSubfolder(outputType: OutputType): (r: string)
    ensures outputType == MGDX11 <==> r == "MonoGameDX11"
    ensures outputType == MGOGL <==> r == "MonoGameOGL"
    ensures outputType == FNA <==> r == "FNA"
  {
    match outputType
    case MGDX11 => "MonoGameDX11"
    case MGOGL => "MonoGameOGL"
    case _ => "FNA"
  }

  /** The library and platform calls the generator makes, taken as given. */
  datatype Env = Env(
    fullPath: string -> string,                 // Path.GetFullPath
    combine: (string, string) -> string,        // Path.Combine
    directoryName: string -> string,            // Path.GetDirectoryName
    baseName: string -> string,                 // Path.GetFileNameWithoutExtension
    changeExtension: (string, string) -> string, // Path.ChangeExtension
    separator: char,                            // Path.DirectorySeparatorChar
    newLine: string,                            // Environment.NewLine
    extension: string,                          // Options.Extension
    leq: (string, string) -> bool)              // the comparer of `orderby`

  // ---------------------------------------------------------------- variant strings

  /** One dictionary entry of a variant: `key`, or `key=value` unless the value is `"1"`. */
  function Token(e: Pair): string {
    if e.value == "1" then e.key else e.key + "=" + e.value
  }

  /** `string.Join(";", from d in v select ...)`: the entries in dictionary order. */
  function VariantString(d: Dict): string {
    Join(Map(Token, d), ";")
  }

  lemma TokenSplit(e: Pair)
    requires WellFormed(e)
    ensures ';' !in Token(e)
    ensures IsTrimmed(Token(e))
    ensures e.value == "1" ==> '=' !in Token(e)
    ensures e.value != "1" ==> Split(Token(e), '=') == [e.key, e.value]
  {
    if e.value != "1" {
      var t := Token(e);
      assert Join([e.key, e.value], "=") == t;
      SplitJoin([e.key, e.value], '=');
      assert t[0] == if |e.key| > 0 then e.key[0] else '=';
      assert t[|t| - 1] == if |e.value| > 0 then e.value[|e.value| - 1] else '=';
    }
  }

  /** A well-formed entry written as a token reads back as itself. */
  lemma TokenRoundTrip(e: Pair)
    requires WellFormed(e)
    ensures ParseOption(Token(e)) == e
  {
    TokenSplit(e);
    ParseOptionMeaning(Token(e));
    TrimOfTrimmed(e.key);
    TrimOfTrimmed(e.value);
    if e.value != "1" {
      assert '=' in Token(e) by {
        assert Token(e)[|e.key|] == '=';
      }
    }
  }

  /** The variant string of a non-empty dictionary of well-formed entries, parsed
      as a level, gives the dictionary back, entries and order. */
  lemma VariantStringRoundTrip(d: Dict)
    requires |d| > 0
    requires forall k :: 0 <= k < |d| ==> WellFormed(d[k])
    ensures Split(VariantString(d), ';') == Map(Token, d)
    ensures ParseLevel(VariantString(d)) == d
  {
    var tokens := Map(Token, d);
    forall k | 0 <= k < |d| ensures ';' !in tokens[k] && ParseOption(tokens[k]) == d[k] {
      TokenSplit(d[k]);
      TokenRoundTrip(d[k]);
    }
    SplitJoin(tokens, ';');
  }

  // ---------------------------------------------------------------- output names

  /** `from d in variant.Split(";") orderby d select d.Trim()`. */
  function SortedDefines(variant: string, leq: (string, string) -> bool): (defines: seq<string>)
    ensures |defines| == Count(variant, ';') + 1
  {
    TrimAll(Sort(leq, Split(variant, ';')))
  }

  /** `from d in def.Split("=") select d.Trim()`. */
  function DefineParts(def: string): (parts: seq<string>)
    ensures |parts| >= 1
  {
    TrimAll(Split(def, '='))
  }

  /** `"_" + part` for each part, in order. */
  function Underscored(parts: seq<string>): string {
    if |parts| == 0 then "" else Underscored(parts[..|parts| - 1]) + "_" + parts[|parts| - 1]
  }

  /** The postfix contributed by the defines, in order. */
  function DefinesPostfix(defines: seq<string>): string {
    if |defines| == 0 then ""
    else DefinesPostfix(defines[..|defines| - 1]) + Underscored(DefineParts(defines[|defines| - 1]))
  }

  lemma UnderscoredStep(parts: seq<string>, j: nat)
    requires j < |parts|
    ensures Underscored(parts[..j + 1]) == Underscored(parts[..j]) + "_" + parts[j]
  {
    assert parts[..j + 1][..j] == parts[..j];
  }

  lemma DefinesPostfixStep(defines: seq<string>, k: nat)
    requires k < |defines|
    ensures DefinesPostfix(defines[..k + 1]) == DefinesPostfix(defines[..k]) + Underscored(DefineParts(defines[k]))
  {
    assert defines[..k + 1][..k] == defines[..k];
  }

  /** The postfix of the output name: empty for the empty variant. */
  function Postfix(variant: string, leq: (string, string) -> bool): string {
    if variant == "" then "" else DefinesPostfix(SortedDefines(variant, leq))
  }

  /** The inner loop that appends `"_" + part` for each part of one define. */
  method AppendParts(before: string, defineParts: seq<string>) returns (postFix: string)
    ensures postFix == before + Underscored(defineParts)
  {
    postFix := before;
    for j := 0 to |defineParts|
      invariant postFix == before + Underscored(defineParts[..j])
    {
      UnderscoredStep(defineParts, j);
      postFix := postFix + "_";
      postFix := postFix + defineParts[j];
    }
    assert defineParts[..|defineParts|] == defineParts;
  }

  /** The loops that build `postFix`. */
  method BuildPostfix(variant: string, leq: (string, string) -> bool) returns (postFix: string)
    ensures postFix == Postfix(variant, leq)
  {
    postFix := "";
    if variant != "" {
      var defines := SortedDefines(variant, leq);
      for k := 0 to |defines|
        invariant postFix == DefinesPostfix(defines[..k])
      {
        var defineParts := DefineParts(defines[k]);
        postFix := AppendParts(postFix, defineParts);
        DefinesPostfixStep(defines, k);
      }
      assert defines[..|defines|] == defines;
    }
  }

  /** The parts of an entry's token are its key, then its value unless that is `"1"`. */
  lemma TokenParts(e: Pair)
    requires WellFormed(e)
    ensures DefineParts(Token(e)) == if e.value == "1" then [e.key] else [e.key, e.value]
  {
    TokenSplit(e);
    TrimOfTrimmed(e.key);
    TrimOfTrimmed(e.value);
    if e.value == "1" {
      SplitNoSeparator(Token(e), '=');
    }
  }

  lemma {:induction false} UnderscoredAppend(x: seq<string>, y: seq<string>)
    ensures Underscored(x + y) == Underscored(x) + Underscored(y)
    decreases |y|
  {
    if |y| == 0 {
      assert x + y == x;
    } else {
      var init, last := y[..|y| - 1], y[|y| - 1];
      UnderscoredAppend(x, init);
      AppendLast(x, y);
      assert Underscored(x + y) == Underscored(x + init) + "_" + last;
      assert Underscored(y) == Underscored(init) + "_" + last;
    }
  }

  lemma AppendLast(x: seq<string>, y: seq<string>)
    requires |y| > 0
    ensures (x + y)[..|x + y| - 1] == x + y[..|y| - 1]
    ensures (x + y)[|x + y| - 1] == y[|y| - 1]
  {
  }

  /** Under a total order the postfix depends only on which entries a dictionary
      has, not on their order in it. */
  lemma PostfixCanonical(leq: (string, string) -> bool, d1: Dict, d2: Dict)
    requires TotalOrder(leq)
    requires |d1| > 0 && forall k :: 0 <= k < |d1| ==> WellFormed(d1[k])
    requires |d2| > 0 && forall k :: 0 <= k < |d2| ==> WellFormed(d2[k])
    requires multiset(d1) == multiset(d2)
    ensures Postfix(VariantString(d1), leq) == Postfix(VariantString(d2), leq)
  {
    VariantStringRoundTrip(d1);
    VariantStringRoundTrip(d2);
    MapMultiset(Token, d1, d2);
    SortCanonical(leq, Map(Token, d1), Map(Token, d2));
  }

  /** The sorted defines of a dictionary's variant string are its tokens, sorted. */
  lemma SortedTokens(leq: (string, string) -> bool, d: Dict)
    requires |d| > 0 && forall k :: 0 <= k < |d| ==> WellFormed(d[k])
    ensures SortedDefines(VariantString(d), leq) == Sort(leq, Map(Token, d))
  {
    VariantStringRoundTrip(d);
    var tokens := Map(Token, d);
    var sorted := Sort(leq, tokens);
    forall k | 0 <= k < |sorted| ensures Trim(sorted[k]) == sorted[k] {
      assert sorted[k] in multiset(tokens);
      TokenTrimmed(d, sorted[k]);
    }
  }

  lemma TokenTrimmed(d: Dict, x: string)
    requires forall k :: 0 <= k < |d| ==> WellFormed(d[k])
    requires x in multiset(Map(Token, d))
    ensures Trim(x) == x
  {
    var j := FindIndex(x, Map(Token, d));
    TokenSplit(d[j]);
    TrimOfTrimmed(x);
  }

  lemma DefinesPostfixPair(a: string, b: string)
    ensures DefinesPostfix([a, b]) == Underscored(DefineParts(a) + DefineParts(b))
  {
    assert [a, b][..1] == [a] && [a][..0] == [];
    assert DefinesPostfix([a, b]) == DefinesPostfix([a]) + Underscored(DefineParts(b));
    var pa := Underscored(DefineParts(a));
    assert DefinesPostfix([a]) == "" + pa == pa;
    UnderscoredAppend(DefineParts(a), DefineParts(b));
  }

  /** A variant of a define without value `t` followed by a define with value `s`
      names its output after the sorted tokens: when `s`'s token sorts first, the
      postfix is `_<s.key>_<s.value>_<t.key>`, whatever order the dictionary had. */
  lemma PostfixOfTwo(leq: (string, string) -> bool, t: Pair, s: Pair)
    requires WellFormed(t) && WellFormed(s)
    requires t.value == "1" && s.value != "1"
    requires leq(Token(s), Token(t)) && !leq(Token(t), Token(s))
    ensures Postfix(VariantString([t, s]), leq) == Underscored([s.key, s.value, t.key])
  {
    var defines := TwoDefines(leq, t, s);
    calc {
      Postfix(VariantString([t, s]), leq);
      DefinesPostfix([Token(s), Token(t)]);
      { DefinesPostfixPair(Token(s), Token(t)); }
      Underscored(DefineParts(Token(s)) + DefineParts(Token(t)));
      { TokenParts(s);
        TokenParts(t);
        assert [s.key, s.value] + [t.key] == [s.key, s.value, t.key]; }
      Underscored([s.key, s.value, t.key]);
    }
  }

  /** The variant string of two entries is not empty and its sorted defines are
      the two tokens in order. */
  lemma TwoDefines(leq: (string, string) -> bool, t: Pair, s: Pair) returns (defines: seq<string>)
    requires WellFormed(t) && WellFormed(s)
    requires !leq(Token(t), Token(s))
    ensures VariantString([t, s]) != ""
    ensures defines == SortedDefines(VariantString([t, s]), leq) == [Token(s), Token(t)]
  {
    var d := [t, s];
    SortedTokens(leq, d);
    var tokens := Map(Token, d);
    assert tokens == [Token(t), Token(s)];
    assert tokens[1..] == [Token(s)];
    var v := VariantString(d);
    assert v == Token(t) + ";" + Join([Token(s)], ";");
    assert |v| > 0;
    SortTwo(leq, Token(t), Token(s));
    defines := [Token(s), Token(t)];
  }

  /** `TEXTURE` and `SKINNING=2`, under any order that puts `SKINNING=2` first, give the
      postfix `_SKINNING_2_TEXTURE`, although the dictionary holds `TEXTURE` first. */
  lemma PostfixExample(leq: (string, string) -> bool)
    requires leq("SKINNING=2", "TEXTURE") && !leq("TEXTURE", "SKINNING=2")
    ensures Postfix(VariantString([Pair("TEXTURE", "1"), Pair("SKINNING", "2")]), leq)
      == Underscored(["SKINNING", "2", "TEXTURE"])
  {
    var t, s := Pair("TEXTURE", "1"), Pair("SKINNING", "2");
    assert WellFormed(t) && WellFormed(s);
    assert Token(s) == "SKINNING=2";
    PostfixOfTwo(leq, t, s);
  }

  // ---------------------------------------------------------------- command lines

  /** The errorlevel check that follows every command. */
  function Guard(): string {
    "@if %errorlevel% neq 0 exit /b %errorlevel%"
  }

  function Profile(outputType: OutputType): string {
    if outputType == MGDX11 then "DirectX_11" else "OpenGL"
  }

  /** `mgfxc "<src>" "<out>"`. */
  function ModernHead(src: string, out: string): string {
    "mgfxc \"" + src + "\" \"" + out + "\""
  }

  /** The `mgfxc` command line: the head, ` /Profile:<profile>`, then ` /Defines:<variant>` with
      the variant as written, unsorted, when it is not empty. */
  function ModernCommand(outputType: OutputType, src: string, out: string, variant: string): string {
    ModernHead(src, out) + " /Profile:" + Profile(outputType)
      + (if variant == "" then "" else " /Defines:" + variant)
  }

  /** `fxc "<src>" /Fo "<out>"`. */
  function LegacyHead(src: string, out: string): string {
    "fxc \"" + src + "\" /Fo \"" + out + "\""
  }

  /** ` /D <name>=<value>` for one sorted define, `=1` when it has no value. */
  function Switch(def: string): string {
    var parts := DefineParts(def);
    if |parts| == 1 then " /D " + parts[0] + "=1" else " /D " + parts[0] + "=" + parts[1]
  }

  /** The switches of the defines, in order. */
  function Switches(defines: seq<string>): string {
    if |defines| == 0 then "" else Switches(defines[..|defines| - 1]) + Switch(defines[|defines| - 1])
  }

  lemma {:induction false} SwitchesConcat(defines: seq<string>)
    ensures Switches(defines) == Concat(Map(Switch, defines))
    decreases |defines|
  {
    if |defines| > 0 {
      var init := defines[..|defines| - 1];
      SwitchesConcat(init);
      assert Map(Switch, defines)[..|defines| - 1] == Map(Switch, init);
    }
  }

  /** The `fxc` command line: the head, ` /T:fx_2_0`, then one switch per sorted define. */
  function LegacyCommand(src: string, out: string, variant: string, leq: (string, string) -> bool): string {
    LegacyHead(src, out) + " /T:fx_2_0"
      + (if variant == "" then "" else Switches(SortedDefines(variant, leq)))
  }

  function CommandLine(outputType: OutputType, src: string, out: string, variant: string,
                       leq: (string, string) -> bool): string {
    if outputType != FNA then ModernCommand(outputType, src, out, variant)
    else LegacyCommand(src, out, variant, leq)
  }

  lemma SwitchesStep(before: string, defines: seq<string>, k: nat)
    requires k < |defines|
    ensures before + Switches(defines[..k]) + Switch(defines[k]) == before + Switches(defines[..k + 1])
  {
    assert defines[..k + 1][..k] == defines[..k];
  }

  /** The body of the loop over the sorted defines: one switch. */
  method AppendSwitch(before: string, def: string) returns (commandLine: string)
    ensures commandLine == before + Switch(def)
  {
    var defineParts := DefineParts(def);
    var switch;
    if |defineParts| == 1 {
      switch := " /D " + defineParts[0] + "=1";
    } else {
      switch := " /D " + defineParts[0] + "=" + defineParts[1];
    }
    commandLine := before + switch;
  }

  /** The loop that appends the `fxc` switches. */
  method AppendSwitches(before: string, defines: seq<string>) returns (commandLine: string)
    ensures commandLine == before + Switches(defines)
  {
    commandLine := before;
    for k := 0 to |defines|
      invariant commandLine == before + Switches(defines[..k])
    {
      SwitchesStep(before, defines, k);
      commandLine := AppendSwitch(commandLine, defines[k]);
    }
    assert defines[..|defines|] == defines;
  }

  /** The `commandLine` builder. */
  method BuildCommandLine(outputType: OutputType, src: string, out: string, variant: string,
                          leq: (string, string) -> bool) returns (commandLine: string)
    ensures commandLine == CommandLine(outputType, src, out, variant, leq)
  {
    if outputType != FNA {
      commandLine := ModernHead(src, out);
      commandLine := commandLine + " /Profile:";
      commandLine := commandLine + (if outputType == MGDX11 then "DirectX_11" else "OpenGL");
      if variant != "" {
        commandLine := commandLine + " /Defines:" + variant;
      }
    } else {
      commandLine := LegacyHead(src, out);
      commandLine := commandLine + " /T:fx_2_0";
      if variant != "" {
        var defines := SortedDefines(variant, leq);
        commandLine := AppendSwitches(commandLine, defines);
      }
    }
  }

  /** Different variants give different `mgfxc` command lines. */
  lemma ModernCommandInjective(outputType: OutputType, src: string, out: string, v1: string, v2: string)
    requires ModernCommand(outputType, src, out, v1) == ModernCommand(outputType, src, out, v2)
    ensures v1 == v2
  {
    var head := ModernHead(src, out) + " /Profile:" + Profile(outputType);
    var c1, c2 := ModernCommand(outputType, src, out, v1), ModernCommand(outputType, src, out, v2);
    var tag := " /Defines:";
    if v1 != "" && v2 != "" {
      assert c1 == head + tag + v1 && c2 == head + tag + v2;
      assert v1 == c1[|head| + |tag|..] == c2[|head| + |tag|..] == v2;
    }
  }

  /** The switch every entry of a dictionary gets: ` /D key=value`. */
  function EntrySwitch(e: Pair): string {
    " /D " + e.key + "=" + e.value
  }

  /** A sorted define that came from a well-formed entry gives that entry's switch,
      with `=1` supplied when the token carried no value. */
  lemma SwitchOfToken(e: Pair)
    requires WellFormed(e)
    ensures Switch(Token(e)) == EntrySwitch(e)
  {
    TokenSplit(e);
    TrimOfTrimmed(e.key);
    TrimOfTrimmed(e.value);
    if e.value == "1" {
      SplitNoSeparator(Token(e), '=');
    }
  }

  /** The `fxc` switches of a dictionary's variant are its entries' switches, each
      once, in sorted order: one ` /D` per entry. */
  lemma LegacySwitches(leq: (string, string) -> bool, d: Dict)
    requires |d| > 0 && forall k :: 0 <= k < |d| ==> WellFormed(d[k])
    ensures var sw := Map(Switch, SortedDefines(VariantString(d), leq));
      && |sw| == |d|
      && multiset(sw) == multiset(Map(EntrySwitch, d))
  {
    SortedTokens(leq, d);
    var tokens := Map(Token, d);
    MapMultiset(Switch, Sort(leq, tokens), tokens);
    TokenSwitches(d);
  }

  lemma TokenSwitches(d: Dict)
    requires forall k :: 0 <= k < |d| ==> WellFormed(d[k])
    ensures Map(Switch, Map(Token, d)) == Map(EntrySwitch, d)
  {
    var tokens := Map(Token, d);
    forall k | 0 <= k < |d| ensures Switch(tokens[k]) == EntrySwitch(d[k]) {
      SwitchOfToken(d[k]);
    }
  }

  // ---------------------------------------------------------------- scripts

  /** The lines a script holds for the commands `cmds`: each command followed by the guard. */
  function Lines(cmds: seq<string>): (lines: seq<string>)
    ensures |lines| == 2 * |cmds|
    ensures forall k :: 0 <= k < |cmds| ==> lines[2 * k] == cmds[k] && lines[2 * k + 1] == Guard()
  {
    if |cmds| == 0 then []
    else Lines(cmds[..|cmds| - 1]) + [cmds[|cmds| - 1], Guard()]
  }

  /** `sb.AppendLine(line)` for every line: each line followed by the line terminator. */
  function AppendLines(lines: seq<string>, newLine: string): string {
    if |lines| == 0 then ""
    else AppendLines(lines[..|lines| - 1], newLine) + lines[|lines| - 1] + newLine
  }

  lemma LinesStep(cmds: seq<string>, k: nat)
    requires k < |cmds|
    ensures Lines(cmds[..k + 1]) == Lines(cmds[..k]) + [cmds[k], Guard()]
  {
    assert cmds[..k + 1][..k] == cmds[..k];
  }

  lemma AppendTwoLines(lines: seq<string>, a: string, b: string, newLine: string)
    ensures AppendLines(lines + [a, b], newLine) == AppendLines(lines, newLine) + a + newLine + b + newLine
  {
    var l := lines + [a, b];
    assert l[..|l| - 1] == lines + [a];
    assert (lines + [a])[..|lines|] == lines;
  }

  /** The file an effect's variant compiles to: the effect's base name and the postfix,
      given the extension, in the output folder. */
  function OutputFile(env: Env, outputFolder: string, fx: string, variant: string): string {
    env.combine(outputFolder, env.changeExtension(env.baseName(fx) + Postfix(variant, env.leq), env.extension))
  }

  function Command(env: Env, outputType: OutputType, outputFolder: string, fx: string, variant: string): string {
    CommandLine(outputType, env.fullPath(fx), OutputFile(env, outputFolder, fx, variant), variant, env.leq)
  }

  /** One command per variant, in order. */
  function Commands(env: Env, outputType: OutputType, outputFolder: string, fx: string,
                    variants: seq<string>): (cmds: seq<string>)
    ensures |cmds| == |variants|
    ensures forall k :: 0 <= k < |variants| ==> cmds[k] == Command(env, outputType, outputFolder, fx, variants[k])
  {
    seq(|variants|, k requires 0 <= k < |variants| => Command(env, outputType, outputFolder, fx, variants[k]))
  }

  /** The text of one effect's script. */
  function ScriptText(env: Env, outputType: OutputType, outputFolder: string, fx: string,
                      variants: seq<string>): string {
    AppendLines(Lines(Commands(env, outputType, outputFolder, fx, variants)), env.newLine)
  }

  // ---------------------------------------------------------------- one effect file

  /** An effect file, its descriptor's path, and the descriptor's content: `None` when
      the descriptor does not exist, else the texts of its root's children. */
  datatype FilePair = FilePair(fx: string, xml: string, descriptor: Option<seq<string>>)

  datatype ProcessError =
    | SubstringOutOfRange              // `Substring(inputFolder.Length)` past the end
    | DescriptorFailed(e: BuildError)  // `FromXml` threw

  /** The effect's folder below the input folder: the first `|inputFolder|` characters
      of its directory cut off, then one leading separator. */
  function SubFolder(env: Env, inputFolder: string, fx: string): (r: Result<string, ProcessError>)
    ensures r.Failure? <==> |inputFolder| > |env.directoryName(fx)|
  {
    var dir := env.directoryName(fx);
    if |inputFolder| > |dir| then Failure(SubstringOutOfRange)
    else
      var sub := dir[|inputFolder|..];
      if |sub| > 0 && sub[0] == env.separator then Success(sub[1..]) else Success(sub)
  }

  /** An effect below the input folder, in `inputFolder` + separator + `rest`, has the
      sub-folder `rest`; one directly in the input folder has none. */
  lemma SubFolderOfNested(env: Env, inputFolder: string, fx: string, rest: string)
    requires env.directoryName(fx) == inputFolder + [env.separator] + rest
       || (env.directoryName(fx) == inputFolder && rest == "")
    ensures SubFolder(env, inputFolder, fx) == Success(rest)
  {
    var dir := env.directoryName(fx);
    if dir != inputFolder {
      assert dir[|inputFolder|..] == [env.separator] + rest;
    } else {
      assert dir[|inputFolder|..] == [];
    }
  }

  /** `<full input folder>/<output subfolder>/bin`, then the sub-folder when there is one. */
  function OutputFolder(env: Env, inputFolder: string, outputType: OutputType, subFolder: string): string {
    var root := env.combine(env.combine(env.fullPath(inputFolder), OutputSubfolder(outputType)), "bin");
    if subFolder == "" then root else env.combine(root, subFolder)
  }

  /** The variant strings of an effect: one empty variant without a descriptor, else one
      per dictionary the descriptor expands to. */
  function VariantList(pair: FilePair): (r: Result<seq<string>, ProcessError>)
    ensures pair.descriptor.None? ==> r == Success([""])
  {
    match pair.descriptor
    case None => Success([""])
    case Some(children) =>
      match Variants(ParseAll(children))
      case Failure(e) => Failure(DescriptorFailed(e))
      case Success(ds) => Success(seq(|ds|, k requires 0 <= k < |ds| => VariantString(ds[k])))
  }

  /** The name the script is filed under, before flattening: the descriptor's base name,
      or the effect's when there is no descriptor. */
  function BaseId(env: Env, pair: FilePair): string {
    if pair.descriptor.Some? then env.baseName(pair.xml) else env.baseName(pair.fx)
  }

  /** `id.Replace('\\', '_').Replace('/', '_')`. */
  function FlattenId(id: string): (r: string)
    ensures |r| == |id|
    ensures '\\' !in r && '/' !in r
    ensures forall i :: 0 <= i < |id| && id[i] != '\\' && id[i] != '/' ==> r[i] == id[i]
    ensures forall i :: 0 <= i < |id| && (id[i] == '\\' || id[i] == '/') ==> r[i] == '_'
  {
    var once := Replace(id, '\\', '_');
    var r := Replace(once, '/', '_');
    assert forall i :: 0 <= i < |r| ==> r[i] != '\\' by {
      forall i | 0 <= i < |r| ensures r[i] != '\\' {
        assert once[i] != '\\';
      }
    }
    r
  }

  /** The id and the script text of one effect for one output type. */
  function FileEntry(env: Env, inputFolder: string, pair: FilePair, outputType: OutputType): Result<Pair, ProcessError> {
    match SubFolder(env, inputFolder, pair.fx)
    case Failure(e) => Failure(e)
    case Success(sub) =>
      match VariantList(pair)
      case Failure(e) => Failure(e)
      case Success(variants) =>
        var outputFolder := OutputFolder(env, inputFolder, outputType, sub);
        Success(Pair(FlattenId(env.combine(sub, BaseId(env, pair))),
                     ScriptText(env, outputType, outputFolder, pair.fx, variants)))
  }

  lemma CommandsStep(env: Env, outputType: OutputType, outputFolder: string, fx: string,
                     variants: seq<string>, k: nat)
    requires k < |variants|
    ensures Commands(env, outputType, outputFolder, fx, variants[..k + 1])
      == Commands(env, outputType, outputFolder, fx, variants[..k]) + [Command(env, outputType, outputFolder, fx, variants[k])]
  {
    var longer, shorter := variants[..k + 1], variants[..k];
    var a := Commands(env, outputType, outputFolder, fx, longer);
    var b := Commands(env, outputType, outputFolder, fx, shorter);
    var c := Command(env, outputType, outputFolder, fx, variants[k]);
    assert longer == shorter + [variants[k]];
    forall j | 0 <= j < |a| ensures a[j] == (b + [c])[j] {
      if j < k {
        assert longer[j] == shorter[j];
      }
    }
  }

  /** The loop that writes one command and the guard per variant into `sb`. */
  method BuildScript(env: Env, outputType: OutputType, outputFolder: string, fx: string,
                     variants: seq<string>) returns (sb: string)
    ensures sb == ScriptText(env, outputType, outputFolder, fx, variants)
  {
    sb := "";
    for k := 0 to |variants|
      invariant sb == AppendLines(Lines(Commands(env, outputType, outputFolder, fx, variants[..k])), env.newLine)
    {
      var variant := variants[k];
      var postFix := BuildPostfix(variant, env.leq);
      var name := env.baseName(fx);
      var outputFile := name + postFix;
      outputFile := env.combine(outputFolder, env.changeExtension(outputFile, env.extension));
      var fxFullPath := env.fullPath(fx);
      var commandLine := BuildCommandLine(outputType, fxFullPath, outputFile, variant, env.leq);
      assert commandLine == Command(env, outputType, outputFolder, fx, variant);
      ghost var cmds := Commands(env, outputType, outputFolder, fx, variants[..k]);
      CommandsStep(env, outputType, outputFolder, fx, variants, k);
      LinesStep(cmds + [commandLine], |cmds|);
      assert (cmds + [commandLine])[..|cmds|] == cmds;
      AppendTwoLines(Lines(cmds), commandLine, Guard(), env.newLine);
      sb := sb + commandLine + env.newLine;
      sb := sb + Guard() + env.newLine;
    }
    assert variants[..|variants|] == variants;
  }

  /** The loop that turns the descriptor's dictionaries into variant strings. */
  method BuildVariants(ds: seq<Dict>) returns (variants: seq<string>)
    ensures variants == seq(|ds|, k requires 0 <= k < |ds| => VariantString(ds[k]))
  {
    variants := [];
    for k := 0 to |ds|
      invariant |variants| == k
      invariant forall j :: 0 <= j < k ==> variants[j] == VariantString(ds[j])
    {
      variants := variants + [Join(Map(Token, ds[k]), ";")];
    }
  }

  /** The body of the loop over the files: the effect's id and script. */
  method BuildFileEntry(env: Env, inputFolder: string, pair: FilePair, outputType: OutputType)
    returns (r: Result<Pair, ProcessError>)
    ensures r == FileEntry(env, inputFolder, pair, outputType)
  {
    var outputFolder := env.fullPath(inputFolder);
    outputFolder := env.combine(outputFolder, OutputSubfolder(outputType));
    outputFolder := env.combine(outputFolder, "bin");
    var dir := env.directoryName(pair.fx);
    if |inputFolder| > |dir| {
      return Failure(SubstringOutOfRange);
    }
    var subFolder := dir[|inputFolder|..];
    if |subFolder| > 0 && subFolder[0] == env.separator {
      subFolder := subFolder[1..];
    }
    if subFolder != "" {
      outputFolder := env.combine(outputFolder, subFolder);
    }
    assert SubFolder(env, inputFolder, pair.fx) == Success(subFolder);
    assert outputFolder == OutputFolder(env, inputFolder, outputType, subFolder);
    var variants: seq<string>;
    var id: string;
    if pair.descriptor.Some? {
      var variantsList := FromXml(pair.descriptor.value);
      if variantsList.Failure? {
        return Failure(DescriptorFailed(variantsList.error));
      }
      variants := BuildVariants(variantsList.value);
      id := env.baseName(pair.xml);
    } else {
      variants := [""];
      id := env.baseName(pair.fx);
    }
    assert VariantList(pair) == Success(variants);
    assert id == BaseId(env, pair);
    var sb := BuildScript(env, outputType, outputFolder, pair.fx, variants);
    id := env.combine(subFolder, id);
    id := FlattenId(id);
    r := Success(Pair(id, sb));
  }

  /** Without a descriptor an effect has one script of two lines, one command without
      defines and the guard, compiling to the effect's own base name, filed under the
      effect's base name. */
  lemma FileWithoutDescriptor(env: Env, inputFolder: string, pair: FilePair, outputType: OutputType, sub: string)
    requires pair.descriptor.None?
    requires SubFolder(env, inputFolder, pair.fx) == Success(sub)
    ensures var folder := OutputFolder(env, inputFolder, outputType, sub);
      var out := env.combine(folder, env.changeExtension(env.baseName(pair.fx), env.extension));
      var c := Command(env, outputType, folder, pair.fx, "");
      && OutputFile(env, folder, pair.fx, "") == out
      && (outputType != FNA ==> c == ModernHead(env.fullPath(pair.fx), out) + " /Profile:" + Profile(outputType))
      && (outputType == FNA ==> c == LegacyHead(env.fullPath(pair.fx), out) + " /T:fx_2_0")
      && FileEntry(env, inputFolder, pair, outputType)
         == Success(Pair(FlattenId(env.combine(sub, env.baseName(pair.fx))), c + env.newLine + Guard() + env.newLine))
  {
    var folder := OutputFolder(env, inputFolder, outputType, sub);
    assert env.baseName(pair.fx) + "" == env.baseName(pair.fx);
    SingleScript(env, outputType, folder, pair.fx, "");
  }

  /** The script of a single variant: its command and the guard, each ended by a line terminator. */
  lemma SingleScript(env: Env, outputType: OutputType, folder: string, fx: string, variant: string)
    ensures var c := Command(env, outputType, folder, fx, variant);
      ScriptText(env, outputType, folder, fx, [variant]) == c + env.newLine + Guard() + env.newLine
  {
    var cmds := Commands(env, outputType, folder, fx, [variant]);
    OneCommand(cmds, env.newLine);
  }

  lemma OneCommand(cmds: seq<string>, newLine: string)
    requires |cmds| == 1
    ensures AppendLines(Lines(cmds), newLine) == cmds[0] + newLine + Guard() + newLine
  {
    var c := cmds[0];
    assert Lines(cmds) == [c, Guard()] by {
      assert cmds[..0] == [];
    }
    assert AppendLines([c, Guard()], newLine) == AppendLines([c], newLine) + Guard() + newLine by {
      assert [c, Guard()][..1] == [c];
    }
    assert AppendLines([c], newLine) == "" + c + newLine by {
      assert [c][..0] == [];
    }
  }

  /** With a descriptor of at least one child an effect has one variant per dictionary the
      descriptor expands to, as many as the product of the level sizes, and each non-empty
      one written so that parsing it as a level gives the dictionary back; a descriptor
      without children fails. */
  lemma FileWithDescriptor(pair: FilePair, children: seq<string>)
    requires pair.descriptor == Some(children)
    ensures |children| == 0 ==> VariantList(pair) == Failure(DescriptorFailed(ArgumentOutOfRange))
    ensures |children| > 0 ==>
      var ds := Variants(ParseAll(children)).value;
      var r := VariantList(pair);
      && r.Success?
      && |r.value| == |ds| == Product(ParseAll(children), 0)
      && forall k :: 0 <= k < |ds| && |ds[k]| > 0 ==> ParseLevel(r.value[k]) == ds[k]
  {
    if |children| > 0 {
      var ds := Variants(ParseAll(children)).value;
      VariantsWellFormed(children);
      forall k | 0 <= k < |ds| && |ds[k]| > 0 ensures ParseLevel(VariantString(ds[k])) == ds[k] {
        assert forall j :: 0 <= j < |ds[k]| ==> ds[k][j] in ds[k];
        VariantStringRoundTrip(ds[k]);
      }
    }
  }

  // ---------------------------------------------------------------- one output type

  /** `result[id] = sb` for each file in turn; the first file that fails stops the run. */
  function Entries(env: Env, inputFolder: string, files: seq<FilePair>, outputType: OutputType): Result<Dict, ProcessError> {
    if |files| == 0 then Success([])
    else
      match Entries(env, inputFolder, files[..|files| - 1], outputType)
      case Failure(e) => Failure(e)
      case Success(d) =>
        match FileEntry(env, inputFolder, files[|files| - 1], outputType)
        case Failure(e) => Failure(e)
        case Success(entry) => Success(Put(d, entry.key, entry.value))
  }

  /** The scripts of one output type: each file's, then `"all"`, the values so far joined
      by line terminators. */
  function Scripts(env: Env, inputFolder: string, files: seq<FilePair>, outputType: OutputType): Result<Dict, ProcessError> {
    match Entries(env, inputFolder, files, outputType)
    case Failure(e) => Failure(e)
    case Success(d) => Success(Put(d, "all", Join(Values(d), env.newLine)))
  }

  datatype WrittenFile = WrittenFile(path: string, text: string)

  /** `compile_<id>.bat` in the output type's folder, for each script in dictionary order. */
  function ScriptFiles(env: Env, inputFolder: string, outputType: OutputType, scripts: Dict): (r: seq<WrittenFile>)
    ensures |r| == |scripts|
    ensures forall k :: 0 <= k < |scripts| ==>
      r[k] == WrittenFile(env.combine(env.combine(inputFolder, OutputSubfolder(outputType)),
                                      "compile_" + scripts[k].key + ".bat"), scripts[k].value)
  {
    var folder := env.combine(inputFolder, OutputSubfolder(outputType));
    seq(|scripts|, k requires 0 <= k < |scripts| => WrittenFile(env.combine(folder, "compile_" + scripts[k].key + ".bat"), scripts[k].value))
  }

  /** `Process(inputFolder, files, outputType)`: the files it writes. */
  function ProcessOutput(env: Env, inputFolder: string, files: seq<FilePair>, outputType: OutputType): Result<seq<WrittenFile>, ProcessError> {
    match Scripts(env, inputFolder, files, outputType)
    case Failure(e) => Failure(e)
    case Success(scripts) => Success(ScriptFiles(env, inputFolder, outputType, scripts))
  }

  lemma EntriesStep(env: Env, inputFolder: string, files: seq<FilePair>, outputType: OutputType,
                    k: nat, d: Dict, entry: Result<Pair, ProcessError>)
    requires k < |files|
    requires Entries(env, inputFolder, files[..k], outputType) == Success(d)
    requires entry == FileEntry(env, inputFolder, files[k], outputType)
    ensures entry.Failure? ==> Entries(env, inputFolder, files[..k + 1], outputType) == Failure(entry.error)
    ensures entry.Success? ==>
      Entries(env, inputFolder, files[..k + 1], outputType) == Success(Put(d, entry.value.key, entry.value.value))
  {
    assert files[..k + 1][..k] == files[..k];
  }

  /** The loop over the files that fills `result`. */
  method BuildEntries(env: Env, inputFolder: string, files: seq<FilePair>, outputType: OutputType)
    returns (r: Result<Dict, ProcessError>)
    ensures r == Entries(env, inputFolder, files, outputType)
  {
    var result: Dict := [];
    for k := 0 to |files|
      invariant Entries(env, inputFolder, files[..k], outputType) == Success(result)
    {
      var entry := BuildFileEntry(env, inputFolder, files[k], outputType);
      EntriesStep(env, inputFolder, files, outputType, k, result, entry);
      if entry.Failure? {
        EntriesFailureStays(env, inputFolder, files, outputType, k + 1);
        return Failure(entry.error);
      }
      result := Put(result, entry.value.key, entry.value.value);
    }
    assert files[..|files|] == files;
    r := Success(result);
  }

  /** The loop that writes every script. */
  method WriteScripts(env: Env, inputFolder: string, outputType: OutputType, scripts: Dict)
    returns (written: seq<WrittenFile>)
    ensures written == ScriptFiles(env, inputFolder, outputType, scripts)
  {
    var folder := env.combine(inputFolder, OutputSubfolder(outputType));
    written := [];
    for k := 0 to |scripts|
      invariant |written| == k
      invariant forall j :: 0 <= j < k ==>
        written[j] == WrittenFile(env.combine(folder, "compile_" + scripts[j].key + ".bat"), scripts[j].value)
    {
      written := written + [WrittenFile(env.combine(folder, "compile_" + scripts[k].key + ".bat"), scripts[k].value)];
    }
  }

  method Process(env: Env, inputFolder: string, files: seq<FilePair>, outputType: OutputType)
    returns (r: Result<seq<WrittenFile>, ProcessError>)
    ensures r == ProcessOutput(env, inputFolder, files, outputType)
  {
    var entries := BuildEntries(env, inputFolder, files, outputType);
    if entries.Failure? {
      return Failure(entries.error);
    }
    var result := entries.value;
    result := Put(result, "all", Join(Values(result), env.newLine));
    var written := WriteScripts(env, inputFolder, outputType, result);
    r := Success(written);
  }

  /** Once a file fails, every longer run fails with the same error. */
  lemma {:induction false} EntriesFailureStays(env: Env, inputFolder: string, files: seq<FilePair>, outputType: OutputType, n: nat)
    requires n <= |files|
    requires Entries(env, inputFolder, files[..n], outputType).Failure?
    ensures Entries(env, inputFolder, files, outputType) == Entries(env, inputFolder, files[..n], outputType)
    decreases |files| - n
  {
    if n < |files| {
      var longer := files[..|files| - 1];
      assert longer[..n] == files[..n];
      EntriesFailureStays(env, inputFolder, longer, outputType, n);
      assert files[..|files|] == files;
    } else {
      assert files[..n] == files;
    }
  }

  /** The id and script of each file, in order, when none fails. */
  function EntryPath(env: Env, inputFolder: string, files: seq<FilePair>, outputType: OutputType): (path: seq<Pair>)
    requires forall k :: 0 <= k < |files| ==> FileEntry(env, inputFolder, files[k], outputType).Success?
    ensures |path| == |files|
    ensures forall k :: 0 <= k < |files| ==> path[k] == FileEntry(env, inputFolder, files[k], outputType).value
  {
    seq(|files|, k requires 0 <= k < |files| => FileEntry(env, inputFolder, files[k], outputType).value)
  }

  /** When no file fails, the scripts are the snapshot of the files' entries: a later file
      with an id already present replaces the earlier script in its place. */
  lemma {:induction false} EntriesSnapshot(env: Env, inputFolder: string, files: seq<FilePair>, outputType: OutputType)
    requires forall k :: 0 <= k < |files| ==> FileEntry(env, inputFolder, files[k], outputType).Success?
    ensures Entries(env, inputFolder, files, outputType) == Success(Snapshot(EntryPath(env, inputFolder, files, outputType)))
    decreases |files|
  {
    if |files| > 0 {
      var init := files[..|files| - 1];
      EntriesSnapshot(env, inputFolder, init, outputType);
      var path := EntryPath(env, inputFolder, files, outputType);
      assert path[..|files| - 1] == EntryPath(env, inputFolder, init, outputType);
    }
  }

  /** The scripts of a run in which no file fails: one per distinct id, in the order the
      ids first occur, each the script of the last file with that id, and `"all"` holding
      the scripts joined by line terminators. */
  lemma ScriptsOfFiles(env: Env, inputFolder: string, files: seq<FilePair>, outputType: OutputType)
    requires forall k :: 0 <= k < |files| ==> FileEntry(env, inputFolder, files[k], outputType).Success?
    ensures var path := EntryPath(env, inputFolder, files, outputType);
      var entries := Snapshot(path);
      var r := Scripts(env, inputFolder, files, outputType);
      && r.Success?
      && Keys(entries) == Dedup(Keys(path))
      && Get(r.value, "all") == Some(Join(Values(entries), env.newLine))
      && (forall id :: id != "all" ==> Get(r.value, id) == LastValue(path, id))
      && ("all" !in Keys(path) ==> Keys(r.value) == Keys(entries) + ["all"])
  {
    var path := EntryPath(env, inputFolder, files, outputType);
    var entries := Snapshot(path);
    EntriesSnapshot(env, inputFolder, files, outputType);
    SnapshotKeys(path);
    PutMeaning(entries, "all", Join(Values(entries), env.newLine));
    forall id | id != "all" ensures Get(entries, id) == LastValue(path, id) {
      SnapshotValues(path, id);
    }
    if "all" !in Keys(path) {
      assert "all" !in Keys(entries);
    }
  }

  /** Whether a file fails, and with which error, does not depend on the output type. */
  lemma FileEntryErrors(env: Env, inputFolder: string, pair: FilePair, t1: OutputType, t2: OutputType)
    ensures FileEntry(env, inputFolder, pair, t1).Failure? <==> FileEntry(env, inputFolder, pair, t2).Failure?
    ensures FileEntry(env, inputFolder, pair, t1).Failure? ==>
      FileEntry(env, inputFolder, pair, t1).error == FileEntry(env, inputFolder, pair, t2).error
    ensures FileEntry(env, inputFolder, pair, t1).Success? ==>
      FileEntry(env, inputFolder, pair, t1).value.key == FileEntry(env, inputFolder, pair, t2).value.key
  {
  }

  lemma {:induction false} EntriesErrors(env: Env, inputFolder: string, files: seq<FilePair>, t1: OutputType, t2: OutputType)
    ensures Entries(env, inputFolder, files, t1).Failure? <==> Entries(env, inputFolder, files, t2).Failure?
    ensures Entries(env, inputFolder, files, t1).Failure? ==>
      Entries(env, inputFolder, files, t1).error == Entries(env, inputFolder, files, t2).error
    decreases |files|
  {
    if |files| > 0 {
      EntriesErrors(env, inputFolder, files[..|files| - 1], t1, t2);
      FileEntryErrors(env, inputFolder, files[|files| - 1], t1, t2);
    }
  }

  // ---------------------------------------------------------------- the three output types

  /** What a run leaves behind: the files written for each output type that completed,
      and the error that stopped it, if any. */
  datatype Outcome = Outcome(written: seq<seq<WrittenFile>>, error: Option<ProcessError>)

  /** No `.fx` file: nothing. Otherwise `Process` for MonoGame DirectX 11, MonoGame
      OpenGL and FNA in turn, stopping at the first that throws. */
  function Generate(env: Env, inputFolder: string, files: seq<FilePair>, fxCount: nat): Outcome {
    if fxCount == 0 then Outcome([], None)
    else
      match ProcessOutput(env, inputFolder, files, MGDX11)
      case Failure(e) => Outcome([], Some(e))
      case Success(w1) =>
        match ProcessOutput(env, inputFolder, files, MGOGL)
        case Failure(e) => Outcome([w1], Some(e))
        case Success(w2) =>
          match ProcessOutput(env, inputFolder, files, FNA)
          case Failure(e) => Outcome([w1, w2], Some(e))
          case Success(w3) => Outcome([w1, w2, w3], None)
  }

  method GenerateAll(env: Env, inputFolder: string, files: seq<FilePair>, fxCount: nat) returns (r: Outcome)
    ensures r == Generate(env, inputFolder, files, fxCount)
  {
    if fxCount == 0 {
      return Outcome([], None);
    }
    var w1 := Process(env, inputFolder, files, MGDX11);
    if w1.Failure? {
      return Outcome([], Some(w1.error));
    }
    var w2 := Process(env, inputFolder, files, MGOGL);
    if w2.Failure? {
      return Outcome([w1.value], Some(w2.error));
    }
    var w3 := Process(env, inputFolder, files, FNA);
    if w3.Failure? {
      return Outcome([w1.value, w2.value], Some(w3.error));
    }
    r := Outcome([w1.value, w2.value, w3.value], None);
  }

  /** A run either writes nothing and reports the error of the first file that fails, or
      writes the scripts of all three output types. */
  lemma GenerateAllOrNothing(env: Env, inputFolder: string, files: seq<FilePair>, fxCount: nat)
    requires fxCount > 0
    ensures var r := Generate(env, inputFolder, files, fxCount);
      && (r.error.Some? <==> Entries(env, inputFolder, files, MGDX11).Failure?)
      && (r.error.Some? ==> r.written == [] && r.error.value == Entries(env, inputFolder, files, MGDX11).error)
      && (r.error.None? ==> |r.written| == 3)
  {
    EntriesErrors(env, inputFolder, files, MGDX11, MGOGL);
    EntriesErrors(env, inputFolder, files, MGDX11, FNA);
  }

  // ---------------------------------------------------------------- arguments

  datatype ArgError = MissingValue(name: string) | InputFolderNotSet

  /** The message of the exception thrown for each error. */
  function Message(e: ArgError): string {
    match e
    case MissingValue(name) => "Value isn't provided for '" + name + "'"
    case InputFolderNotSet => "Input folder isn't set"
  }

  /** The input folder and the extension given by `-e`, `None` while it has its default. */
  datatype ArgState = ArgState(inputFolder: string, extension: Option<string>)

  datatype Invocation = Usage | Run(inputFolder: string, extension: Option<string>)

  /** The loop over the arguments, from the current one on. */
  function Scan(args: seq<string>, st: ArgState): Result<ArgState, ArgError>
    decreases |args|
  {
    if |args| == 0 then Success(st)
    else if StartsWith(args[0], "-") then
      if args[0] == "-e" then
        if |args| < 2 then Failure(MissingValue("e"))
        else Scan(args[2..], st.(extension := Some(args[1])))
      else Scan(args[1..], st)
    else Scan(args[1..], st.(inputFolder := args[0]))
  }

  /** `Process(args)` up to the search for effects. */
  function ParseArgs(args: seq<string>): Result<Invocation, ArgError> {
    if |args| < 1 then Success(Usage)
    else
      match Scan(args, ArgState("", None))
      case Failure(e) => Failure(e)
      case Success(st) =>
        if st.inputFolder == "" then Failure(InputFolderNotSet) else Success(Run(st.inputFolder, st.extension))
  }

  /** `ParseString(name, args, ref i)`: the argument after the `i`-th, and its index. */
  method ParseString(name: string, args: seq<string>, i: nat) returns (value: Result<string, ArgError>, next: nat)
    ensures next == i + 1
    ensures value.Failure? <==> next >= |args|
    ensures value.Failure? ==> value.error == MissingValue(name)
    ensures value.Success? ==> value.value == args[next]
  {
    next := i + 1;
    if next >= |args| {
      return Failure(MissingValue(name)), next;
    }
    value := Success(args[next]);
  }

  method ProcessArgs(args: seq<string>) returns (r: Result<Invocation, ArgError>)
    ensures r == ParseArgs(args)
  {
    if |args| < 1 {
      return Success(Usage);
    }
    var inputFolder := "";
    var extension: Option<string> := None;
    var i := 0;
    while i < |args|
      invariant 0 <= i <= |args|
      invariant Scan(args, ArgState("", None)) == Scan(args[i..], ArgState(inputFolder, extension))
      decreases |args| - i
    {
      var rest := args[i..];
      assert rest[1..] == args[i + 1..];
      var arg := args[i];
      if StartsWith(arg, "-") {
        if arg == "-e" {
          var value;
          value, i := ParseString("e", args, i);
          if value.Failure? {
            return Failure(value.error);
          }
          assert rest[2..] == args[i + 1..];
          extension := Some(value.value);
        }
      } else {
        inputFolder := arg;
      }
      i := i + 1;
    }
    assert args[i..] == [];
    if inputFolder == "" {
      return Failure(InputFolderNotSet);
    }
    r := Success(Run(inputFolder, extension));
  }

  /** Scanning runs on from where a complete prefix of the arguments left off. */
  lemma {:induction false} ScanAppend(pre: seq<string>, rest: seq<string>, st: ArgState)
    requires Scan(pre, st).Success?
    ensures Scan(pre + rest, st) == Scan(rest, Scan(pre, st).value)
    decreases |pre|
  {
    if |pre| > 0 {
      var all := pre + rest;
      assert all[0] == pre[0];
      assert all[1..] == pre[1..] + rest;
      if StartsWith(pre[0], "-") && pre[0] == "-e" {
        assert all[2..] == pre[2..] + rest;
        ScanAppend(pre[2..], rest, st.(extension := Some(pre[1])));
      } else if StartsWith(pre[0], "-") {
        ScanAppend(pre[1..], rest, st);
      } else {
        ScanAppend(pre[1..], rest, st.(inputFolder := pre[0]));
      }
    } else {
      assert pre + rest == rest;
    }
  }

  /** `-e` takes the next argument as the extension, whatever it is, and the scan goes on
      after it. */
  lemma ExtensionConsumesNext(pre: seq<string>, x: string, post: seq<string>, st: ArgState)
    requires Scan(pre, st).Success?
    ensures Scan(pre + ["-e", x] + post, st) == Scan(post, Scan(pre, st).value.(extension := Some(x)))
  {
    assert pre + ["-e", x] + post == pre + (["-e", x] + post);
    ScanAppend(pre, ["-e", x] + post, st);
    assert (["-e", x] + post)[2..] == post;
  }

  /** `-e` as the last argument throws. */
  lemma ExtensionMissing(pre: seq<string>, st: ArgState)
    requires Scan(pre, st).Success?
    ensures Scan(pre + ["-e"], st) == Failure(MissingValue("e"))
  {
    ScanAppend(pre, ["-e"], st);
  }

  /** Any other argument that starts with `-` is skipped. */
  lemma OtherFlagIgnored(pre: seq<string>, flag: string, post: seq<string>, st: ArgState)
    requires StartsWith(flag, "-") && flag != "-e"
    requires Scan(pre, st).Success?
    ensures Scan(pre + [flag] + post, st) == Scan(pre + post, st)
  {
    assert pre + [flag] + post == pre + ([flag] + post);
    ScanAppend(pre, [flag] + post, st);
    ScanAppend(pre, post, st);
    assert ([flag] + post)[1..] == post;
  }

  /** Without flags, the last argument is the input folder. */
  lemma {:induction false} LastPlainArgument(args: seq<string>, st: ArgState)
    requires |args| > 0
    requires forall k :: 0 <= k < |args| ==> !StartsWith(args[k], "-")
    ensures Scan(args, st) == Success(st.(inputFolder := args[|args| - 1]))
    decreases |args|
  {
    if |args| > 1 {
      LastPlainArgument(args[1..], st.(inputFolder := args[0]));
    }
  }

  /** With flags mixed in, the last argument that is neither a flag nor the value of
      `-e` is the input folder. */
  lemma LastPlainAmongFlags(pre: seq<string>, x: string, post: seq<string>, st: ArgState)
    requires Scan(pre, st).Success?
    requires !StartsWith(x, "-")
    requires forall k :: 0 <= k < |post| ==> StartsWith(post[k], "-") && post[k] != "-e"
    ensures Scan(pre + [x] + post, st).Success?
    ensures Scan(pre + [x] + post, st).value.inputFolder == x
  {
    var mid := Scan(pre, st).value;
    ScanAppend(pre, [x] + post, st);
    assert pre + [x] + post == pre + ([x] + post);
    assert ([x] + post)[1..] == post;
    OnlyFlagsScan(post, mid.(inputFolder := x));
  }

  /** Arguments that are all flags other than `-e` give no input folder. */
  lemma OnlyFlags(args: seq<string>)
    requires |args| > 0
    requires forall k :: 0 <= k < |args| ==> StartsWith(args[k], "-") && args[k] != "-e"
    ensures ParseArgs(args) == Failure(InputFolderNotSet)
  {
    OnlyFlagsScan(args, ArgState("", None));
  }

  lemma {:induction false} OnlyFlagsScan(args: seq<string>, st: ArgState)
    requires forall k :: 0 <= k < |args| ==> StartsWith(args[k], "-") && args[k] != "-e"
    ensures Scan(args, st) == Success(st)
    decreases |args|
  {
    if |args| > 0 {
      OnlyFlagsScan(args[1..], st);
    }
  }

  /** The texts of the two exceptions the argument loop can end in. */
  lemma ArgErrorMessages()
    ensures ParseArgs(["-e"]).Failure?
    ensures Message(ParseArgs(["-e"]).error) == "Value isn't provided for 'e'"
    ensures ParseArgs(["-v"]).Failure?
    ensures Message(ParseArgs(["-v"]).error) == "Input folder isn't set"
  {
    ExtensionMissing([], ArgState("", None));
    OnlyFlags(["-v"]);
  }
}
