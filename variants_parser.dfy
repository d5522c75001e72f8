/**
 * `VariantsParser`: splits the text of each child of the descriptor's root into a
 * level of `(name, value)` options, then enumerates the combinations of the levels
 * depth first with the `DefinesBuilder`, one dictionary per leaf.
 *
 * The builder is modelled as written. Its path is popped only at leaves, and the
 * pop removes the last element whether or not the current option pushed one, so
 * backtracking is exact only for levels whose placeholder `_` is their last option
 * (`CleanLevel`). `ExpandLevel`/`ExpandOptions` are the pure form of the builder's
 * recursion; `Choices` is the cartesian product the descriptors are written for.
 */
module VariantsParser {
  import opened Wrappers
  import opened Strings
  import opened Dictionaries

  /** A level: the options of one child element, in document order. */
  type Level = seq<Pair>

  /** The option name that contributes no define. */
  const Placeholder: string := "_"

  /** The exceptions `Build` can raise. */
  datatype BuildError =
    | ArgumentNull        // `definesByLevel` is null
    | ArgumentOutOfRange  // `_definesByLevel[0]` on an empty list of levels

  /** An option as parsing leaves it: both halves trimmed and free of `=` and `;`. */
  predicate WellFormed(o: Pair) {
    && IsTrimmed(o.key) && IsTrimmed(o.value)
    && '=' !in o.key && '=' !in o.value
    && ';' !in o.key && ';' !in o.value
  }

  // ---------------------------------------------------------------- parsing

  /** One `;`-separated part of a level: `part.Trim().Split("=")`, the key is the
      first field trimmed, the value the second field trimmed, or `"1"`. */
  function ParseOption(part: string): Pair {
    var fields := Split(Trim(part), '=');
    Pair(Trim(fields[0]), if |fields| > 1 then Trim(fields[1]) else "1")
  }

  /** Splitting a part and splitting its trimmed text give the same fields, up to
      the white space at the two ends. */
  lemma SplitAroundTrim(part: string, c: char) returns (w1: string, w2: string)
    requires !IsWhiteSpace(c)
    ensures AllWhiteSpace(w1) && AllWhiteSpace(w2)
    ensures var p, f := Split(Trim(part), c), Split(part, c);
      && |f| == |p|
      && (|p| == 1 ==> f[0] == w1 + p[0] + w2)
      && (|p| > 1 ==> f[0] == w1 + p[0])
      && (|p| == 2 ==> f[1] == p[1] + w2)
      && (|p| > 2 ==> f[1] == p[1])
  {
    var i, j := TrimBounds(part);
    var t := part[i..j];
    w1, w2 := part[..i], part[j..];
    assert c !in w1 && c !in w2;
    var p := Split(t, c);
    var q := Split(t + w2, c);
    assert q == p[..|p| - 1] + [p[|p| - 1] + w2] by {
      SplitSuffix(t, w2, c);
    }
    assert Split(part, c) == [w1 + q[0]] + q[1..] by {
      SliceThree(part, i, j);
      SplitPrefix(w1, t + w2, c);
    }
    FieldsAround(p, q, w1, w2);
  }

  lemma SliceThree(s: string, i: nat, j: nat)
    requires i <= j <= |s|
    ensures s == s[..i] + (s[i..j] + s[j..])
  {
    assert s[..i] + s[i..] == s;
    assert s[i..j] + s[j..] == s[i..];
  }

  lemma FieldsAround(p: seq<string>, q: seq<string>, w1: string, w2: string)
    requires |p| >= 1
    requires q == p[..|p| - 1] + [p[|p| - 1] + w2]
    ensures var f := [w1 + q[0]] + q[1..];
      && |f| == |p|
      && (|p| == 1 ==> f[0] == w1 + p[0] + w2)
      && (|p| > 1 ==> f[0] == w1 + p[0])
      && (|p| == 2 ==> f[1] == p[1] + w2)
      && (|p| > 2 ==> f[1] == p[1])
  {
    if |p| == 1 {
      assert q[0] == p[0] + w2;
      assert w1 + (p[0] + w2) == w1 + p[0] + w2;
    }
  }

  lemma CountZero(s: string, c: char)
    ensures Count(s, c) == 0 <==> c !in s
  {
    if c in s {
      var k :| 0 <= k < |s| && s[k] == c;
      CountPositive(s, c, k);
    } else {
      CountAbsent(s, c);
    }
  }

  lemma {:induction false} CountAbsent(s: string, c: char)
    requires c !in s
    ensures Count(s, c) == 0
    decreases |s|
  {
    if |s| > 0 {
      CountAbsent(s[1..], c);
    }
  }

  /** The key is the trimmed text before the first `=`; the value is the trimmed text
      between the first and the second `=` (anything after that is dropped), or `"1"`
      when there is no `=`. */
  lemma ParseOptionMeaning(part: string)
    ensures '=' !in part ==> ParseOption(part) == Pair(Trim(part), "1")
    ensures '=' in part ==>
      ParseOption(part) == Pair(Trim(Split(part, '=')[0]), Trim(Split(part, '=')[1]))
  {
    var w1, w2 := SplitAroundTrim(part, '=');
    var p, f := Split(Trim(part), '='), Split(part, '=');
    CountZero(part, '=');
    if |p| == 1 {
      assert '=' !in part;
      assert Trim(part) == p[0];
      TrimIsTrimmed(part);
      TrimOfTrimmed(p[0]);
    } else {
      assert '=' in part;
      TrimLeading(w1, p[0]);
      if |p| == 2 {
        TrimTrailing(p[1], w2);
      }
    }
  }

  lemma {:induction false} CountPositive(s: string, c: char, k: nat)
    requires k < |s| && s[k] == c
    ensures Count(s, c) > 0
    decreases k
  {
    if k > 0 {
      CountPositive(s[1..], c, k - 1);
    }
  }

  lemma {:induction false} JoinContains(parts: seq<string>, sep: string, i: nat, x: char)
    requires i < |parts| && x in parts[i]
    ensures x in Join(parts, sep)
    decreases |parts|
  {
    if i > 0 {
      JoinContains(parts[1..], sep, i - 1, x);
    }
  }

  lemma TrimKeeps(s: string, x: char)
    requires x !in s
    ensures x !in Trim(s)
  {
    var i, j := TrimBounds(s);
  }

  /** A parsed option is well formed whenever its part holds no `;`, which every
      part of a level does. */
  lemma ParseOptionWellFormed(part: string)
    requires ';' !in part
    ensures WellFormed(ParseOption(part))
  {
    var fields := Split(Trim(part), '=');
    TrimKeeps(part, ';');
    forall k | 0 <= k < |fields| ensures ';' !in fields[k] {
      if ';' in fields[k] {
        JoinContains(fields, "=", k, ';');
      }
    }
    TrimKeeps(fields[0], '=');
    TrimKeeps(fields[0], ';');
    TrimIsTrimmed(fields[0]);
    if |fields| > 1 {
      TrimIsTrimmed(fields[1]);
      TrimKeeps(fields[1], '=');
      TrimKeeps(fields[1], ';');
    }
  }

  /** One child element: `text.Split(";")`, each part parsed as an option. */
  function ParseLevel(text: string): (level: Level)
    ensures |level| == Count(text, ';') + 1
  {
    var parts := Split(text, ';');
    seq(|parts|, k requires 0 <= k < |parts| => ParseOption(parts[k]))
  }

  /** Every option of a parsed level is well formed. */
  lemma ParseLevelWellFormed(text: string)
    ensures forall k :: 0 <= k < |ParseLevel(text)| ==> WellFormed(ParseLevel(text)[k])
  {
    var parts := Split(text, ';');
    forall k | 0 <= k < |parts| ensures WellFormed(ParseLevel(text)[k]) {
      ParseOptionWellFormed(parts[k]);
    }
  }

  /** The levels of a descriptor whose root has the children `children`. */
  function ParseAll(children: seq<string>): (levels: seq<Level>)
    ensures |levels| == |children|
    ensures forall k :: 0 <= k < |children| ==> levels[k] == ParseLevel(children[k])
  {
    seq(|children|, k requires 0 <= k < |children| => ParseLevel(children[k]))
  }

  /** A child written as names without values, `A;B;_`, gives one option per name,
      each with the value `"1"`. */
  lemma ParseLevelOfNames(names: seq<string>)
    requires |names| >= 1
    requires forall k :: 0 <= k < |names| ==>
      IsTrimmed(names[k]) && '=' !in names[k] && ';' !in names[k]
    ensures ParseLevel(Join(names, ";")) == seq(|names|, k requires 0 <= k < |names| => Pair(names[k], "1"))
  {
    SplitJoin(names, ';');
    forall k | 0 <= k < |names| ensures ParseOption(names[k]) == Pair(names[k], "1") {
      ParseOptionMeaning(names[k]);
      TrimOfTrimmed(names[k]);
    }
  }

  /** The body of the inner loop of `FromXml`: one option. */
  method ParsePart(part: string) returns (option: Pair)
    ensures option == ParseOption(part)
  {
    var parts2 := Split(Trim(part), '=');
    var key := Trim(parts2[0]);
    var value := "1";
    if |parts2| > 1 {
      value := Trim(parts2[1]);
    }
    option := Pair(key, value);
  }

  /** The body of the outer loop of `FromXml`: split one child's text and parse its parts. */
  method ParseChild(text: string) returns (levelDefine: Level)
    ensures levelDefine == ParseLevel(text)
  {
    var parts := Split(text, ';');
    levelDefine := ParseParts(parts);
  }

  /** The inner loop of `FromXml`: one option per part, in order. */
  method ParseParts(parts: seq<string>) returns (levelDefine: Level)
    ensures |levelDefine| == |parts|
    ensures forall n :: 0 <= n < |parts| ==> levelDefine[n] == ParseOption(parts[n])
  {
    levelDefine := [];
    for k := 0 to |parts|
      invariant |levelDefine| == k
      invariant forall n :: 0 <= n < k ==> levelDefine[n] == ParseOption(parts[n])
    {
      var option := ParsePart(parts[k]);
      levelDefine := levelDefine + [option];
    }
  }

  /** The outer loop of `FromXml`: one level per child, in document order. */
  method ParseLevels(children: seq<string>) returns (definesByLevel: seq<Level>)
    ensures definesByLevel == ParseAll(children)
  {
    definesByLevel := [];
    for c := 0 to |children|
      invariant |definesByLevel| == c
      invariant forall n :: 0 <= n < c ==> definesByLevel[n] == ParseLevel(children[n])
    {
      var levelDefine := ParseChild(children[c]);
      definesByLevel := definesByLevel + [levelDefine];
    }
  }

  // ---------------------------------------------------------------- expansion

  /** The builder's state that the recursion threads: the path and the results. */
  datatype State = State(path: seq<Pair>, results: seq<Dict>)

  /** `_currentDefine.RemoveAt(Count - 1)` when the path is not empty. */
  function Pop(path: seq<Pair>): seq<Pair> {
    if |path| > 0 then path[..|path| - 1] else path
  }

  /** `BuildInternal` at level `lv`: all options of that level, starting from `st`. */
  function ExpandLevel(levels: seq<Level>, lv: nat, st: State): State
    requires lv < |levels|
    decreases |levels| - lv, 1, 0
  {
    ExpandOptions(levels, lv, 0, st)
  }

  /** The defines an option contributes to the path: none for the placeholder. */
  function Emit(o: Pair): seq<Pair> {
    if o.key == Placeholder then [] else [o]
  }

  /** What follows a push at level `lv`: the next level, or, at the last level, a
      snapshot of the path and a pop of one element of a non-empty path. */
  function Descend(levels: seq<Level>, lv: nat, st: State): State
    requires lv < |levels|
    decreases |levels| - lv, 0, 0
  {
    if lv < |levels| - 1 then ExpandLevel(levels, lv + 1, st)
    else State(Pop(st.path), st.results + [Snapshot(st.path)])
  }

  /** The options of level `lv` from the `i`-th on: push the option unless it is the
      placeholder, then descend. */
  function ExpandOptions(levels: seq<Level>, lv: nat, i: nat, st: State): State
    requires lv < |levels| && i <= |levels[lv]|
    decreases |levels| - lv, 0, |levels[lv]| - i
  {
    if i == |levels[lv]| then st
    else
      var next := Descend(levels, lv, State(st.path + Emit(levels[lv][i]), st.results));
      ExpandOptions(levels, lv, i + 1, next)
  }

  /** One option of level `lv`: push, descend, continue with the next option. */
  lemma OptionsStep(levels: seq<Level>, lv: nat, i: nat, st: State)
    requires lv < |levels| && i < |levels[lv]|
    ensures ExpandOptions(levels, lv, i, st) ==
      ExpandOptions(levels, lv, i + 1, Descend(levels, lv, State(st.path + Emit(levels[lv][i]), st.results)))
  {
  }

  /** The number of leaves below level `lv`: the product of the level sizes. */
  function Product(levels: seq<Level>, lv: nat): nat
    decreases |levels| - lv
  {
    if lv >= |levels| then 1 else |levels[lv]| * Product(levels, lv + 1)
  }

  /** Level `lv` adds one result per leaf below it and keeps the earlier results. */
  lemma {:induction false} LevelCount(levels: seq<Level>, lv: nat, st: State)
    requires lv < |levels|
    ensures var r := ExpandLevel(levels, lv, st);
      |r.results| == |st.results| + Product(levels, lv) && r.results[..|st.results|] == st.results
    decreases |levels| - lv, 1, 0
  {
    OptionsCount(levels, lv, 0, st);
  }

  lemma {:induction false} OptionsCount(levels: seq<Level>, lv: nat, i: nat, st: State)
    requires lv < |levels| && i <= |levels[lv]|
    ensures var r := ExpandOptions(levels, lv, i, st);
      && |r.results| == |st.results| + (|levels[lv]| - i) * Product(levels, lv + 1)
      && r.results[..|st.results|] == st.results
    decreases |levels| - lv, 0, |levels[lv]| - i
  {
    if i < |levels[lv]| {
      var pushed := st.path + Emit(levels[lv][i]);
      var next := Descend(levels, lv, State(pushed, st.results));
      DescendCount(levels, lv, State(pushed, st.results));
      OptionsCount(levels, lv, i + 1, next);
      OptionsStep(levels, lv, i, st);
      CountStep(st.results, next.results, ExpandOptions(levels, lv, i + 1, next).results,
                |levels[lv]| - i, Product(levels, lv + 1));
    }
  }

  lemma {:induction false} DescendCount(levels: seq<Level>, lv: nat, st: State)
    requires lv < |levels|
    ensures var r := Descend(levels, lv, st);
      |r.results| == |st.results| + Product(levels, lv + 1) && r.results[..|st.results|] == st.results
    decreases |levels| - lv, 0, 0
  {
    if lv < |levels| - 1 {
      LevelCount(levels, lv + 1, st);
    }
  }

  /** One more option adds the leaves of one subtree and keeps the earlier results. */
  lemma CountStep(a: seq<Dict>, b: seq<Dict>, c: seq<Dict>, k: nat, p: nat)
    requires k >= 1
    requires |b| == |a| + p && b[..|a|] == a
    requires |c| == |b| + (k - 1) * p && c[..|b|] == b
    ensures |c| == |a| + k * p && c[..|a|] == a
  {
    assert (k - 1) * p + p == k * p;
    assert c[..|a|] == c[..|b|][..|a|];
  }

  /** What `Build` returns for a list of levels, on a builder whose path is empty. */
  function Variants(levels: seq<Level>): (r: Result<seq<Dict>, BuildError>)
    ensures r.Failure? <==> |levels| == 0
    ensures r.Failure? ==> r.error == ArgumentOutOfRange
    ensures r.Success? ==> |r.value| == Product(levels, 0)
  {
    if |levels| == 0 then Failure(ArgumentOutOfRange)
    else
      LevelCount(levels, 0, State([], []));
      Success(ExpandLevel(levels, 0, State([], [])).results)
  }

  ghost predicate AllPairs(s: seq<Pair>, p: Pair -> bool) {
    forall e :: e in s ==> p(e)
  }

  /** `p` holds of every pair on the path and in every result stored so far. */
  ghost predicate Kept(st: State, p: Pair -> bool) {
    AllPairs(st.path, p) && forall m :: 0 <= m < |st.results| ==> AllPairs(st.results[m], p)
  }

  /** `p` holds of every option of every level except the placeholder. */
  ghost predicate OptionsSatisfy(levels: seq<Level>, p: Pair -> bool) {
    forall j, k :: 0 <= j < |levels| && 0 <= k < |levels[j]| && levels[j][k].key != Placeholder ==> p(levels[j][k])
  }

  /** A property of every option other than the placeholder holds of every entry the
      builder pushes and of every dictionary it stores. */
  lemma {:induction false} LevelPreserves(levels: seq<Level>, lv: nat, st: State, p: Pair -> bool)
    requires lv < |levels|
    requires OptionsSatisfy(levels, p)
    requires Kept(st, p)
    ensures Kept(ExpandLevel(levels, lv, st), p)
    decreases |levels| - lv, 1, 0
  {
    OptionsPreserve(levels, lv, 0, st, p);
  }

  lemma {:induction false} OptionsPreserve(levels: seq<Level>, lv: nat, i: nat, st: State, p: Pair -> bool)
    requires lv < |levels| && i <= |levels[lv]|
    requires OptionsSatisfy(levels, p)
    requires Kept(st, p)
    ensures Kept(ExpandOptions(levels, lv, i, st), p)
    decreases |levels| - lv, 0, |levels[lv]| - i
  {
    if i < |levels[lv]| {
      var o := levels[lv][i];
      var pushed := State(st.path + Emit(o), st.results);
      PushKeeps(levels, lv, i, st, p);
      DescendKeeps(levels, lv, pushed, p);
      OptionsPreserve(levels, lv, i + 1, Descend(levels, lv, pushed), p);
    }
  }

  lemma PushKeeps(levels: seq<Level>, lv: nat, i: nat, st: State, p: Pair -> bool)
    requires lv < |levels| && i < |levels[lv]|
    requires OptionsSatisfy(levels, p)
    requires Kept(st, p)
    ensures Kept(State(st.path + Emit(levels[lv][i]), st.results), p)
  {
  }

  lemma {:induction false} DescendKeeps(levels: seq<Level>, lv: nat, st: State, p: Pair -> bool)
    requires lv < |levels|
    requires OptionsSatisfy(levels, p)
    requires Kept(st, p)
    ensures Kept(Descend(levels, lv, st), p)
    decreases |levels| - lv, 0, 0
  {
    if lv < |levels| - 1 {
      LevelPreserves(levels, lv + 1, st, p);
    } else {
      LeafKeeps(st, p);
    }
  }

  lemma LeafKeeps(st: State, p: Pair -> bool)
    requires Kept(st, p)
    ensures Kept(State(Pop(st.path), st.results + [Snapshot(st.path)]), p)
  {
    SnapshotEntries(st.path);
    var rs := st.results + [Snapshot(st.path)];
    forall m | 0 <= m < |rs| ensures AllPairs(rs[m], p) {
      if m < |st.results| {
        assert rs[m] == st.results[m];
      }
    }
  }

  /** No stored dictionary has the placeholder as a key. */
  lemma NoPlaceholderKey(levels: seq<Level>)
    requires |levels| > 0
    ensures forall m, e :: 0 <= m < |Variants(levels).value| && e in Variants(levels).value[m] ==>
      e.key != Placeholder
  {
    var p := (e: Pair) => e.key != Placeholder;
    LevelPreserves(levels, 0, State([], []), p);
    var ds := Variants(levels).value;
    forall m: int, e: Pair | 0 <= m < |ds| && e in ds[m] ensures e.key != Placeholder {
      assert AllPairs(ds[m], p);
    }
  }

  /** Every entry of every dictionary a descriptor expands to is well formed. */
  lemma VariantsWellFormed(children: seq<string>)
    requires |children| > 0
    ensures forall m, e :: 0 <= m < |Variants(ParseAll(children)).value| && e in Variants(ParseAll(children)).value[m] ==>
      WellFormed(e)
  {
    var levels := ParseAll(children);
    var p := (e: Pair) => WellFormed(e);
    forall j | 0 <= j < |levels| ensures forall k :: 0 <= k < |levels[j]| ==> WellFormed(levels[j][k]) {
      ParseLevelWellFormed(children[j]);
    }
    LevelPreserves(levels, 0, State([], []), p);
    var ds := Variants(levels).value;
    forall m: int, e: Pair | 0 <= m < |ds| && e in ds[m] ensures WellFormed(e) {
      assert AllPairs(ds[m], p);
    }
  }

  // ---------------------------------------------------------------- clean levels

  /** A level whose only placeholder is its last option, `X;Y;...;_`. */
  predicate CleanLevel(l: Level) {
    && |l| >= 1
    && l[|l| - 1].key == Placeholder
    && forall k :: 0 <= k < |l| - 1 ==> l[k].key != Placeholder
  }

  function Prefixed(e: seq<Pair>, cs: seq<seq<Pair>>): (r: seq<seq<Pair>>)
    ensures |r| == |cs|
    ensures forall k :: 0 <= k < |cs| ==> r[k] == e + cs[k]
  {
    seq(|cs|, k requires 0 <= k < |cs| => e + cs[k])
  }

  /** For the options of `l` from the `i`-th on, each followed by every choice `cs`
      of the deeper levels. */
  function OptionChoices(l: Level, i: nat, cs: seq<seq<Pair>>): seq<seq<Pair>>
    decreases |l| - i
  {
    if i >= |l| then [] else Prefixed(Emit(l[i]), cs) + OptionChoices(l, i + 1, cs)
  }

  /** The cartesian product of the levels, depth first: options in declared order,
      the last level varying fastest, a placeholder contributing nothing. */
  function Choices(ls: seq<Level>): seq<seq<Pair>>
    decreases |ls|
  {
    if |ls| == 0 then [[]] else OptionChoices(ls[0], 0, Choices(ls[1..]))
  }

  /** The snapshots of `path` extended by each choice. */
  function Snaps(path: seq<Pair>, cs: seq<seq<Pair>>): (r: seq<Dict>)
    ensures |r| == |cs|
    ensures forall k :: 0 <= k < |cs| ==> r[k] == Snapshot(path + cs[k])
  {
    seq(|cs|, k requires 0 <= k < |cs| => Snapshot(path + cs[k]))
  }

  lemma SnapsAppend(path: seq<Pair>, a: seq<seq<Pair>>, b: seq<seq<Pair>>)
    ensures Snaps(path, a + b) == Snaps(path, a) + Snaps(path, b)
  {
  }

  lemma SnapsPrefixed(path: seq<Pair>, e: seq<Pair>, cs: seq<seq<Pair>>)
    ensures Snaps(path + e, cs) == Snaps(path, Prefixed(e, cs))
  {
    forall k | 0 <= k < |cs| ensures (path + e) + cs[k] == path + (e + cs[k]) {
    }
  }

  /** On clean levels the builder backtracks exactly: level `lv` stores the snapshots
      of every choice of the levels from `lv` on, in depth-first order, and leaves the
      path one element shorter than it found it. */
  lemma {:induction false} CleanLevelExpand(levels: seq<Level>, lv: nat, path: seq<Pair>, res: seq<Dict>)
    requires lv < |levels|
    requires forall j :: lv <= j < |levels| ==> CleanLevel(levels[j])
    ensures ExpandLevel(levels, lv, State(path, res)) ==
      State(Pop(path), res + Snaps(path, Choices(levels[lv..])))
    decreases |levels| - lv, 1, 0
  {
    CleanOptionsExpand(levels, lv, 0, path, res);
    assert levels[lv..][0] == levels[lv];
    assert levels[lv..][1..] == levels[lv + 1..];
  }

  lemma {:induction false} CleanDescend(levels: seq<Level>, lv: nat, path: seq<Pair>, res: seq<Dict>)
    requires lv < |levels|
    requires forall j :: lv < j < |levels| ==> CleanLevel(levels[j])
    ensures Descend(levels, lv, State(path, res)) ==
      State(Pop(path), res + Snaps(path, Choices(levels[lv + 1..])))
    decreases |levels| - lv, 0, 0
  {
    if lv < |levels| - 1 {
      CleanLevelExpand(levels, lv + 1, path, res);
    } else {
      assert levels[lv + 1..] == [];
      assert path + [] == path;
    }
  }

  lemma {:induction false} CleanOptionsExpand(levels: seq<Level>, lv: nat, i: nat, path: seq<Pair>, res: seq<Dict>)
    requires lv < |levels| && i < |levels[lv]|
    requires forall j :: lv <= j < |levels| ==> CleanLevel(levels[j])
    ensures ExpandOptions(levels, lv, i, State(path, res)) ==
      State(Pop(path), res + Snaps(path, OptionChoices(levels[lv], i, Choices(levels[lv + 1..]))))
    decreases |levels| - lv, 0, |levels[lv]| - i
  {
    var o := levels[lv][i];
    CleanDescend(levels, lv, path + Emit(o), res);
    if o.key == Placeholder {
      assert path + Emit(o) == path;
      PlaceholderLast(levels, lv, i, path, res);
    } else {
      var cs := Choices(levels[lv + 1..]);
      var here := Snaps(path + Emit(o), cs);
      assert Pop(path + Emit(o)) == path;
      CleanOptionsExpand(levels, lv, i + 1, path, res + here);
      OptionThenRest(levels, lv, i, path, res);
    }
  }

  /** The placeholder of a clean level is its last option and pushes nothing. */
  lemma PlaceholderLast(levels: seq<Level>, lv: nat, i: nat, path: seq<Pair>, res: seq<Dict>)
    requires lv < |levels| && i < |levels[lv]|
    requires CleanLevel(levels[lv]) && levels[lv][i].key == Placeholder
    requires var cs := Choices(levels[lv + 1..]);
      Descend(levels, lv, State(path, res)) == State(Pop(path), res + Snaps(path, cs))
    ensures ExpandOptions(levels, lv, i, State(path, res)) ==
      State(Pop(path), res + Snaps(path, OptionChoices(levels[lv], i, Choices(levels[lv + 1..]))))
  {
    var l := levels[lv];
    var cs := Choices(levels[lv + 1..]);
    assert i == |l| - 1;
    assert Emit(l[i]) == [] && path + [] == path;
    OptionsStep(levels, lv, i, State(path, res));
    PrefixedEmpty(cs);
    assert OptionChoices(l, i, cs) == Prefixed([], cs) + [] == cs;
  }

  /** An option other than the placeholder stores the snapshots of its subtree, pops
      itself, and leaves the rest of the level to the options after it. */
  lemma OptionThenRest(levels: seq<Level>, lv: nat, i: nat, path: seq<Pair>, res: seq<Dict>)
    requires lv < |levels| && i < |levels[lv]|
    requires levels[lv][i].key != Placeholder
    requires var o, cs := levels[lv][i], Choices(levels[lv + 1..]);
      Descend(levels, lv, State(path + [o], res)) == State(path, res + Snaps(path + [o], cs))
    requires var o, cs := levels[lv][i], Choices(levels[lv + 1..]);
      i + 1 < |levels[lv]| &&
      ExpandOptions(levels, lv, i + 1, State(path, res + Snaps(path + [o], cs))) ==
      State(Pop(path), res + Snaps(path + [o], cs) + Snaps(path, OptionChoices(levels[lv], i + 1, cs)))
    ensures ExpandOptions(levels, lv, i, State(path, res)) ==
      State(Pop(path), res + Snaps(path, OptionChoices(levels[lv], i, Choices(levels[lv + 1..]))))
  {
    var o, cs := levels[lv][i], Choices(levels[lv + 1..]);
    assert Emit(o) == [o];
    OptionsStep(levels, lv, i, State(path, res));
    OptionSnaps(levels[lv], i, cs, path, res);
  }

  /** The snapshots of an option's subtree followed by those of the later options are
      the snapshots of the options from this one on. */
  lemma OptionSnaps(l: Level, i: nat, cs: seq<seq<Pair>>, path: seq<Pair>, res: seq<Dict>)
    requires i < |l| && l[i].key != Placeholder
    ensures res + Snaps(path + [l[i]], cs) + Snaps(path, OptionChoices(l, i + 1, cs)) ==
      res + Snaps(path, OptionChoices(l, i, cs))
  {
    var o, rest := l[i], OptionChoices(l, i + 1, cs);
    var here := Snaps(path + [o], cs);
    assert OptionChoices(l, i, cs) == Prefixed([o], cs) + rest;
    SnapsOption(path, o, cs, rest);
    assert res + here + Snaps(path, rest) == res + (here + Snaps(path, rest));
  }

  lemma SnapsOption(path: seq<Pair>, o: Pair, cs: seq<seq<Pair>>, rest: seq<seq<Pair>>)
    ensures Snaps(path, Prefixed([o], cs) + rest) == Snaps(path + [o], cs) + Snaps(path, rest)
  {
    SnapsPrefixed(path, [o], cs);
    SnapsAppend(path, Prefixed([o], cs), rest);
  }

  /** On clean levels the descriptor expands to the snapshots of its choices. */
  lemma CleanVariants(levels: seq<Level>)
    requires |levels| > 0
    requires forall j :: 0 <= j < |levels| ==> CleanLevel(levels[j])
    ensures Variants(levels) == Success(Snaps([], Choices(levels)))
  {
    CleanLevelExpand(levels, 0, [], []);
    assert levels[0..] == levels;
    var snaps := Snaps([], Choices(levels));
    assert ExpandLevel(levels, 0, State([], [])).results == [] + snaps == snaps;
  }

  // ---------------------------------------------------------------- two-option levels

  /** The levels `o;_`, one per option. */
  function BinaryLevels(opts: seq<Pair>): (levels: seq<Level>)
    ensures |levels| == |opts|
  {
    seq(|opts|, k requires 0 <= k < |opts| => [opts[k], Pair(Placeholder, "1")])
  }

  /** All subsequences of `opts`, those with `opts[0]` first. */
  function Subsequences(opts: seq<Pair>): seq<seq<Pair>>
    decreases |opts|
  {
    if |opts| == 0 then [[]]
    else Prefixed([opts[0]], Subsequences(opts[1..])) + Subsequences(opts[1..])
  }

  function Pow2(n: nat): nat {
    if n == 0 then 1 else 2 * Pow2(n - 1)
  }

  function KeySet(d: seq<Pair>): set<string> {
    set k | k in Keys(d)
  }

  /** The options of `opts` whose key is in `s`. */
  function Filter(opts: seq<Pair>, s: set<string>): seq<Pair>
    decreases |opts|
  {
    if |opts| == 0 then []
    else (if opts[0].key in s then [opts[0]] else []) + Filter(opts[1..], s)
  }

  lemma PrefixedEmpty(cs: seq<seq<Pair>>)
    ensures Prefixed([], cs) == cs
  {
    forall k | 0 <= k < |cs| ensures [] + cs[k] == cs[k] {
    }
  }

  lemma {:induction false} BinaryChoices(opts: seq<Pair>)
    requires forall k :: 0 <= k < |opts| ==> opts[k].key != Placeholder
    ensures Choices(BinaryLevels(opts)) == Subsequences(opts)
    decreases |opts|
  {
    if |opts| > 0 {
      var ls := BinaryLevels(opts);
      assert ls[1..] == BinaryLevels(opts[1..]);
      BinaryChoices(opts[1..]);
      var cs := Subsequences(opts[1..]);
      assert ls[0] == [opts[0], Pair(Placeholder, "1")];
      assert OptionChoices(ls[0], 2, cs) == [];
      assert OptionChoices(ls[0], 1, cs) == Prefixed([], cs) + [];
      PrefixedEmpty(cs);
    }
  }

  lemma {:induction false} SubsequencesFacts(opts: seq<Pair>)
    ensures |Subsequences(opts)| == Pow2(|opts|)
    ensures forall m, e :: 0 <= m < |Subsequences(opts)| && e in Subsequences(opts)[m] ==> e in opts
    decreases |opts|
  {
    if |opts| > 0 {
      SubsequencesFacts(opts[1..]);
      var b := Subsequences(opts[1..]);
      var a := Prefixed([opts[0]], b);
      assert opts == [opts[0]] + opts[1..];
      forall m, e | 0 <= m < |a + b| && e in (a + b)[m] ensures e in opts {
        if m < |a| {
          assert (a + b)[m] == [opts[0]] + b[m];
          if e != opts[0] {
            assert e in b[m];
            assert e in opts[1..];
          }
        } else {
          assert (a + b)[m] == b[m - |a|];
          assert e in opts[1..];
        }
      }
    }
  }

  lemma {:induction false} FilterIsSubsequence(opts: seq<Pair>, s: set<string>)
    ensures Filter(opts, s) in Subsequences(opts)
    decreases |opts|
  {
    if |opts| > 0 {
      FilterIsSubsequence(opts[1..], s);
      var f := Filter(opts[1..], s);
      var b := Subsequences(opts[1..]);
      var k :| 0 <= k < |b| && b[k] == f;
      var a := Prefixed([opts[0]], b);
      var all := a + b;
      assert Subsequences(opts) == all;
      if opts[0].key in s {
        assert Filter(opts, s) == [opts[0]] + f;
        assert all[k] == [opts[0]] + f by {
          assert all[k] == a[k];
        }
      } else {
        assert Filter(opts, s) == [] + f == f;
        assert all[|a| + k] == f;
      }
    }
  }

  lemma KeySetCons(x: Pair, d: seq<Pair>)
    ensures KeySet([x] + d) == {x.key} + KeySet(d)
  {
    assert Keys([x] + d) == [x.key] + Keys(d);
  }

  lemma {:induction false} FilterKeys(opts: seq<Pair>, s: set<string>)
    ensures KeySet(Filter(opts, s)) == KeySet(opts) * s
    decreases |opts|
  {
    if |opts| > 0 {
      FilterKeys(opts[1..], s);
      var f := Filter(opts[1..], s);
      assert opts == [opts[0]] + opts[1..];
      KeySetCons(opts[0], opts[1..]);
      if opts[0].key in s {
        assert Filter(opts, s) == [opts[0]] + f;
        KeySetCons(opts[0], f);
      } else {
        assert Filter(opts, s) == [] + f == f;
      }
    }
  }

  /** A key that no pair of `opts` has is a key of no subsequence. */
  lemma KeyNotInSubsequences(opts: seq<Pair>, x: string)
    requires x !in Keys(opts)
    ensures forall m :: 0 <= m < |Subsequences(opts)| ==> x !in KeySet(Subsequences(opts)[m])
  {
    SubsequencesFacts(opts);
    var b := Subsequences(opts);
    forall m | 0 <= m < |b| ensures x !in KeySet(b[m]) {
      forall k | 0 <= k < |b[m]| ensures Keys(b[m])[k] != x {
        assert b[m][k] in opts;
        var r :| 0 <= r < |opts| && opts[r] == b[m][k];
        assert Keys(opts)[r] == b[m][k].key;
      }
      assert x !in Keys(b[m]);
    }
  }

  /** With distinct keys, no two subsequences have the same set of keys. */
  lemma {:induction false} SubsequencesDistinct(opts: seq<Pair>)
    requires Distinct(Keys(opts))
    ensures forall m, n :: 0 <= m < n < |Subsequences(opts)| ==>
      KeySet(Subsequences(opts)[m]) != KeySet(Subsequences(opts)[n])
    decreases |opts|
  {
    if |opts| > 0 {
      var rest := opts[1..];
      var x := opts[0].key;
      assert Keys(opts) == [x] + Keys(rest);
      assert Distinct(Keys(rest));
      assert x !in Keys(rest);
      SubsequencesDistinct(rest);
      KeyNotInSubsequences(rest, x);
      var b := Subsequences(rest);
      var a := Prefixed([opts[0]], b);
      forall m | 0 <= m < |b| ensures KeySet(a[m]) == {x} + KeySet(b[m]) {
        KeySetCons(opts[0], b[m]);
      }
      assert Subsequences(opts) == a + b;
      DistinctHalves(x, a, b);
    }
  }


  /** Key sets all different in `b`, none holding `x`, and `a` the same sets with `x`
      added: then the key sets of `a + b` are all different. */
  lemma DistinctHalves(x: string, a: seq<seq<Pair>>, b: seq<seq<Pair>>)
    requires |a| == |b|
    requires forall m :: 0 <= m < |b| ==> KeySet(a[m]) == {x} + KeySet(b[m])
    requires forall m :: 0 <= m < |b| ==> x !in KeySet(b[m])
    requires forall m, n :: 0 <= m < n < |b| ==> KeySet(b[m]) != KeySet(b[n])
    ensures forall m, n :: 0 <= m < n < |a + b| ==> KeySet((a + b)[m]) != KeySet((a + b)[n])
  {
    var all := a + b;
    forall m, n | 0 <= m < n < |all| ensures KeySet(all[m]) != KeySet(all[n]) {
      if n < |a| {
        assert all[m] == a[m] && all[n] == a[n];
        assert KeySet(all[m]) - {x} == KeySet(b[m]);
        assert KeySet(all[n]) - {x} == KeySet(b[n]);
      } else if m < |a| {
        assert all[m] == a[m];
        assert x in KeySet(all[m]);
        assert all[n] == b[n - |a|];
      } else {
        assert all[m] == b[m - |a|] && all[n] == b[n - |a|];
      }
    }
  }

  /** Levels of the form `o;_` expand to the snapshots of the subsequences of the options. */
  lemma BinaryVariants(opts: seq<Pair>)
    requires |opts| > 0
    requires forall k :: 0 <= k < |opts| ==> opts[k].key != Placeholder
    ensures Variants(BinaryLevels(opts)) == Success(Snaps([], Subsequences(opts)))
  {
    BinaryLevelsClean(opts);
    CleanVariants(BinaryLevels(opts));
    BinaryChoices(opts);
  }

  lemma BinaryLevelsClean(opts: seq<Pair>)
    requires forall k :: 0 <= k < |opts| ==> opts[k].key != Placeholder
    ensures forall j :: 0 <= j < |opts| ==> CleanLevel(BinaryLevels(opts)[j])
  {
    var levels := BinaryLevels(opts);
    forall j | 0 <= j < |levels| ensures CleanLevel(levels[j]) {
      assert levels[j] == [opts[j], Pair(Placeholder, "1")];
    }
  }

  /** A snapshot has the keys of its path and holds only pairs of the path. */
  lemma SnapsKeys(cs: seq<seq<Pair>>, m: nat)
    requires m < |cs|
    ensures KeySet(Snaps([], cs)[m]) == KeySet(cs[m])
    ensures forall e :: e in Snaps([], cs)[m] ==> e in cs[m]
  {
    assert [] + cs[m] == cs[m];
    SnapshotKeys(cs[m]);
    SnapshotEntries(cs[m]);
  }

  /** Levels of the form `o;_` with distinct keys expand to 2^n dictionaries, one for
      each subset of the keys and no subset twice; every entry is one of the options. */
  lemma BinaryLevelsGiveEachSubset(opts: seq<Pair>)
    requires |opts| > 0
    requires Distinct(Keys(opts))
    requires forall k :: 0 <= k < |opts| ==> opts[k].key != Placeholder
    ensures Variants(BinaryLevels(opts)).Success?
    ensures var ds := Variants(BinaryLevels(opts)).value;
      && |ds| == Pow2(|opts|)
      && (forall s :: s <= KeySet(opts) ==> exists j :: 0 <= j < |ds| && KeySet(ds[j]) == s)
      && (forall m, n :: 0 <= m < n < |ds| ==> KeySet(ds[m]) != KeySet(ds[n]))
      && (forall m, e :: 0 <= m < |ds| && e in ds[m] ==> e in opts)
  {
    BinaryVariants(opts);
    SubsequenceSnaps(opts);
    var ds := Snaps([], Subsequences(opts));
    forall s | s <= KeySet(opts) ensures exists j :: 0 <= j < |ds| && KeySet(ds[j]) == s {
      var j := SubsetReached(opts, s);
    }
  }

  /** The snapshots of the subsequences of options with distinct keys: 2^n of them,
      no two with the same keys, every entry one of the options. */
  lemma SubsequenceSnaps(opts: seq<Pair>)
    requires Distinct(Keys(opts))
    ensures var ds := Snaps([], Subsequences(opts));
      && |ds| == Pow2(|opts|)
      && (forall m, n :: 0 <= m < n < |ds| ==> KeySet(ds[m]) != KeySet(ds[n]))
      && (forall m, e :: 0 <= m < |ds| && e in ds[m] ==> e in opts)
  {
    var subs := Subsequences(opts);
    var ds := Snaps([], subs);
    SubsequencesFacts(opts);
    SubsequencesDistinct(opts);
    forall m | 0 <= m < |ds| ensures KeySet(ds[m]) == KeySet(subs[m]) && forall e :: e in ds[m] ==> e in subs[m] {
      SnapsKeys(subs, m);
    }
  }

  /** The subsequence that keeps exactly the options of `s` is among those expanded. */
  lemma SubsetReached(opts: seq<Pair>, s: set<string>) returns (j: nat)
    requires s <= KeySet(opts)
    ensures j < |Subsequences(opts)|
    ensures KeySet(Snaps([], Subsequences(opts))[j]) == s
  {
    var subs := Subsequences(opts);
    FilterIsSubsequence(opts, s);
    FilterKeys(opts, s);
    j :| 0 <= j < |subs| && subs[j] == Filter(opts, s);
    SnapsKeys(subs, j);
  }

  // ---------------------------------------------------------------- examples

  /** The choices of the ordering example, depth first. */
  lemma OrderChoices()
    ensures var t, s, u := Pair("TEXTURE", "1"), Pair("SKINNING", "2"), Pair(Placeholder, "1");
      Choices([[t, u], [s, u]]) == [[t, s], [t], [s], []]
  {
    var t, s, u := Pair("TEXTURE", "1"), Pair("SKINNING", "2"), Pair(Placeholder, "1");
    var levels := [[t, u], [s, u]];
    assert levels[1..] == [[s, u]];
    assert levels[1..][1..] == [];
    assert [[s, u]][1..] == [];
    var inner := Choices([[s, u]]);
    assert [s] + [] == [s];
    assert Prefixed([s], [[]]) == [[s]];
    PrefixedEmpty([[]]);
    assert OptionChoices([s, u], 2, [[]]) == [];
    assert OptionChoices([s, u], 1, [[]]) == [[]];
    assert OptionChoices([s, u], 0, [[]]) == [[s], []];
    assert Choices([]) == [[]];
    assert inner == OptionChoices([s, u], 0, Choices([]));
    assert inner == [[s], []];
    assert [t] + [s] == [t, s] && [t] + [] == [t];
    assert Prefixed([t], inner) == [[t, s], [t]];
    PrefixedEmpty(inner);
    assert OptionChoices([t, u], 2, inner) == [];
    assert OptionChoices([t, u], 1, inner) == inner;
    assert Choices(levels) == [[t, s], [t]] + [[s], []];
  }

  /** The worked ordering example: `TEXTURE;_` then `SKINNING=2;_`. */
  lemma OrderExample()
    ensures var t, s, u := Pair("TEXTURE", "1"), Pair("SKINNING", "2"), Pair(Placeholder, "1");
      Variants([[t, u], [s, u]]) == Success([[t, s], [t], [s], []])
  {
    var t, s, u := Pair("TEXTURE", "1"), Pair("SKINNING", "2"), Pair(Placeholder, "1");
    var levels := [[t, u], [s, u]];
    forall j | 0 <= j < |levels| ensures CleanLevel(levels[j]) {
    }
    CleanVariants(levels);
    OrderChoices();
    var cs := [[t, s], [t], [s], []];
    assert Keys(cs[0]) == ["TEXTURE", "SKINNING"];
    SnapsOfDistinct(cs);
  }

  /** Choices whose keys are distinct are their own snapshots. */
  lemma SnapsOfDistinct(cs: seq<seq<Pair>>)
    requires forall k :: 0 <= k < |cs| ==> Distinct(Keys(cs[k]))
    ensures Snaps([], cs) == cs
  {
    forall k | 0 <= k < |cs| ensures Snaps([], cs)[k] == cs[k] {
      assert [] + cs[k] == cs[k];
      SnapshotOfDistinct(cs[k]);
    }
  }

  /** The lower level of the leak example: each visit stores a snapshot and pops `C`. */
  lemma LeakLeaves()
    ensures var a, b, c := Pair("A", "1"), Pair("B", "1"), Pair("C", "1");
      && ExpandLevel([[a, b], [c]], 1, State([a], [])) == State([a], [[a, c]])
      && ExpandLevel([[a, b], [c]], 1, State([a, b], [[a, c]])) == State([a, b], [[a, c], [a, b, c]])
  {
    var a, b, c := Pair("A", "1"), Pair("B", "1"), Pair("C", "1");
    var levels := [[a, b], [c]];
    SingleLeaf(levels, [a], []);
    SingleLeaf(levels, [a, b], [[a, c]]);
    assert [a] + [c] == [a, c] && [a, b] + [c] == [a, b, c];
    assert Keys([a, c]) == ["A", "C"] && Keys([a, b, c]) == ["A", "B", "C"];
    SnapshotOfDistinct([a, c]);
    SnapshotOfDistinct([a, b, c]);
  }

  /** A last level with one option stores one snapshot with that option pushed, and
      pops it again. */
  lemma SingleLeaf(levels: seq<Level>, path: seq<Pair>, res: seq<Dict>)
    requires |levels| > 0 && |levels[|levels| - 1]| == 1
    requires levels[|levels| - 1][0].key != Placeholder
    ensures var c := levels[|levels| - 1][0];
      ExpandLevel(levels, |levels| - 1, State(path, res)) == State(path, res + [Snapshot(path + [c])])
  {
    var lv := |levels| - 1;
    var c := levels[lv][0];
    assert Emit(c) == [c];
    assert (path + [c])[..|path|] == path;
    var st := State(path, res + [Snapshot(path + [c])]);
    assert Descend(levels, lv, State(path + [c], res)) == st;
    OptionsStep(levels, lv, 0, State(path, res));
  }

  /** Without a trailing placeholder the builder leaks: `A;B` then `C` stores
      `{A, C}` and then `{A, B, C}`, because the `A` pushed at the upper level is
      never popped. */
  lemma LeakExample()
    ensures var a, b, c := Pair("A", "1"), Pair("B", "1"), Pair("C", "1");
      Variants([[a, b], [c]]) == Success([[a, c], [a, b, c]])
  {
    var a, b, c := Pair("A", "1"), Pair("B", "1"), Pair("C", "1");
    var levels := [[a, b], [c]];
    var s1 := State([a], [[a, c]]);
    var s2 := State([a, b], [[a, c], [a, b, c]]);
    LeakLeaves();
    assert [] + Emit(a) == [a] && [a] + Emit(b) == [a, b];
    assert Descend(levels, 0, State([a], [])) == s1;
    assert Descend(levels, 0, State([a, b], [[a, c]])) == s2;
    assert ExpandOptions(levels, 0, 2, s2) == s2;
    assert ExpandOptions(levels, 0, 1, s1) == s2;
    assert ExpandOptions(levels, 0, 0, State([], [])) == s2;
    assert ExpandLevel(levels, 0, State([], [])) == s2;
  }

  // ---------------------------------------------------------------- the builder

  /** `DefinesBuilder`: a path (`_currentDefine`), the levels, a level cursor and the
      results, updated by a recursive method. */
  class DefinesBuilder {
    var currentDefine: seq<Pair>
    var definesByLevel: seq<Level>
    var level: int
    var result: seq<Dict>

    constructor ()
      ensures currentDefine == [] && definesByLevel == [] && level == 0 && result == []
    {
      currentDefine := [];
      definesByLevel := [];
      level := 0;
      result := [];
    }

    method AddDefine(name: string, value: string)
      modifies this`currentDefine
      ensures currentDefine == old(currentDefine) + [Pair(name, value)]
    {
      currentDefine := currentDefine + [Pair(name, value)];
    }

    /** Copies the path into a fresh dictionary and adds it to the results. */
    method StoreResult()
      modifies this`result
      ensures result == old(result) + [Snapshot(currentDefine)]
    {
      var dict: Dict := [];
      for i := 0 to |currentDefine|
        invariant dict == Snapshot(currentDefine[..i])
      {
        assert currentDefine[..i + 1][..i] == currentDefine[..i];
        dict := Put(dict, currentDefine[i].key, currentDefine[i].value);
      }
      assert currentDefine[..|currentDefine|] == currentDefine;
      result := result + [dict];
    }

    method BuildInternal()
      requires 0 <= level < |definesByLevel|
      modifies this`currentDefine, this`result, this`level
      ensures level == old(level)
      ensures State(currentDefine, result) ==
        ExpandLevel(definesByLevel, level, State(old(currentDefine), old(result)))
      decreases |definesByLevel| - level
    {
      var options := definesByLevel[level];
      ghost var levels, lv := definesByLevel, level;
      ghost var start := State(currentDefine, result);
      for i := 0 to |options|
        invariant level == lv
        invariant ExpandLevel(levels, lv, start) == ExpandOptions(levels, lv, i, State(currentDefine, result))
      {
        var pair := options[i];
        ghost var before := State(currentDefine, result);
        ghost var pushed := State(currentDefine + Emit(pair), result);
        OptionsStep(levels, lv, i, before);
        if pair.key != Placeholder {
          AddDefine(pair.key, pair.value);
        }
        assert State(currentDefine, result) == pushed;
        if level < |definesByLevel| - 1 {
          level := level + 1;
          BuildInternal();
          level := level - 1;
        } else {
          StoreResult();
          if |currentDefine| > 0 {
            currentDefine := currentDefine[..|currentDefine| - 1];
          }
          assert currentDefine == Pop(pushed.path);
        }
        assert State(currentDefine, result) == Descend(levels, lv, pushed);
      }
    }

    /** Sets the levels, clears the results and the cursor (not the path) and runs the
        recursion, which fails on `_definesByLevel[0]` when there are no levels. */
    method Build(levels: Option<seq<Level>>) returns (r: Result<seq<Dict>, BuildError>)
      modifies this
      ensures levels.None? ==> r == Failure(ArgumentNull) && unchanged(this)
      ensures levels.Some? ==> definesByLevel == levels.value && level == 0
      ensures levels.Some? && |levels.value| == 0 ==>
        r == Failure(ArgumentOutOfRange) && result == [] && currentDefine == old(currentDefine)
      ensures levels.Some? && |levels.value| > 0 ==>
        var s := ExpandLevel(levels.value, 0, State(old(currentDefine), []));
        r == Success(s.results) && result == s.results && currentDefine == s.path
    {
      if levels.None? {
        return Failure(ArgumentNull);
      }
      definesByLevel := levels.value;
      result := [];
      level := 0;
      if |definesByLevel| == 0 {
        return Failure(ArgumentOutOfRange);
      }
      BuildInternal();
      r := Success(result);
    }
  }

  /** `FromXml` on a descriptor whose root has the children `children`. */
  method FromXml(children: seq<string>) returns (r: Result<seq<Dict>, BuildError>)
    ensures r == Variants(ParseAll(children))
  {
    var definesByLevel := ParseLevels(children);
    var definesBuilder := new DefinesBuilder();
    r := definesBuilder.Build(Some(definesByLevel));
  }

  /** The descriptor of the repository's test: four levels `NAME;_`. */
  const EffectChildren: seq<string> := ["TEXTURE;_", "LIGHTNING;_", "CLIP_PLANE;_", "SKINNING;_"]

  const EffectNames: seq<string> := ["TEXTURE", "LIGHTNING", "CLIP_PLANE", "SKINNING"]

  /** Each name as an option with the value `"1"`. */
  function NameOptions(names: seq<string>): (opts: seq<Pair>)
    ensures Keys(opts) == names
  {
    seq(|names|, k requires 0 <= k < |names| => Pair(names[k], "1"))
  }

  /** The children `NAME;_`, one per name. */
  function BinaryChildren(names: seq<string>): (children: seq<string>)
    ensures |children| == |names|
    ensures forall k :: 0 <= k < |names| ==> children[k] == names[k] + ";" + Placeholder
  {
    seq(|names|, k requires 0 <= k < |names| => names[k] + ";" + Placeholder)
  }

  /** Children `NAME;_` parse to the two-option levels of their names. */
  lemma BinaryChildrenLevels(names: seq<string>)
    requires forall k :: 0 <= k < |names| ==>
      IsTrimmed(names[k]) && '=' !in names[k] && ';' !in names[k]
    ensures ParseAll(BinaryChildren(names)) == BinaryLevels(NameOptions(names))
  {
    var opts := NameOptions(names);
    forall k | 0 <= k < |names|
      ensures ParseLevel(BinaryChildren(names)[k]) == [opts[k], Pair(Placeholder, "1")]
    {
      BinaryChildLevel(names[k]);
    }
  }

  lemma BinaryChildLevel(name: string)
    requires IsTrimmed(name) && '=' !in name && ';' !in name
    ensures ParseLevel(name + ";" + Placeholder) == [Pair(name, "1"), Pair(Placeholder, "1")]
  {
    var two := [name, Placeholder];
    assert Join(two, ";") == name + ";" + Placeholder;
    ParseLevelOfNames(two);
  }

  /** A descriptor of `n` distinct names, each as a child `NAME;_`, expands to 2^n
      dictionaries, one for each subset of the names. */
  lemma BinaryChildrenSubsets(names: seq<string>)
    requires |names| > 0
    requires Distinct(names)
    requires forall k :: 0 <= k < |names| ==>
      IsTrimmed(names[k]) && '=' !in names[k] && ';' !in names[k] && names[k] != Placeholder
    ensures var ds := Variants(ParseAll(BinaryChildren(names)));
      && ds.Success?
      && |ds.value| == Pow2(|names|)
      && (forall s :: s <= KeySet(NameOptions(names)) ==>
            exists j :: 0 <= j < |ds.value| && KeySet(ds.value[j]) == s)
  {
    BinaryChildrenLevels(names);
    BinaryLevelsGiveEachSubset(NameOptions(names));
  }

  lemma EffectNamesPlain()
    ensures |EffectNames| == 4
    ensures EffectChildren == BinaryChildren(EffectNames)
    ensures Distinct(EffectNames)
    ensures forall k :: 0 <= k < |EffectNames| ==>
      IsTrimmed(EffectNames[k]) && '=' !in EffectNames[k] && ';' !in EffectNames[k] && EffectNames[k] != Placeholder
  {
    assert EffectChildren == BinaryChildren(EffectNames) by {
      assert "TEXTURE;_" == "TEXTURE" + ";" + Placeholder;
      assert "LIGHTNING;_" == "LIGHTNING" + ";" + Placeholder;
      assert "CLIP_PLANE;_" == "CLIP_PLANE" + ";" + Placeholder;
      assert "SKINNING;_" == "SKINNING" + ";" + Placeholder;
    }
    assert Distinct(EffectNames) by {
      forall i, j | 0 <= i < j < |EffectNames| ensures EffectNames[i] != EffectNames[j] {
        assert EffectNames[i][0] != EffectNames[j][0];
      }
    }
  }

  /** The test's descriptor expands to 16 dictionaries, one for each subset of the
      four names. */
  lemma EffectSubsets()
    ensures var ds := Variants(ParseAll(EffectChildren));
      && ds.Success?
      && |ds.value| == 16
      && (forall s :: s <= KeySet(NameOptions(EffectNames)) ==>
            exists j :: 0 <= j < 16 && KeySet(ds.value[j]) == s)
  {
    EffectNamesPlain();
    BinaryChildrenSubsets(EffectNames);
    assert Pow2(4) == 16;
  }
}
