# efscriptgen in Dafny

efscriptgen writes Windows batch scripts that compile shader effects (`.fx`).
Each effect may have an XML descriptor next to it. Every child of the
descriptor's root is one *level*: a `;`-separated list of options, each `NAME`
or `NAME=VALUE`. The option `_` contributes no define. The generator lists the
combinations of one option per level, depth first, as dictionaries of defines
(*variants*). For each of the three output types (MonoGame DirectX 11, MonoGame
OpenGL, FNA) it then writes the following:

- one compiler command per variant;
- the `errorlevel` guard after each command;
- one script per effect, filed under an id made from its sub-folder and name;
- an `all` script that joins the others.

The project has six modules:

- `Wrappers`: `Option` and `Result`.
- `Strings`: the .NET string operations the generator uses. These are
  `Split` with a one-character separator string (`Split(";")`, `Split("=")`), `Trim` over the white-space characters .NET recognises,
  `string.Join` and `Replace(char, char)`.
- `Dictionaries`: `Dictionary<string, string>` as an association list in
  enumeration order. A dictionary that only ever has keys assigned enumerates
  them in insertion order, and an assignment to a present key keeps its place.
  `Snapshot` is the dictionary built by assigning a list of pairs in turn, as
  `StoreResult` does.
- `Sorting`: LINQ `orderby` as a stable insertion sort, over a comparer `leq`
  left abstract.
- `VariantsParser`:
  - the parsing of the descriptor's child texts into levels;
  - the `DefinesBuilder` class with its fields and its recursive `BuildInternal`;
  - `ExpandLevel`/`ExpandOptions`, the pure form of that recursion;
  - `Choices`, the cartesian product, to which the builder is proved equal on
    levels whose only placeholder is their last option;
  - the four binary levels of the repository's test.
- `Program`:
  - the variant strings;
  - the output-name postfix and the command lines of the three back ends;
  - the script texts and their ids;
  - the `all` aggregate and the files `Process` writes;
  - the sequence of the three output types;
  - the argument loop.

The builder is modelled as written: it pops its path only at leaves. One pop
per leaf undoes the push of the last level's option. It does not undo the
pushes of earlier levels, and it removes an element even when the option was
`_` and pushed nothing. So a descriptor with levels `A;B` and `C` yields
`{A, C}` and then `{A, B, C}`, not `{B, C}` (`VariantsParser.LeakExample`). On
levels whose only `_` is their last option (`CleanLevel`), the pops do undo the
pushes exactly, and the result is the full cartesian product in level-major
order (`VariantsParser.CleanVariants`). The descriptor of the repository's test
is taken to be of that form (see "## Left out"). Levels with a `_` elsewhere
need not be: `A;_` then `_;_` gives `{A}`, `{}`, `{}`, `{}`, where the product
gives `{A}`, `{A}`, `{}`, `{}`.

Behaviours of the code worth noting:

- The path is popped only at leaves, as above; it is not backtracked after
  every option.
- A descriptor without levels makes `Build` index an empty list, which throws
  (`Failure(ArgumentOutOfRange)`). It does not yield one empty variant.
- An empty level contributes no combination, so its level makes the product
  zero. Parsing never produces one, because `Split` always yields at least one
  part.
- The `errorlevel` guard follows every command, FNA's included.
- `/Defines:` takes the variant string in dictionary order, unsorted. Only the
  output-name postfix and the FNA `/D` switches sort the tokens.
- The postfix of `{TEXTURE, SKINNING=2}` joins the sorted tokens. Under an
  ordering that puts `SKINNING=2` first it is `_SKINNING_2_TEXTURE`
  (`Program.PostfixExample`), not `_TEXTURE_SKINNING_2`.

Calls into the platform are parameters in `Program.Env`:

- `Path.GetFullPath`, `Combine`, `GetDirectoryName`,
  `GetFileNameWithoutExtension` and `ChangeExtension`;
- `Path.DirectorySeparatorChar`;
- `Environment.NewLine`;
- the extension from the options;
- the culture's string comparer.

A `FilePair` carries the following:

- the effect's path;
- the descriptor's path;
- whether the descriptor exists, and if it does, the texts of its root's
  children.

## Model

| member | source | states |
|---|---|---|
| Strings.Trim | efscriptgen/VariantsParser.cs:85-91 | definition: `TrimEnd(TrimStart(s))`; its properties are in `TrimBounds`, `TrimOfPadded` and `TrimOfTrimmed` |
| Strings.TrimBounds | efscriptgen/VariantsParser.cs:85-91 | `Trim(s)` is a slice `s[i..j]` with only white space outside it and no white space at its two ends |
| Strings.TrimOfPadded | efscriptgen/VariantsParser.cs:85-91 | trimming a trimmed text padded with white space on both sides gives the text back |
| Strings.TrimOfTrimmed | efscriptgen/VariantsParser.cs:86 | `Trim` is the identity on a text with no white space at its ends |
| Strings.Split | efscriptgen/VariantsParser.cs:80 | `Split(c)` gives one more part than `c` occurs, no part contains `c`, and joining the parts with `c` gives the text back |
| Strings.SplitJoin | efscriptgen/Program.cs:95 | splitting a `c`-join of one or more parts free of `c` gives the parts back |
| Strings.SplitNoSeparator | efscriptgen/VariantsParser.cs:85 | a text without the separator splits into itself alone |
| Strings.SplitPrefix | efscriptgen/VariantsParser.cs:80 | text before the first separator becomes part of the first field only |
| Strings.SplitSuffix | efscriptgen/VariantsParser.cs:80 | text after the last separator becomes part of the last field only |
| Strings.Join | efscriptgen/Program.cs:95 | definition of `string.Join(sep, parts)` (also Program.cs:176); its properties are in `Split`, `SplitJoin`, `VariantStringRoundTrip` and `ScriptsOfFiles` |
| Strings.StartsWith | efscriptgen/Program.cs:216 | definition of the ordinal `arg.StartsWith("-")`; its properties are in `OtherFlagIgnored`, `LastPlainAmongFlags` and `OnlyFlags` |
| Strings.Replace | efscriptgen/Program.cs:171-172 | `Replace(a, b)` keeps the length, turns each `a` into `b` (so none is left when `a != b`) and leaves every other character where it was |
| Strings.TrimAll | efscriptgen/Program.cs:116 | `select d.Trim()` trims each element in place |
| Dictionaries.Get | efscriptgen.Tests/Tests.cs:55 | a lookup finds a value exactly when the key is among the dictionary's keys |
| Dictionaries.Put | efscriptgen/VariantsParser.cs:26 | definition of `d[k] = v`; its properties are in `PutMeaning` and `PutNew` |
| Dictionaries.PutMeaning | efscriptgen/VariantsParser.cs:26 | `d[k] = v` makes `k` map to `v` and leaves every other key's value alone; a present key keeps its place, a new key goes last; no other entry appears |
| Dictionaries.PutNew | efscriptgen/VariantsParser.cs:26 | assigning a key not yet present appends the pair |
| Dictionaries.Snapshot | efscriptgen/VariantsParser.cs:21-30 | definition: the pairs of the path assigned in turn to an empty dictionary; its properties are in `SnapshotKeys`, `SnapshotValues`, `SnapshotEntries` and `SnapshotOfDistinct` |
| Dictionaries.SnapshotKeys | efscriptgen/VariantsParser.cs:21-30 | the dictionary `StoreResult` builds has each key of the path once, in the order of first occurrence |
| Dictionaries.SnapshotValues | efscriptgen/VariantsParser.cs:21-30 | each key of that dictionary has the value of its last occurrence on the path |
| Dictionaries.SnapshotEntries | efscriptgen/VariantsParser.cs:21-30 | every entry of that dictionary is a pair of the path |
| Dictionaries.SnapshotOfDistinct | efscriptgen/VariantsParser.cs:21-30 | a path with distinct keys is copied unchanged |
| Dictionaries.Values | efscriptgen/Program.cs:176 | `result.Values` has one value per entry, each at its entry's index in enumeration order |
| Sorting.Sort | efscriptgen/Program.cs:113 | `orderby` returns a permutation of its input |
| Sorting.InsertSorted | efscriptgen/Program.cs:113 | inserting into a sorted sequence keeps it sorted under a total preorder |
| Sorting.SortSorted | efscriptgen/Program.cs:113 | under a total preorder the result of `orderby` is sorted |
| Sorting.SortedUnique | efscriptgen/Program.cs:113 | under a total order two sorted permutations of one another are equal |
| Sorting.SortCanonical | efscriptgen/Program.cs:113 | under a total order the result of `orderby` depends only on the multiset of its input |
| Sorting.SortTwo | efscriptgen/Program.cs:150 | two elements out of order are swapped |
| Sorting.MapMultiset | efscriptgen/Program.cs:150-153 | `select` maps permutations of one another to permutations of one another |
| Sorting.Map | efscriptgen/Program.cs:95 | `from d in v select f(d)` has one element per input element, `f` of the element at the same index; `MapMultiset` and `SortedTokens` build on it |
| VariantsParser.ParseOption | efscriptgen/VariantsParser.cs:85-94 | definition: `part.Trim().Split("=")`, the first field trimmed as key, the second trimmed or `"1"` as value; its properties are in `ParseOptionMeaning` and `ParseOptionWellFormed` |
| VariantsParser.ParseOptionMeaning | efscriptgen/VariantsParser.cs:85-94 | a part without `=` is its trimmed text with value `"1"`, otherwise the trimmed first and second `=`-fields |
| VariantsParser.ParseOptionWellFormed | efscriptgen/VariantsParser.cs:85-94 | a part without `;` parses to an option whose name and value are trimmed and free of `=` and `;` |
| VariantsParser.ParseLevel | efscriptgen/VariantsParser.cs:80-95 | a level has one option more than its text has `;` |
| VariantsParser.ParseLevelWellFormed | efscriptgen/VariantsParser.cs:80-95 | every option of a parsed level is well formed |
| VariantsParser.ParseAll | efscriptgen/VariantsParser.cs:78-98 | one level per child, in document order |
| VariantsParser.ParseLevelOfNames | efscriptgen/VariantsParser.cs:80-95 | a `;`-join of plain names parses to those names with value `"1"`, in order |
| VariantsParser.ParsePart | efscriptgen/VariantsParser.cs:85-94 | the statements on one part compute `ParseOption` |
| VariantsParser.ParseParts | efscriptgen/VariantsParser.cs:83-95 | the loop over the parts adds one option per part, in order |
| VariantsParser.ParseChild | efscriptgen/VariantsParser.cs:80-95 | the level built for one child is `ParseLevel` of its text |
| VariantsParser.ParseLevels | efscriptgen/VariantsParser.cs:74-98 | the first run builds `ParseAll` of the children |
| VariantsParser.ExpandLevel | efscriptgen/VariantsParser.cs:32-56 | definition of one call of `BuildInternal`: the option loop from its first option; its properties are in `LevelCount`, `LevelPreserves`, `CleanLevelExpand` and `DefinesBuilder.BuildInternal` |
| VariantsParser.ExpandOptions | efscriptgen/VariantsParser.cs:34-56 | definition of the option loop from the `i`-th option: push unless `_`, descend, go on; its properties are in `OptionsCount`, `OptionsPreserve` and `CleanOptionsExpand` |
| VariantsParser.Descend | efscriptgen/VariantsParser.cs:41-55 | definition of what follows a push: the next level, or at the last level a stored snapshot and a pop of a non-empty path; its properties are in `DescendCount` and `CleanDescend` |
| VariantsParser.Pop | efscriptgen/VariantsParser.cs:51-54 | definition of `RemoveAt(Count - 1)` guarded by `Count > 0`, the only place the path shrinks; its properties are in `CleanDescend`, `LeafKeeps` and `LeakExample` |
| VariantsParser.Emit | efscriptgen/VariantsParser.cs:36-39 | definition of `if (pair.Key != "_") AddDefine(...)`: nothing for the placeholder, the option otherwise; its properties are in `NoPlaceholderKey` and `PushKeeps` |
| VariantsParser.LevelCount | efscriptgen/VariantsParser.cs:32-56 | expanding level `lv` appends exactly the product of the sizes of levels `lv..` to the results and keeps the earlier ones |
| VariantsParser.OptionsCount | efscriptgen/VariantsParser.cs:34-56 | the options from the `i`-th on append (options left) × (product of deeper levels) results |
| VariantsParser.DescendCount | efscriptgen/VariantsParser.cs:41-55 | what follows one push appends the product of the deeper levels' sizes |
| VariantsParser.Variants | efscriptgen/VariantsParser.cs:59-68 | `Build` fails with an index error exactly when there are no levels; otherwise it returns as many variants as the product of the level sizes |
| VariantsParser.LevelPreserves | efscriptgen/VariantsParser.cs:32-56 | a property of every non-placeholder option holds of every entry on the path and in every result stored |
| VariantsParser.OptionsPreserve | efscriptgen/VariantsParser.cs:34-56 | the same for the options from the `i`-th on |
| VariantsParser.NoPlaceholderKey | efscriptgen/VariantsParser.cs:36-39 | no variant has the key `_` |
| VariantsParser.VariantsWellFormed | efscriptgen/VariantsParser.cs:72-103 | every entry of every variant parsed from a descriptor is well formed |
| VariantsParser.CleanLevelExpand | efscriptgen/VariantsParser.cs:32-56 | on levels whose only `_` is their last option (`CleanLevel`), expanding a level appends the snapshots of the path extended by each combination of the remaining levels, then pops once |
| VariantsParser.CleanDescend | efscriptgen/VariantsParser.cs:41-55 | the same for what follows a push |
| VariantsParser.CleanOptionsExpand | efscriptgen/VariantsParser.cs:34-56 | the same for the options from the `i`-th on |
| VariantsParser.CleanVariants | efscriptgen/VariantsParser.cs:59-68 | on levels whose only `_` is their last option (`CleanLevel`), `Build` returns the snapshots of the cartesian product of the levels, in level-major order |
| VariantsParser.SingleLeaf | efscriptgen/VariantsParser.cs:47-55 | a last level with one real option stores the path extended by it, then pops back to the path |
| VariantsParser.LeakExample | efscriptgen/VariantsParser.cs:32-56 | levels `A;B` and `C` yield `{A, C}` then `{A, B, C}` |
| VariantsParser.OrderExample | efscriptgen/VariantsParser.cs:32-56 | levels `TEXTURE;_` and `SKINNING=2;_` yield `{TEXTURE, SKINNING=2}`, `{TEXTURE}`, `{SKINNING=2}`, `{}` in this order |
| VariantsParser.BinaryChoices | efscriptgen/VariantsParser.cs:32-56 | the combinations of one `NAME;_` level per name are the subsequences of the names |
| VariantsParser.SubsequencesFacts | efscriptgen.Tests/Tests.cs:22-43 | there are 2ⁿ subsequences of `n` options, each made of those options |
| VariantsParser.FilterIsSubsequence | efscriptgen.Tests/Tests.cs:22-43 | keeping the options whose names are in a set gives one of the subsequences |
| VariantsParser.FilterKeys | efscriptgen.Tests/Tests.cs:22-43 | that subsequence has exactly the names in both |
| VariantsParser.SubsequencesDistinct | efscriptgen.Tests/Tests.cs:46-66 | options with distinct names give subsequences with pairwise different name sets |
| VariantsParser.BinaryVariants | efscriptgen/VariantsParser.cs:59-68 | `Build` on binary levels returns the snapshots of the subsequences |
| VariantsParser.BinaryLevelsGiveEachSubset | efscriptgen.Tests/Tests.cs:14-70 | on binary levels of distinct names there are 2ⁿ variants, every subset of the names is the key set of one, no two share a key set, and every entry is one of the options |
| VariantsParser.DefinesBuilder.constructor | efscriptgen/VariantsParser.cs:11-14 | a new builder has an empty path and no results |
| VariantsParser.DefinesBuilder.AddDefine | efscriptgen/VariantsParser.cs:16-19 | appends the pair to the path |
| VariantsParser.DefinesBuilder.StoreResult | efscriptgen/VariantsParser.cs:21-30 | appends the snapshot of the path to the results |
| VariantsParser.DefinesBuilder.BuildInternal | efscriptgen/VariantsParser.cs:32-57 | leaves the level cursor as it found it, and leaves path and results as `ExpandLevel` of the old ones; each iteration of its loop is one step of `ExpandOptions` (by `OptionsStep`) |
| VariantsParser.DefinesBuilder.Build | efscriptgen/VariantsParser.cs:59-68 | a null list throws and changes nothing; no levels throws an index error; otherwise returns the expansion of level 0 from an empty result list |
| VariantsParser.FromXml | efscriptgen/VariantsParser.cs:72-103 | parsing then building returns `Variants(ParseAll(children))` |
| VariantsParser.BinaryChildLevel | efscriptgen/VariantsParser.cs:80-95 | the child `NAME;_` parses to `NAME` and `_`, both with value `"1"` |
| VariantsParser.BinaryChildrenLevels | efscriptgen/VariantsParser.cs:78-98 | children `NAME;_` parse to the binary levels of the names |
| VariantsParser.BinaryChildrenSubsets | efscriptgen.Tests/Tests.cs:14-70 | a descriptor of `NAME;_` children over distinct plain names yields 2ⁿ variants covering every subset of the names |
| VariantsParser.EffectNamesPlain | efscriptgen.Tests/Tests.cs:22-43 | the test's four names are distinct, trimmed and free of `=` and `;`, and none is the placeholder `_` |
| VariantsParser.EffectSubsets | efscriptgen.Tests/Tests.cs:14-70 | the test's descriptor yields 16 variants, and each subset of `TEXTURE`, `LIGHTNING`, `CLIP_PLANE`, `SKINNING` is the key set of one |
| Program.OutputSubfolder | efscriptgen/Program.cs:48-59 | each output type has its own folder name: `MonoGameDX11`, `MonoGameOGL`, `FNA` |
| Program.Token | efscriptgen/Program.cs:95 | definition: the key when the value is `"1"`, else `key=value`; its properties are in `TokenSplit`, `TokenRoundTrip` and `TokenParts` |
| Program.VariantString | efscriptgen/Program.cs:95 | definition: the tokens joined by `;` in dictionary order; its properties are in `VariantStringRoundTrip` and `SortedTokens` |
| Program.TokenSplit | efscriptgen/Program.cs:95 | the token of a well-formed entry has no `;` and no white space at its ends; it is the bare key for value `"1"` and splits at `=` into key and value otherwise |
| Program.TokenRoundTrip | efscriptgen/Program.cs:95 | parsing an entry's token as an option gives the entry back |
| Program.VariantStringRoundTrip | efscriptgen/Program.cs:95 | the variant string of a non-empty well-formed dictionary splits into its tokens and parses back into the dictionary |
| Program.SortedDefines | efscriptgen/Program.cs:113 | a variant has one define more than it has `;` |
| Program.DefineParts | efscriptgen/Program.cs:116 | a define has at least one part |
| Program.Underscored | efscriptgen/Program.cs:117-121 | definition: `_` before each part, in order; its properties are in `UnderscoredAppend` and `AppendParts` |
| Program.DefinesPostfix | efscriptgen/Program.cs:114-122 | definition: the underscored parts of each define, in order; its properties are in `DefinesPostfixPair` and `BuildPostfix` |
| Program.Postfix | efscriptgen/Program.cs:110-126 | definition: empty for the empty variant, else the underscored parts of the sorted defines; its properties are in `PostfixCanonical`, `PostfixOfTwo` and `PostfixExample` |
| Program.AppendParts | efscriptgen/Program.cs:117-121 | the loop over the parts appends `_` and the part for each, in order |
| Program.BuildPostfix | efscriptgen/Program.cs:110-123 | the postfix loop computes `Postfix`: empty for the empty variant, else the parts of the sorted defines, each after `_` |
| Program.TokenParts | efscriptgen/Program.cs:116 | a well-formed entry's token has the parts key, or key and value |
| Program.UnderscoredAppend | efscriptgen/Program.cs:114-121 | the postfix of two lists of parts is the two postfixes one after the other |
| Program.SortedTokens | efscriptgen/Program.cs:113 | the sorted defines of a variant string are the sorted tokens of its dictionary |
| Program.PostfixCanonical | efscriptgen/Program.cs:110-123 | under a total order the postfix depends only on the entries of the dictionary, not on their order |
| Program.DefinesPostfixPair | efscriptgen/Program.cs:114-121 | the postfix of two defines is that of their parts taken together |
| Program.TwoDefines | efscriptgen/Program.cs:113 | two tokens out of order come out of the sort swapped |
| Program.PostfixOfTwo | efscriptgen/Program.cs:110-126 | a plain entry `t` after a valued entry `s` in the order gives the postfix `_s.key_s.value_t.key` |
| Program.PostfixExample | efscriptgen/Program.cs:110-126 | `{TEXTURE, SKINNING=2}` has the postfix `_SKINNING_2_TEXTURE` when `SKINNING=2` sorts first |
| Program.Profile | efscriptgen/Program.cs:136 | definition: `DirectX_11` for MonoGame DirectX 11, `OpenGL` otherwise; used by `ModernCommand` |
| Program.ModernCommand | efscriptgen/Program.cs:134-141 | definition: `mgfxc "<src>" "<out>" /Profile:<profile>`, then ` /Defines:<variant>` unsorted when the variant is not empty; its properties are in `ModernCommandInjective` and `FileWithoutDescriptor` |
| Program.Switch | efscriptgen/Program.cs:153-161 | definition: ` /D name=1` for a define of one part, else ` /D name=value`; its properties are in `SwitchOfToken` and `AppendSwitch` |
| Program.Switches | efscriptgen/Program.cs:151-162 | definition: the switches of the defines, in order; its properties are in `SwitchesConcat`, `LegacySwitches` and `AppendSwitches` |
| Program.LegacyCommand | efscriptgen/Program.cs:145-163 | definition: `fxc "<src>" /Fo "<out>" /T:fx_2_0`, then the switches of the sorted defines; its properties are in `LegacySwitches` and `FileWithoutDescriptor` |
| Program.CommandLine | efscriptgen/Program.cs:129-164 | definition: the MonoGame command for MonoGame output types, the `fxc` command for FNA; its properties are in `BuildCommandLine` |
| Program.SwitchesConcat | efscriptgen/Program.cs:151-162 | the switches are the concatenation of one switch per define |
| Program.AppendSwitch | efscriptgen/Program.cs:153-161 | appends ` /D name=1` for a define without value, ` /D name=value` otherwise |
| Program.AppendSwitches | efscriptgen/Program.cs:151-162 | the `/D` loop appends the switches of all defines in order, one `Switch` per iteration (by `SwitchesStep`) |
| Program.BuildCommandLine | efscriptgen/Program.cs:129-164 | the command built is `CommandLine`: `mgfxc` with the profile and `/Defines:` of the unsorted variant for MonoGame, `fxc` with `/T:fx_2_0` and the sorted `/D` switches for FNA |
| Program.ModernCommandInjective | efscriptgen/Program.cs:134-141 | two MonoGame commands for the same files and output type are equal only for equal variants |
| Program.SwitchOfToken | efscriptgen/Program.cs:153-161 | the switch of an entry's token is ` /D key=value`, with `1` made explicit |
| Program.TokenSwitches | efscriptgen/Program.cs:150-161 | the switches of the tokens of a dictionary are those of its entries |
| Program.LegacySwitches | efscriptgen/Program.cs:148-163 | the FNA switches of a variant are one per entry, a permutation of the entries' switches |
| Program.Lines | efscriptgen/Program.cs:166-167 | each command is followed by the `errorlevel` guard |
| Program.Guard | efscriptgen/Program.cs:167 | definition of the line `@if %errorlevel% neq 0 exit /b %errorlevel%`; its properties are in `Lines` and `SingleScript` |
| Program.AppendLines | efscriptgen/Program.cs:166-167 | definition of `sb.AppendLine` applied to each line in turn: the line then the terminator; its properties are in `AppendTwoLines`, `SingleScript` and `BuildScript` |
| Program.Command | efscriptgen/Program.cs:125-164 | definition of the command of one variant: `CommandLine` of the full effect path and `OutputFile`; its properties are in `Commands` and `SingleScript` |
| Program.OutputFile | efscriptgen/Program.cs:125-127 | definition: the effect's base name and the postfix, with the extension changed, in the output folder; `FileWithoutDescriptor` states it for the empty variant |
| Program.ScriptText | efscriptgen/Program.cs:107-168 | definition: each command and the guard, each line followed by the line terminator; its properties are in `Lines`, `SingleScript` and `BuildScript` |
| Program.Commands | efscriptgen/Program.cs:108-164 | one command per variant, in order |
| Program.SubFolder | efscriptgen/Program.cs:71-75 | fails exactly when the input folder is longer than the effect's directory |
| Program.SubFolderOfNested | efscriptgen/Program.cs:71-75 | an effect in `inputFolder` + separator + `rest` has sub-folder `rest`; one in the input folder itself has none |
| Program.VariantList | efscriptgen/Program.cs:88-105 | without a descriptor there is exactly one, empty, variant |
| Program.FileWithDescriptor | efscriptgen/Program.cs:88-98 | a descriptor without levels fails; otherwise there is one variant string per dictionary, as many as the product of the level sizes, and each non-empty one parses back into its dictionary |
| Program.OutputFolder | efscriptgen/Program.cs:67-80 | definition: `<full input folder>/<output subfolder>/bin`, then the sub-folder when it is not empty; used by `FileEntry` |
| Program.BaseId | efscriptgen/Program.cs:99-104 | definition: the descriptor's base name when it exists, else the effect's; used by `FileEntry` |
| Program.FileEntry | efscriptgen/Program.cs:64-173 | definition: the flattened id and the script text of one effect, or the first error; its properties are in `BuildFileEntry`, `FileWithoutDescriptor` and `FileEntryErrors` |
| Program.FlattenId | efscriptgen/Program.cs:170-172 | the id keeps its length and every other character, and each `\` and `/` becomes `_` |
| Program.BuildScript | efscriptgen/Program.cs:107-168 | the loop over the variants builds `ScriptText`: command, guard, command, guard, …; each iteration adds one command and the guard, each with its line terminator (by `LinesStep` and `AppendTwoLines`) |
| Program.BuildVariants | efscriptgen/Program.cs:93-97 | one variant string per dictionary, in order |
| Program.BuildFileEntry | efscriptgen/Program.cs:64-173 | the body of the loop over the files computes `FileEntry`, its errors included |
| Program.FileWithoutDescriptor | efscriptgen/Program.cs:101-168 | an effect without descriptor gets one command without defines and the guard, filed under its flattened sub-folder and base name |
| Program.SingleScript | efscriptgen/Program.cs:107-168 | one variant gives its command, a line terminator, the guard and a line terminator |
| Program.EntriesFailureStays | efscriptgen/Program.cs:64-174 | once a file fails, the result of the loop is that failure |
| Program.EntriesSnapshot | efscriptgen/Program.cs:63-174 | when no file fails, the scripts are the snapshot of the files' (id, script) pairs |
| Program.ScriptsOfFiles | efscriptgen/Program.cs:173-176 | the ids are the files' ids without repeats; a repeated id keeps the last file's script; `all` joins the scripts with line terminators and is added last unless a file has that id |
| Program.FileEntryErrors | efscriptgen/Program.cs:64-105 | a file fails for one output type exactly when it fails for another, with the same error and the same id |
| Program.EntriesErrors | efscriptgen/Program.cs:64-174 | the loop over the files fails for one output type exactly when it fails for another, with the same error |
| Program.Entries | efscriptgen/Program.cs:63-174 | definition: each file's id assigned its script in turn, stopping at the first error; its properties are in `EntriesFailureStays`, `EntriesSnapshot`, `EntriesErrors` and `BuildEntries` |
| Program.Scripts | efscriptgen/Program.cs:176 | definition: the entries with `all` assigned the join of their values by line terminators; its properties are in `ScriptsOfFiles` |
| Program.ProcessOutput | efscriptgen/Program.cs:61-185 | definition: the scripts of one output type as written files; its properties are in `Process` and `ScriptFiles` |
| Program.ScriptFiles | efscriptgen/Program.cs:178-184 | one file `compile_<id>.bat` per script in the output type's folder, with the script as its text |
| Program.BuildEntries | efscriptgen/Program.cs:63-174 | the loop over the files computes `Entries`: each file either stops the loop with its error or assigns its script to its id (by `EntriesStep`) |
| Program.WriteScripts | efscriptgen/Program.cs:178-184 | the writing loop writes `ScriptFiles` in dictionary order |
| Program.Process | efscriptgen/Program.cs:61-185 | `Process(inputFolder, files, outputType)` computes `ProcessOutput` |
| Program.Generate | efscriptgen/Program.cs:303-311 | definition: nothing without `.fx` files, else the three output types in turn until one fails; its properties are in `GenerateAllOrNothing` and `GenerateAll` |
| Program.GenerateAll | efscriptgen/Program.cs:303-311 | nothing when there is no `.fx` file, otherwise the three output types in turn until one throws |
| Program.GenerateAllOrNothing | efscriptgen/Program.cs:303-311 | with effects, a run either fails on the first output type with the first file's error and writes nothing, or writes the scripts of all three |
| Program.Message | efscriptgen/Program.cs:192 | definition of the two exception texts (Program.cs:192 and Program.cs:232); its properties are in `ArgErrorMessages` |
| Program.Scan | efscriptgen/Program.cs:213-228 | definition of the argument loop from the current argument on; its properties are in `ScanAppend`, `ExtensionConsumesNext`, `ExtensionMissing`, `OtherFlagIgnored`, `LastPlainArgument` and `LastPlainAmongFlags` |
| Program.ParseArgs | efscriptgen/Program.cs:198-233 | definition: usage for no arguments, else the loop and the unset-folder error; its properties are in `ProcessArgs`, `OnlyFlags` and `ArgErrorMessages` |
| Program.ParseString | efscriptgen/Program.cs:187-196 | advances the index; fails with the option's name exactly when no argument follows, otherwise returns the next argument |
| Program.ProcessArgs | efscriptgen/Program.cs:198-233 | the argument loop computes `ParseArgs`: usage for no arguments, the last plain argument as input folder, the value of the last `-e` |
| Program.ScanAppend | efscriptgen/Program.cs:213-228 | the loop over a concatenation is the loop over the second part from where the first left off |
| Program.ExtensionConsumesNext | efscriptgen/Program.cs:220-222 | `-e` takes the next argument as the extension and skips it |
| Program.ExtensionMissing | efscriptgen/Program.cs:187-193 | `-e` as the last argument throws `Value isn't provided for 'e'` |
| Program.OtherFlagIgnored | efscriptgen/Program.cs:216-223 | any other argument starting with `-` is skipped |
| Program.LastPlainArgument | efscriptgen/Program.cs:224-227 | among plain arguments the last one is the input folder |
| Program.LastPlainAmongFlags | efscriptgen/Program.cs:213-228 | with flags mixed in, a plain argument that is not the value of `-e` (the loop up to it succeeded) and is followed only by flags other than `-e` is the input folder |
| Program.OnlyFlags | efscriptgen/Program.cs:230-233 | arguments that are all flags other than `-e` leave the input folder unset, which throws |
| Program.ArgErrorMessages | efscriptgen/Program.cs:187-233 | `-e` with no value ends in `Value isn't provided for 'e'`, a flag alone in `Input folder isn't set` |

## Left out

- XML parsing is not modelled. `FromXml` takes the texts of the root's children
  in document order; `XDocument.Parse` and `.Value` are not part of this model.
- File I/O is not modelled. Reading descriptors, `Directory.Exists` and
  `Directory.CreateDirectory` are left out. So are `File.Exists` on the
  descriptor (a field of `FilePair`) and `File.WriteAllText` (the written files
  are returned as values).
- Scripts are written one after the other. The model returns all of an output
  type's files or none, so it does not capture a run that stops after some
  files are written.
- Effect discovery (`Directory.EnumerateFiles`) and the resolution of
  standalone descriptors through their `File` attribute are left out. They are
  I/O and XML. `GenerateAll` takes the list of files and the number of `.fx`
  files found.
- The `Path` functions, `Environment.NewLine` and the culture-sensitive string
  comparer are parameters. The properties that need it assume that the comparer
  is a total order or preorder.
- Program.SubFolder: `GetDirectoryName` returning `null` is not modelled. Its
  result is always a string.
- Program.OutputFile: `ChangeExtension` is a parameter, so the model does not
  show that a `.` inside a postfix value would be cut off as an extension.
- Strings are sequences of Unicode scalar values, not of UTF-16 code units.
  Lengths such as `|inputFolder|` in `SubFolder` count characters where
  `Substring(inputFolder.Length)` counts code units; the two agree whenever
  the effect lies under the input folder, which discovery guarantees.
- Program.ProcessArgs: `StartsWith("-")` is taken as an ordinal prefix test.
  The culture-sensitive comparison .NET makes is not modelled.
- `Options` (with the default extension `efb`), `Version`, console logging, the
  usage text and `Main`'s catch-all are output or exception plumbing. They are
  left out.
- The check that the input folder exists is I/O and is left out.
- The test's resource `DefaultEffect.xml` is not part of this model. Its four
  children are taken as `TEXTURE;_`, `LIGHTNING;_`, `CLIP_PLANE;_` and
  `SKINNING;_`, the defines the test looks for.
- Tests.cs matches a variant by its size and by `ContainsKey`. The model states
  the stronger fact that the variant's key set equals the subset.
