# tackle core, modelled in Dafny

tackle is a YAML-driven code generator and DSL: documents hold hook calls (`key->: hook args`),
declarative hooks are written as dictionaries of fields, and a set of built-in hooks reads and
writes the context the parser threads through a document. This project models the pieces of that
machinery that are self-contained:

- the compact hook-call argument unpacker (`strip_dashes`, `assert_if_flag`,
  `unpack_args_kwargs_list`);
- the declarative-hook macros that rewrite field definitions into field descriptors
  (`update_default_factory_hook_fields` through `hook_macros`);
- the legacy cookiecutter operator walker (`run_operator`, `parse_operator`);
- the path and source classifiers (`expand_abbreviations`, `is_repo_url`, `is_file`, the tackle-base
  search and `is_directory_with_tackle`);
- the context hooks `get`, `set`, `update` and `return`, and the string hooks `split` and `join`;
- the render-context merge, the `copy_without_render` normalisation and the copy-only check of the
  `generate` hook;
- the `select` prompt hook's choice mapping;
- the alias, default and validator tables of `tackle/models.py`.

Documents are the `Document.Doc` datatype (null, bool, int, float, string, list, map, and an
opaque default-factory executor). Dictionaries whose iteration order the code observes are
sequences of entries. Everything outside the shown code becomes a parameter: Jinja rendering,
operator execution, the filesystem, path existence, prompt answers and the iteration order of
rendered maps.

`encode_key_path`, `nested_get` and `nested_set` are not part of this model's source files.
`KeyPaths` gives them the following definitions, which the context hooks rely on:

- a string path is split on the separator into keys;
- a list path keeps its string keys and integer indexes;
- `nested_get` walks maps by key and lists by index, and a missing key raises `KeyError`;
- `nested_set` creates missing map keys as empty maps and refuses an empty path.

Modules, one per source file: `Wrappers` and `Document` (shared), `Command`, `CommandExamples`,
`HookMacros`, `Operator`, `Paths`, `KeyPaths`, `Strings`, `ContextHooks`, `Generate`, `Select`,
`HookModels`. Operations that change state in the source are methods of classes:

- `HookMacros.FieldDict` and `HookMacros.HookInputDict` for the dictionaries the macros pop and
  assign;
- `Operator.OperatorWalk` for the operator and cookiecutter dictionaries;
- `ContextHooks.Context` for the context partitions and the break flag;
- `Generate.GenerateHook` and `Select.SelectHook` for the hook fields those methods reassign.

Each method is proved equal to a specification function, and the properties are proved about that
function.

## Model

| member | source | states |
|---|---|---|
| Command.MarkRunIsLeadingMarks | tackle/utils/command.py:55-60 | the length of the leading run of `-`/`\|` characters: every character before it is a mark, the one after is not |
| Command.AssertIfFlagMatchesPattern | tackle/utils/command.py:55-60 | `assert_if_flag` holds iff the string starts with one or more of `-`/`\|` followed by an ASCII letter or digit (the class `[\-\|\-\-]` admits `\|`) |
| Command.StripDashes | tackle/utils/command.py:10-14 | the loop removing leading dashes returns exactly the dash-stripped string |
| Command.StrippedIsDashFreeSuffix | tackle/utils/command.py:10-14 | the result is a suffix of the input, only dashes were removed, and it does not start with `-` |
| Command.StripDashesIdempotent | tackle/utils/command.py:10-14 | stripping twice equals stripping once |
| Command.SentinelIsFlag | tackle/utils/command.py:79-83 | the look-ahead sentinel `--hack` is flag-shaped, so a last flag token is a flag |
| Command.UnpackFlagStep | tackle/utils/command.py:85-92 | a flag token followed by a flag-shaped string (or standing last) is recorded as a stripped flag and one token is consumed |
| Command.UnpackKeywordStep | tackle/utils/command.py:93-100 | a flag token followed by a non-flag token reads that next token as the value of the stripped name and consumes two tokens |
| Command.UnpackArgStep | tackle/utils/command.py:101-106 | a non-string or non-flag token is appended to the args |
| Command.UnpackArgsKwargsList | tackle/utils/command.py:63-109 | the while loop's args, kwargs and flags equal those of the token-by-token specification, with later kwargs overwriting earlier ones |
| Command.UnpackConsumesEveryToken | tackle/utils/command.py:74-108 | \|args\| + \|flags\| + 2 · \|kwarg assignments\| equals the number of tokens |
| Command.ArgsAreNonFlagTokensInOrder | tackle/utils/command.py:101-106 | every arg is a non-flag token, and the args are a subsequence of the input tokens, in their input order |
| Command.ArgsAreSubsequence | tackle/utils/command.py:101-106 | the args appear in the token list in the same order |
| Command.NoFlagTokensAllArgs | tackle/utils/command.py:101-106 | without flag tokens all tokens are args, in input order |
| Command.FlagNamesStripped | tackle/utils/command.py:92 | recorded flag names never start with `-` |
| Command.KeywordNamesStripped | tackle/utils/command.py:95-99 | keyword argument names never start with `-` |
| Command.TrailingFlagRecorded | tackle/utils/command.py:79-92 | a flag token standing last becomes the last recorded flag |
| Command.ToMapLastWins | tackle/utils/command.py:95-99 | a kwarg name's value is that of its last assignment |
| Command.ToMapKeys | tackle/utils/command.py:95-99 | the kwargs keys are exactly the assigned names |
| CommandExamples.DashedWord | tackle/utils/command.py:55-60 | a plain word is not flag-shaped; `--word` is, and strips to the word |
| CommandExamples.UnpackIfExample | tests/utils/test_utils_command.py:42-58 | `this --if "expanded == 'that'"` yields args `[this]`, kwargs `{if: expanded == 'that'}` and no flags |
| CommandExamples.CountTableRow1 | tests/utils/test_utils_command.py:7-16 | `foo bar --baz` yields two args and the flag `baz` |
| CommandExamples.CountTableRow2 | tests/utils/test_utils_command.py:7-16 | `foo --bar baz --foo` yields one arg, kwarg `bar: baz` and flag `foo` |
| CommandExamples.CountTableRow3Tail | tests/utils/test_utils_command.py:7-16 | the tail `--foo bar --bing --baz bling` yields two kwargs and the flag `bing` |
| CommandExamples.CountTableRow3 | tests/utils/test_utils_command.py:7-16 | `foo bar --foo bar --bing --baz bling` yields two args, two kwargs and one flag |
| HookMacros.FirstPresent | tackle/macros/hook_macros.py:74-75 | the position of the first default-factory key present in the field, and none before it is present |
| HookMacros.FirstPresentUnique | tackle/macros/hook_macros.py:74-85 | any position meeting that description is the one found |
| HookMacros.FactoryArrowShape | tackle/macros/hook_macros.py:47-54 | the matched key is one of `default->`, `default_>`, `default_factory->`, `default_factory_>`, `->`, `_>` |
| HookMacros.DefaultFactoryUpdated | tackle/macros/hook_macros.py:74-85 | a field without any arrow key is unchanged |
| HookMacros.DefaultFactoryUpdatedMoves | tackle/macros/hook_macros.py:76-85 | the first arrow key's value moves to `default_factory`, the key is removed, and `exclude` is set to true iff the key ends in `_>` |
| HookMacros.DefaultFactoryUpdatedConflict | tackle/macros/hook_macros.py:76-81 | with an existing `default_factory` the arrow key is popped and nothing else changes |
| HookMacros.OnlyFirstArrowMoves | tackle/macros/hook_macros.py:74-85 | arrow keys after the first present one keep their values |
| HookMacros.UpdateDefaultFactoryHookFields | tackle/macros/hook_macros.py:57-85 | the field dictionary becomes the updated field, and `MalformedHookFieldException` is raised exactly on the conflict |
| HookMacros.HasWholeArrow | tackle/macros/hook_macros.py:105 | testing `->`/`_>` membership fails on anything but a list or a map |
| HookMacros.Expanded | tackle/macros/hook_macros.py:97-110 | no `default_factory` leaves the field; a string factory becomes `{key->: s, return->: {{key}}}`; other keys are untouched; a factory that is not a string, list or map raises |
| HookMacros.ExpandedNestsArrowFactory | tackle/macros/hook_macros.py:105-110 | a map factory holding `->` or `_>` is nested under `key` next to `return->: {{key}}` |
| HookMacros.ExpandDefaultFactory | tackle/macros/hook_macros.py:88-110 | the method leaves the field equal to the expanded field, or unchanged with the same error |
| HookMacros.InferredTypeName | tackle/macros/hook_macros.py:117-125 | loader floats, sequences and maps are named `float`, `list` and `dict`; other values keep their runtime type name |
| HookMacros.TypeInferred | tackle/macros/hook_macros.py:113-128 | an existing `type` is never overwritten; `default` gives its inferred type and wins over `default_factory`; a factory-only field gets `Any`; other keys are untouched |
| HookMacros.InferTypeFromDefault | tackle/macros/hook_macros.py:113-128 | the method leaves the field equal to the inferred field |
| HookMacros.TypeInferredAsWrittenRaises | tackle/macros/hook_macros.py:115-122 | as written, a field with a `default` and no `type` raises `NameError` because `ScalarFloat` is undefined; corrected, `{default: 1}` gets `type: int` |
| HookMacros.AnyKeyIn | tackle/macros/hook_macros.py:144-147 | the loop answer is true iff some listed key is present |
| HookMacros.IsField | tackle/macros/hook_macros.py:132-147 | a value is a field iff it has `type`, `default`, `default_factory` or `enum` |
| HookMacros.DefaultFactoryCreated | tackle/macros/hook_macros.py:150-179 | the value itself (when it is the factory) or the popped `default_factory` (a list or a map) becomes an executor under `default_factory`; a missing key raises `KeyError`, anything else `MalformedHookFieldException` |
| HookMacros.CreateDefaultFactory | tackle/macros/hook_macros.py:150-179 | the method's new field and outcome are those of the specification |
| HookMacros.DictFieldMacro | tackle/macros/hook_macros.py:183-222 | the corrected macro fails exactly when the arrow update conflicts or the factory cannot be expanded |
| HookMacros.DictFieldMacroYieldsTypedField | tackle/macros/hook_macros.py:202-221 | its result is always a field, typed whenever it has a default or factory, and keeps a given `type` |
| HookMacros.DictFieldMacroAsWrittenDropsFields | tackle/macros/hook_macros.py:211-222 | as written, a value that is already a field yields `None`; a plain dict yields the corrected result |
| HookMacros.DictFieldHookMacro | tackle/macros/hook_macros.py:183-222 | the method returns the corrected macro's result and leaves the dictionary equal to it |
| HookMacros.StrFieldMacro | tackle/macros/hook_macros.py:231-235 | a non-string value raises `MalformedHookFieldException` |
| HookMacros.StrFieldSeedArrow | tackle/macros/hook_macros.py:236-241 | the seed `{default_factory<arrow>: s}` moves its value without conflict |
| HookMacros.StrFieldMacroArrowForm | tackle/macros/hook_macros.py:225-241 | `name->: s` becomes `{default_factory: executor of {name->: s, return->: {{name}}}, type: Any}`, plus `exclude: true` for `_>` |
| HookMacros.StrFieldMacroAsWrittenLosesField | tackle/macros/hook_macros.py:225-241 | as written, every string field hook yields `None` |
| HookMacros.StrFieldHookMacro | tackle/macros/hook_macros.py:225-241 | the method returns the corrected macro's result |
| HookMacros.TranslateEntry | tackle/macros/hook_macros.py:259-287 | an arrow key with a non-string value is the only error (`UnknownInputArgumentException`); otherwise the entry is stored as a map under its name without the arrow (a method under its arrow) |
| HookMacros.TranslateEntryBranches | tackle/macros/hook_macros.py:259-287 | a method key `k<-`/`k<_` is stored under its arrow as `{arrow: v}`; an arrow key `k->`/`k_>` with a string is stored under `k` as `{default: v, exclude: (arrow is _>), parse_keys: [default]}`; a plain key keeps its name and holds `{type: Any, default: None}` for None, `{type: v}` for a literal type name, a map as given, and otherwise `{type: <runtime type name>, default: v}` |
| HookMacros.TranslateEntryAsWrittenRaises | tackle/macros/hook_macros.py:278 | as written, `name: str` raises `NameError` because `LITERAL_TYPES` is undefined; with a table holding `str` it becomes `{type: str}` |
| HookMacros.Lookup | tackle/macros/hook_macros.py:256 | a key is found iff some entry has it |
| HookMacros.WithoutKey | tackle/macros/hook_macros.py:257 | popping a key leaves no entry with that key |
| HookMacros.TranslateStoresMappings | tackle/macros/hook_macros.py:259-287 | every key the loop writes holds a map, and keys it does not write keep their earlier values |
| HookMacros.TranslateKeys | tackle/macros/hook_macros.py:259-287 | the loop's keys are the earlier keys plus the stored key of each entry; a key no entry is stored under keeps its earlier value |
| HookMacros.TranslateLastWriter | tackle/macros/hook_macros.py:259-287 | a key holds the descriptor of the last entry stored under it |
| HookMacros.TranslateFailsOnNonStringArrow | tackle/macros/hook_macros.py:263-268 | the loop fails iff some entry has an arrow key with a non-string value |
| HookMacros.HookDictMacroStoresMappings | tackle/macros/hook_macros.py:248-289 | every key of the rewritten definition holds a map, except `exec<-`, which holds the popped `exec` value |
| HookMacros.HookDictMacroKeepsExec | tackle/macros/hook_macros.py:256-257 | a popped `exec` is found under `exec<-` unless another field is stored under that key |
| HookMacros.HookDictMacroLastWins | tackle/macros/hook_macros.py:248-289 | each key of the rewritten definition holds the descriptor of the last raw field stored under it |
| HookMacros.TranslateStep | tackle/macros/hook_macros.py:259-287 | one loop iteration stores the translated entry and continues |
| HookMacros.HookDictMacro | tackle/macros/hook_macros.py:248-289 | the method returns the specification's result, and `exec` has been popped from the raw input |
| HookMacros.WithoutKeyAbsent | tackle/macros/hook_macros.py:256-257 | without an `exec` key the raw input is unchanged |
| HookMacros.StrHookMacro | tackle/macros/hook_macros.py:292-300 | the result holds `tmp_in->: s` and has distinct keys |
| HookMacros.StrHookMacroDeclaresTwoFields | tackle/macros/hook_macros.py:292-300 | rewritten as a dictionary, the string form declares the fields `tmp_in` and `tmp_out` with string defaults |
| HookMacros.HookMacrosSpec | tackle/macros/hook_macros.py:303-313 | strings take the string form; a dictionary gives the definition `hook_dict_macro` rewrites it to, or its error; anything else raises |
| HookMacros.HookMacrosDictBranch | tackle/macros/hook_macros.py:310-311 | as written, every dictionary raises `NameError`; the corrected dispatch succeeds |
| HookMacros.WithoutKeyKeepsOthers | tackle/macros/hook_macros.py:256-257 | popping a key keeps only entries of the input |
| Operator.LastHandler | cookiecutter/operator.py:19-27 | the last registered class handling the type with a given post-generation flag, none after it |
| Operator.RunOperatorIsLastHandler | cookiecutter/operator.py:12-29 | the output is the execution of the last matching ordinary class, and the delayed operator is the last matching post-generation class, not executed |
| Operator.RunOperatorNoMatch | cookiecutter/operator.py:16-29 | no matching type gives `(None, None)` |
| Operator.RunOperatorMissingType | cookiecutter/operator.py:20 | an operator without `type` raises `KeyError` when any class is registered |
| Operator.RunOperatorStep | cookiecutter/operator.py:19-27 | one loop iteration is one step of the specification |
| Operator.RunOperator | cookiecutter/operator.py:12-29 | the method's loop computes the specification's result |
| Operator.Iterate | cookiecutter/operator.py:68 | a list iterates its items, a string its characters; anything other than a list, string or map cannot be iterated |
| Operator.ParseBody | cookiecutter/operator.py:85-101 | only `key` of the cookiecutter dict changes, the operators are kept, and `append_key` returns the value at `key` |
| Operator.ParseOperatorPlain | cookiecutter/operator.py:57-59 | without `when` or `loop`, parsing is rendering and dispatch |
| Operator.LoopCollectsOnePerTarget | cookiecutter/operator.py:67-80 | the loop adds exactly one output per target after the earlier outputs, keeps the operators, and leaves `item` bound |
| Operator.LoopSplit | cookiecutter/operator.py:67-80 | looping over the targets is looping over the first k of them and then over the rest from the state they leave |
| Operator.LoopElement | cookiecutter/operator.py:67-80 | output k is the value `key` takes when the operator is parsed with `item` bound to target k, in the state the first k targets leave |
| Operator.LoopResult | cookiecutter/operator.py:61-83 | after a loop, `key` holds the list of the loop's per-target outputs, one per target, `item` is removed, the whole dict is returned, and `when` and `loop` are popped from the operator |
| Operator.WhenFalseLeavesDict | cookiecutter/operator.py:44-59 | a `when` that does not render to `True` returns the cookiecutter dict unchanged and pops `when` |
| Operator.PlainResult | cookiecutter/operator.py:85-98 | without input the key gets the operator's default or the rendered operator; with input it gets the operator output and a post-generation operator is queued |
| Operator.OperatorWalk.ParseOperator | cookiecutter/operator.py:32-103 | the method's new state and return value are those of the specification |
| Operator.OperatorWalk.ExpandLoop | cookiecutter/operator.py:67-80 | the method's loop computes the specification's state and list |
| Operator.OperatorWalk.RenderAndRun | cookiecutter/operator.py:85-101 | the method's new state and return value are those of the rendering-and-dispatch specification |
| Paths.CloseBrace | tackle/utils/paths.py:114 | the position found holds `}` |
| Paths.FormatBraceFree | tackle/utils/paths.py:114 | `str.format` leaves a brace-free string unchanged |
| Paths.FormatManualFieldFirst | tackle/utils/paths.py:114 | `{0}` at the start is replaced by the argument |
| Paths.FormatAutoFieldFirst | tackle/utils/paths.py:114 | `{}` at the start is replaced by the argument |
| Paths.FormatOneField | tackle/utils/paths.py:114 | a template with one `{}` or `{0}` between brace-free parts formats to the parts around the argument |
| Paths.Partition | tackle/utils/paths.py:112 | `partition(':')` splits at the first colon, or gives the whole template and an empty rest |
| Paths.ExpandAbbreviations | tackle/utils/paths.py:101-116 | an exact abbreviation is returned as is; a template whose prefix is not an abbreviation is returned unchanged |
| Paths.ExpandAbbreviationsPrefix | tackle/utils/paths.py:112-114 | `prefix:rest` with a one-field abbreviation `p{}q` expands to `p rest q` |
| Paths.PartitionUnique | tackle/utils/paths.py:112 | the split at a colon-free prefix is unique |
| Paths.IsRepoUrl | tackle/utils/paths.py:119-150 | a scheme prefix makes a repo URL; otherwise a positive answer is a host path or a `word/word` with no local path |
| Paths.OrgRepoIsRepoUrl | tackle/utils/paths.py:138-148 | `org/repo` is a repo URL iff no local path of that name exists |
| Paths.AbsolutePathIsNotRepoUrl | tackle/utils/paths.py:135-148 | an absolute path is not a repo URL |
| Paths.AbbreviatedIsNotRepoUrl | tackle/utils/paths.py:135-148 | `gh:org/repo` is not a repo URL |
| Paths.SchemeUrlsAreRepoUrls | tackle/utils/paths.py:128 | values starting with `https:`, `git+https:`, `hg+https:`, `file:`, `git:` or `ssh:` are repo URLs |
| Paths.ScpLikeIsNotRepoUrl | tackle/utils/paths.py:128-148 | `git@host:path` is not a repo URL under the current expressions |
| Paths.JoinPath | tackle/utils/paths.py:248 | an absolute name replaces the directory, and the joined path ends with the name |
| Paths.IsFile | tackle/utils/paths.py:240-251 | false without a `.yaml`/`.yml`/`.json`/`.toml` extension; otherwise the file test of the name, joined with the directory when one is given |
| Paths.FindTackleBaseIsNearest | tackle/utils/paths.py:184-207 | the result is the nearest directory upward with a hooks directory or tackle file, else the truthy fallback, else None |
| Paths.FindTackleBaseWithException | tackle/utils/paths.py:210-225 | `UnknownSourceException` is raised exactly when the plain search finds nothing; otherwise its result is returned |
| Paths.FindTackleBaseErrors | tackle/utils/paths.py:192-197 | the search only fails on a path that cannot be listed |
| Paths.IsDirectoryWithTackle | tackle/utils/paths.py:230-231 | a non-directory is never a tackle directory |
| Paths.AnyTackleEntry | tackle/utils/paths.py:232-237 | the entry loop answers true iff some entry is a hooks directory or a tackle file |
| Paths.DirectoryWithTackleIsBase | tackle/utils/paths.py:228-237 | a directory is a tackle directory iff the base search stops at it |
| KeyPaths.EncodeKeyPath | tackle/providers/context/hooks/get.py:29 | a string path splits into one key per separator occurrence plus one |
| KeyPaths.GetAfterSet | tackle/providers/context/hooks/sets.py:26-30 | reading back a written path gives the value written |
| KeyPaths.SetKeepsSiblings | tackle/providers/context/hooks/sets.py:26-30 | a write below one key keeps every other key of the map |
| KeyPaths.SetWhereGetSucceeds | providers/context/hooks/update.py:38-52 | a non-empty path that can be read can be written |
| ContextHooks.Context.Get | tackle/providers/context/hooks/get.py:22-40 | the loop returns the specification's first value found across public, private, temporary and existing data |
| ContextHooks.FirstFoundIsFirst | tackle/providers/context/hooks/get.py:25-35 | the result is the first partition's non-None lookup; later partitions are not consulted and `KeyError` is skipped |
| ContextHooks.FirstFoundNone | tackle/providers/context/hooks/get.py:24-40 | the result is None iff no partition yields a value |
| ContextHooks.PublicFirst | tackle/providers/context/hooks/get.py:25 | a value found in the public data is the result |
| ContextHooks.GetDefaultSeparator | tackle/providers/context/hooks/get.py:18-29 | a string path with the default separator `/` always encodes, one key per piece between slashes; the pieces hold no `/` and join back to the path, and a path without `/` is the single key itself |
| ContextHooks.Context.Set | tackle/providers/context/hooks/sets.py:23-30 | only the public data changes, to the written document; an error leaves it unchanged |
| ContextHooks.GetAfterSetHook | tackle/providers/context/hooks/sets.py:23-30 | after `set`, `get` of the same path returns the value |
| ContextHooks.SetKeepsOtherEntries | tackle/providers/context/hooks/sets.py:26-30 | `set` keeps the public entries under other first keys |
| ContextHooks.SetPositionalArgs | tackle/providers/context/hooks/sets.py:17-20 | positional args map to `path` then `value` |
| ContextHooks.Context.Update | providers/context/hooks/update.py:30-55 | only the public data changes, to the specification's new data, and the result is the specification's |
| ContextHooks.ReplaceAtReads | providers/context/hooks/update.py:46-52 | after an overwrite, reading the path gives the input |
| ContextHooks.UpdateMergesMapping | providers/context/hooks/update.py:42-43 | a map target gains the input's keys, input values winning, and the hook returns None |
| ContextHooks.UpdateAppendsToList | providers/context/hooks/update.py:44-45 | a list target grows by one and ends with the input |
| ContextHooks.UpdateOverwritesScalar | providers/context/hooks/update.py:46-52 | any other target is replaced by the input |
| ContextHooks.UpdateDictSource | providers/context/hooks/update.py:53-55 | a map `src` is merged with the input and returned; the context is unchanged |
| ContextHooks.UpdatePositionalArgs | providers/context/hooks/update.py:28 | positional args map to `src` then `input` |
| ContextHooks.SingleArgumentHooks | providers/logic/hooks/returns.py:14-16 | `get` and `return` bind one positional arg (`path`, `value`) and refuse a second |
| Strings.Find | providers/strings/hooks/strings.py:17-18 | the position found is an occurrence of the separator |
| Strings.FindIsLeftmost | providers/strings/hooks/strings.py:17-18 | the occurrence found is the leftmost, and none is found iff the separator does not occur |
| Strings.Split | providers/strings/hooks/strings.py:17-18 | splitting fails iff the separator is empty, and joining the pieces back gives the input |
| Strings.Join | providers/strings/hooks/strings.py:34-35 | joining succeeds iff every element is a string, and concatenates them with the separator between |
| Strings.SplitJoinRoundTrip | providers/strings/hooks/strings.py:17-35 | join(split(s, sep), sep) == s |
| Strings.SplitPieceCount | providers/strings/hooks/strings.py:17-18 | split yields one more piece than the non-overlapping separator occurrences |
| Strings.SplitPiecesFree | providers/strings/hooks/strings.py:17-18 | no piece contains the separator |
| Strings.StringHookDefaults | providers/strings/hooks/strings.py:12-29 | `split` with the default `/` yields the `/`-free pieces, one piece for an input without `/`; `join` with the default empty separator concatenates the strings |
| Strings.JoinEmptyIsConcatenation | providers/strings/hooks/strings.py:34-35 | joining with the empty separator is plain concatenation |
| Strings.StringHookPositionalArgs | providers/strings/hooks/strings.py:14-31 | positional args map to `input` then `separator` |
| ContextHooks.Context.Return | providers/logic/hooks/returns.py:21-25 | the break flag is set, the public data becomes the value, the value is returned, and the other partitions are unchanged |
| Generate.GenerateHook.InitPaths | tackle/providers/generate/hooks/generate.py:63-73 | a string `copy_without_render` becomes a one-element list and the separator follows the platform |
| Generate.SinglePatternAsList | tackle/providers/generate/hooks/generate.py:64-65 | a string pattern becomes a one-element list; other values are kept |
| Generate.GenerateHook.InitContext | tackle/providers/generate/hooks/generate.py:77-101 | the render context and outcome are those of the specification; the partitions and extra context are unchanged |
| Generate.AsMapping | tackle/providers/generate/hooks/generate.py:83-86 | a None partition is an empty map |
| Document.DictUpdate | tackle/providers/generate/hooks/generate.py:99-101 | `dict.update`: a map overrides the dictionary on its keys; the empty string changes nothing and any other string raises `ValueError`; a list is applied pair by pair; a value that cannot be iterated raises `TypeError` |
| Document.UpdatePair | tackle/providers/generate/hooks/generate.py:99 | a two-element list with a string key, or a two-character string, is a key-value pair; an element of another length raises `ValueError`, and a scalar `TypeError` |
| Document.UpdatePairsOk | tackle/providers/generate/hooks/generate.py:99 | updating with a list succeeds iff every element is a pair |
| Document.UpdatePairsKeeps | tackle/providers/generate/hooks/generate.py:99 | a key that no pair names keeps its presence and value |
| Document.UpdatePairsLastWins | tackle/providers/generate/hooks/generate.py:99 | a key holds the value of the last pair naming it |
| Generate.InitContextKeepsGiven | tackle/providers/generate/hooks/generate.py:79-80 | a given render context is kept |
| Generate.MergePrecedence | tackle/providers/generate/hooks/generate.py:89-94 | public wins over private over temporary over existing on each key |
| Generate.ApplyAllAppend | tackle/providers/generate/hooks/generate.py:97-99 | applying one more map of the extra-context list updates the result with it |
| Generate.LastExtraWins | tackle/providers/generate/hooks/generate.py:97-99 | the last map of the list wins on its keys |
| Generate.ExtraContextOverrides | tackle/providers/generate/hooks/generate.py:96-101 | a map extra context overrides every partition |
| Generate.GlobLiteral | tackle/providers/generate/hooks/generate.py:276 | a pattern without wildcards matches only itself |
| Generate.GlobStarMatchesAll | tackle/providers/generate/hooks/generate.py:276 | `*` matches every path |
| Generate.GlobPrefixStar | tackle/providers/generate/hooks/generate.py:276 | `p*` matches exactly the paths starting with `p`, for a literal `p` |
| Generate.Patterns | tackle/providers/generate/hooks/generate.py:275 | a list iterates its items and a string its characters |
| Generate.CopyOnlyIffSomePatternMatches | tackle/providers/generate/hooks/generate.py:275-281 | a path is copy-only iff some pattern matches it directly or after `.` plus the separator |
| Generate.NoPatternsNothingCopyOnly | tackle/providers/generate/hooks/generate.py:272-273 | without patterns nothing is copy-only |
| Generate.GenerateHook.IsCopyOnlyPath | tackle/providers/generate/hooks/generate.py:263-281 | the search loop returns the specification's answer |
| Select.SelectHook.Execute | tackle/providers/pyinquirer/hooks/select.py:49-80 | the result and the choices left on the hook are those of the specification |
| Select.CommonKind | tackle/providers/pyinquirer/hooks/select.py:51-55 | mixed choice types raise `ValueError`; otherwise the one shared type |
| Select.CheckKinds | tackle/providers/pyinquirer/hooks/select.py:51-55 | the type-check loop computes that type or error |
| Select.Displayed | tackle/providers/pyinquirer/hooks/select.py:64-66 | the displayed options are each map's first value, and an empty map raises |
| Select.FirstValues | tackle/providers/pyinquirer/hooks/select.py:64-66 | the loop collects the displayed options |
| Select.MatchingKey | tackle/providers/pyinquirer/hooks/select.py:72-78 | no key is found iff no map shows the answer |
| Select.FindKey | tackle/providers/pyinquirer/hooks/select.py:72-78 | the search loop finds the specification's key |
| Select.MatchingKeyIsFirst | tackle/providers/pyinquirer/hooks/select.py:72-78 | the key found is that of the first map showing the answer |
| Select.IndexOf | tackle/providers/pyinquirer/hooks/select.py:60-76 | `index` gives the first position holding the answer, or raises when there is none |
| Select.PromptAnswer | tackle/providers/pyinquirer/hooks/select.py:82-103 | without input a truthy default is the answer, else a string first choice |
| Select.MixedChoicesRejected | tackle/providers/pyinquirer/hooks/select.py:52-54 | two choices of different types raise `ValueError` and leave the choices |
| Select.EmptyOrOtherChoicesRejected | tackle/providers/pyinquirer/hooks/select.py:51-80 | no choices, or choices that are neither strings nor maps, raise `ValueError` |
| Select.TextChoiceIndex | tackle/providers/pyinquirer/hooks/select.py:57-60 | with string choices and `index`, the result is a position holding the answer, and it fails iff the answer is not a choice |
| Select.DictChoiceResult | tackle/providers/pyinquirer/hooks/select.py:63-78 | with map choices the hook shows the first values, and returns the first matching map's key, or its position with `index` |
| Select.NoInputPicksFirstKey | tackle/providers/pyinquirer/hooks/select.py:63-101 | without input or default, a string-valued first map selects its key |
| Select.NoInputTakesDefault | tackle/providers/pyinquirer/hooks/select.py:98-99 | without input a truthy default is returned |
| HookModels.Populate | tackle/models.py:117-120 | every field gets a value; the extras are exactly the keys naming no field; forbidding extras fails exactly when one is present |
| HookModels.HookCallInputDefaults | tackle/models.py:38-114 | `skip_output`, `return_` and `no_input` default to False, every other modifier to None |
| HookModels.HookCallInputAlias | tackle/models.py:38-120 | a modifier given as `if`, `else`, `for`, `try`, `except`, `cd` or `return`, or under its attribute name, lands in its field and is not an extra |
| HookModels.ExtraKeyPolicy | tackle/models.py:173-175 | a key naming no field is refused under `forbid` and kept under `allow` |
| HookModels.ArgsStrToList | tackle/models.py:250-254 | a string becomes a one-element list; other values are kept |
| HookModels.ExternalNames | tackle/models.py:305-309 | the set holds each field's alias where it has one, else its name, and nothing else |
| HookModels.DclHookFields | tackle/models.py:234-309 | the declarative-hook field set is `help, extends, args, exec, return, type, validators, include, exclude, model_config` |
| HookModels.ParseMode | tackle/models.py:192-195 | a validator mode is accepted iff it is `before`, `after` or `wrap` |
| HookModels.ValidatorFrom | tackle/models.py:198-231 | without input the mode is `before` and the field names `v` and `info`; any other mode is refused |
| HookModels.BindPositional | tackle/models.py:244-248 | binding fails iff there are more positional args than names, and binds exactly the first names |
| HookModels.BindPositionalInOrder | tackle/models.py:244-248 | with distinct names the k-th positional arg is bound to the k-th name |

## Left out

- The walker, parser and hook registry: they are not part of this model's source files. `execute`, Jinja rendering and default-factory executors are opaque parameters or the `Factory` constructor.
- `split_input_string`: the tokenizer is not modelled; the unpacker takes its token list.
- I/O is left out or becomes parameters:
  - the filesystem (`os.scandir`, `os.path.exists`, `os.path.isfile`, `os.path.isdir`) becomes listing and existence functions;
  - prompts become the `response` parameter;
  - `print` in `get` (verbose mode) is left out.
- The filesystem and Jinja work of `generate` (`exec`, `generate_target`, `generate_file`, `generate_dir`, `generate_segmented_file`) is left out, as is the expansion of `output` in `_init_paths`.
- `update_value_with_default_factory` refers to an undefined `key`, so it is not modelled.
- pydantic validation and coercion of field values are not modelled. `HookModels.Populate` states only how input keys populate fields.
- `HookModels.BindPositional`: the code that maps positional args to `args` names is not part of this model's source files; this function is the binding the model takes for it.
- `Paths.IsRepoUrl`: Python's Unicode `\w` is approximated as ASCII letters, digits and `_`.
- `Paths.ExpandAbbreviations`: `str.format` is modelled for `{{`, `}}`, `{}` and `{0}`. Named fields, format specifications and conversions are treated as `ValueError`.
- `Generate.Glob`: `fnmatch` bracket classes `[...]` are matched literally. Case normalisation on Windows is not modelled.
- `Document.DictUpdate`: a list element with a non-string key (an int, a tuple) raises `TypeError` instead of being inserted, because document keys are strings. A two-key map used as a pair raises `TypeError` because the model does not keep map order. When an element fails, Python keeps the pairs inserted before it; the model returns only the error.
- `HookMacros.InferredTypeName`, `HookMacros.TypeInferred` and `HookMacros.InferTypeFromDefault` model the evidently intended behaviour, with the YAML reader's `ScalarFloat`, `CommentedSeq` and `CommentedMap` in scope. As written those names are undefined, and every field with a `default` and no `type` raises `NameError` (see Findings, `HookMacros.TypeInferredAsWritten`).
- `HookMacros.HookDictMacroSpec`: the rewritten definition is a map, so the insertion order of `new_hook_input` is not kept. Nothing in the modelled code reads that order.
- `HookMacros.TranslateEntry`, `HookMacros.HookDictMacroSpec` and `HookMacros.HookDictMacro` take the literal type names as a parameter. As written `LITERAL_TYPES` is undefined, and a plain field with a string value raises `NameError` (see Findings, `HookMacros.TranslateEntryAsWritten`).
- `HookMacros.DefaultFactoryCreated`: the executor holds a snapshot of the factory source. In Python, with `value_is_factory`, it holds the field dictionary itself, which then gains `default_factory` (and later `type: Any`). That cyclic structure cannot be a datatype value.
- `HookMacros.CreateDefaultFactory`: as for `HookMacros.DefaultFactoryCreated`, the executor keeps a copy of the field, not an alias of it.
- `ContextHooks.Context.Update`: `get_target_and_key` is not part of this model's source files. The model takes it to give the public data and the key path unchanged. Merging into a map target or a map `src` follows `Document.DictUpdate`, with the limits listed for it.
- `ContextHooks.Context.Set`: a `nested_set` that fails part-way is taken to leave the public data unchanged.
- `Select.SelectHook.Execute`: map choices keep their entry order, so two maps with the same entries in a different order compare unequal, unlike Python dictionaries. A string and any other value are different kinds; the hook's `message` is not modelled.
- `Operator.OperatorWalk.ParseOperator`: the `ValueError` for a `when` without a context cannot happen, because the operator was just read from that context. The check that the rendered condition is a bool is always met. The global post-generation list is a field of the walk state. When it raises, the method promises only the error. The state Python leaves behind is not specified: `when` and `loop` already popped from the operator dict, `item` still bound in `cookiecutter_dict`, and the results of the targets before the failing one already written.
- `Operator.RunOperatorIsLastHandler`: operator classes are identified by their `type`; the class hierarchy behind `__subclasses__()` is a sequence parameter.
- The `git@...` and `gitolite@...` repo-URL test cases describe an older expression. `Paths.ScpLikeIsNotRepoUrl` states the current behaviour.

## Findings

| source | as written | input that shows it | evidently intended | confidence | as-written member | corrected member |
|---|---|---|---|---|---|---|
| tackle/macros/hook_macros.py:211-222 | `dict_field_hook_macro` returns only inside `if not is_field(value)` and falls off the end for fields, returning None; `str_field_hook_macro` returns that None | `{type: str, default: a}` or `name->: literal x` | return the prepared field dictionary in both cases | not executed | HookMacros.DictFieldMacroAsWrittenDropsFields | HookMacros.DictFieldMacro |
| tackle/macros/hook_macros.py:225-241 | the string form always builds a `default_factory` field, so it always hits the missing return | `name->: literal x` | `{default_factory: ..., type: Any}` | not executed | HookMacros.StrFieldMacroAsWrittenLosesField | HookMacros.StrFieldMacroArrowForm |
| tackle/macros/hook_macros.py:311 | `hook_macros` calls `dict_hook_macro`, which is not defined (the function is `hook_dict_macro`) | any dictionary definition, e.g. `{x: 1}` | dispatch to `hook_dict_macro`, also passing the `hook_name` it requires (hook_macros.py:251); the renamed call alone would still raise `TypeError` | not executed | HookMacros.HookMacrosDictBranch | HookMacros.HookMacrosSpec |
| tackle/macros/hook_macros.py:115-122 | `infer_type_from_default` tests `isinstance` against `ScalarFloat`, `CommentedSeq` and `CommentedMap`, which the module never imports | `{default: 1}` | type the field by its default: `float`, `list`, `dict`, else the runtime type name | not executed | HookMacros.TypeInferredAsWrittenRaises | HookMacros.TypeInferred |
| tackle/macros/hook_macros.py:278 | `hook_dict_macro` tests `v in LITERAL_TYPES`, a name the module never defines | `{name: str}` | look the string up in the table of literal type names | not executed | HookMacros.TranslateEntryAsWrittenRaises | HookMacros.TranslateEntry |
