# Unsloth RL trainer patcher — text-generation core in Dafny

`unsloth/models/rl.py` patches every TRL reinforcement-learning trainer
module. It reads the constructor signatures of the module's trainer and
config classes, generates the source of `Unsloth<Trainer>` and
`Unsloth<Config>` subclasses, executes that source, and rebinds the module's
names to the new classes. This project models the deterministic text
generation inside that flow, with the reflective inputs given as plain data:

- **Signature renderer** (module `Signature`, lines 154-173). A parameter
  list of name and default kind becomes the formal-argument text (`self`
  first, 8-space indentation) and the `k = k` call-argument text (12-space
  indentation). Parameters named `self` and parameters whose default cannot
  be printed are dropped, and a newline default is escaped.
- **Default overrides** (module `Overrides`, lines 309-329). The 13-entry
  table is applied to the config's argument text with
  `re.sub(k + "( = [^,\n]{1,})?,\n", ...)`. The regular expression is written
  out as a match at one position (`MatchLen`) and a left-to-right scan
  (`Sub`) that resumes after each match. The central result,
  `ConfigOverridesAreEntrywise`, says the whole table acts entry by entry:
  - every entry but the last is rewritten as if it stood alone;
  - the last entry, which has no `,\n` after it, is never overridden when its
    own text holds no `,\n`. A string default such as `',\n'` puts one inside
    it, and the pattern can then match there; that case is outside the theorem;
  - a name that merely ends with a key (`data_seed` for `seed`) is
    overridden too;
  - an entry `k = d` named exactly by a key `k`, whose default `d` holds a
    comma but no newline and no `k`, is left alone.
- **Snippet assembly** (module `Snippets`, lines 178-299 and 331-364). Opaque
  code snippets are chosen by substring tests on the call arguments and
  appended in source order. The module also covers:
  - the statistics call, which always comes last;
  - the NEFTune block, which goes to the post-initialisation text only;
  - the tokenizer fallback;
  - the 8-space line indenter;
  - the `**kwargs` suffix (lines 385, 392).
- **Name selection** (module `Selection`, lines 133-151, 544): the list
  comprehensions that pick the trainer and config names, the public-name
  filter, the already-patched guard and the filter over the package's module
  names.
- **`patch_vllm` bookkeeping** (module `Vllm`, lines 418-536):
  - the `str.replace` chain that disables the PEFT branches;
  - the insertion-ordered `changed` dictionary;
  - the in-place growth of the caller's `imports` list (class `NameList`);
  - the application of every recorded edit;
  - the rename of the first `class Name` only.
- **The driver** (module `Patcher`, lines 123-414, 539-547):
  - one call of `_patch_trl_rl_trainers`, as the function `Patch` and the
    method `PatchTrainerFile`, with all its early returns;
  - the package loop, as the class `Package`, whose `modules` map is updated
    in place when a module's classes are rebound.

The model exposes two behaviours of the code as written:
- If the member rewrite of lines 488-514 changes `__init__` itself, the loop
  at line 480 overwrites `changed["__init__"]`, and the PEFT and vLLM edits of
  lines 423-470 are lost (`Vllm.ChangedInit`).
- The names appended to the caller's `imports` list are all already in it,
  since that list starts as every public name of the module. The
  deduplication at line 526 only rebinds a local name (`Vllm.ImportsOnlyDuplicates`).

`patch_vllm` always returns a string (`Vllm.VllmSource` is total), so the
`None` fallback of lines 371-372 is never taken.

## Model

| member | source | states |
|---|---|---|
| Text.Spaces | unsloth/models/rl.py:171-172 | `' '*n` is exactly `n` space characters |
| Text.JoinSnoc | unsloth/models/rl.py:171-172 | joining one more element appends the separator and that element |
| Text.Split | unsloth/models/rl.py:296 | `split` always yields at least one piece |
| Text.SplitPiecesFree | unsloth/models/rl.py:296 | no piece of a split holds the separator |
| Text.JoinSplit | unsloth/models/rl.py:296-297 | joining the pieces of a split gives the text back |
| Text.SplitJoin | unsloth/models/rl.py:296-297 | splitting a join of separator-free pieces gives the pieces back |
| Text.SplitSnocSeparator | unsloth/models/rl.py:296 | a text ending in the separator splits into one more, empty, piece |
| Text.Replace | unsloth/models/rl.py:423-427 | `s.replace(pat, rep)`, scanning from the left over non-overlapping occurrences; its properties are stated by `ReplaceAbsent`, `ReplaceIdentity`, `ReplaceAt`, `ReplaceOnly` and `ReplaceLeavesNone` |
| Text.ReplaceFirst | unsloth/models/rl.py:533-535 | `s.replace(pat, rep, 1)`; stated by `ReplaceFirstAt` and `ReplaceFirstAbsent` |
| Text.ReplaceAbsent | unsloth/models/rl.py:423-427 | `str.replace` with a pattern that does not occur returns the text unchanged |
| Text.ReplaceIdentity | unsloth/models/rl.py:531 | replacing a pattern by itself changes nothing, whatever the pattern |
| Text.ReplaceFirstAt | unsloth/models/rl.py:533-535 | `replace(p, r, 1)` replaces only the first occurrence; everything after it, later occurrences included, is kept |
| Text.ReplaceFirstAbsent | unsloth/models/rl.py:533-535 | `replace(p, r, 1)` without an occurrence returns the text unchanged |
| Text.ReplaceAt | unsloth/models/rl.py:529-531 | `str.replace` replaces the first occurrence of a non-empty pattern, keeps what precedes it and goes on after it |
| Text.ReplaceOnly | unsloth/models/rl.py:529-531 | a non-empty pattern occurring exactly once is replaced there and the rest of the text is kept |
| Text.LowerChar | unsloth/models/rl.py:133-134 | a lowered character is never upper case; upper-case letters move by 32, all else is kept |
| Text.Lower | unsloth/models/rl.py:133-134 | `lower()` keeps the length and lowers each character |
| Text.BeforeFirst | unsloth/models/rl.py:133-134 | `split("_")[0]` is a prefix without `_`, followed by `_` when it is shorter than the text |
| Signature.RenderLiteral | unsloth/models/rl.py:166-167 | the printed default, `'v'` for a string; stated by `LiteralRoundTrip` |
| Signature.ArgumentsText | unsloth/models/rl.py:171 | the formal-argument text; stated by `ArgumentsStartWithSelf`, `ArgumentsAppend` and `Overrides.JoinAsBody` |
| Signature.CallArgsText | unsloth/models/rl.py:172 | the call-argument text; stated by `SignatureShape` and `Snippets.KwargsSuffixJoins` |
| Signature.Entry | unsloth/models/rl.py:165-167 | the formal entry of a kept parameter starts with its name |
| Signature.KeptParams | unsloth/models/rl.py:161-168 | the kept parameters are exactly those not named `self` whose default is absent or printable; never more than the input |
| Signature.KeptParamsAppend | unsloth/models/rl.py:161-168 | the skip rules act on each parameter on its own, keeping the order |
| Signature.RenderAll | unsloth/models/rl.py:165-167 | one formal entry per kept parameter, the i-th being that parameter's entry |
| Signature.CallAll | unsloth/models/rl.py:169 | one `k = k` entry per kept parameter, in the same order |
| Signature.RenderParam | unsloth/models/rl.py:162-168 | one loop step yields the parameter's entry when it is kept and nothing when it is skipped |
| Signature.RenderSignature | unsloth/models/rl.py:159-172 | the loop produces the joined texts of `self` plus the kept entries, and of the kept `k = k` entries |
| Signature.ArgumentsStartWithSelf | unsloth/models/rl.py:159-171 | the formal-argument text begins with a newline, 8 spaces and `self` |
| Signature.SignatureShape | unsloth/models/rl.py:156-172 | `self` leads; no kept parameter is `self`; there is one call argument per formal argument after `self`, and the i-th names the same parameter |
| Signature.ArgumentsAppend | unsloth/models/rl.py:171 | one more entry adds `,\n`, 8 spaces and the entry at the end |
| Signature.LiteralRoundTrip | unsloth/models/rl.py:166-167 | a printed default (`'v'`, `True`, `False`, `None`, a number) reads back as itself |
| Signature.EntryRoundTrip | unsloth/models/rl.py:164-167 | a rendered entry reads back as its parameter, except that a newline default reads back as backslash-newline |
| Overrides.RunLen | unsloth/models/rl.py:325 | the greedy `[^,\n]` run holds no comma or newline and stops at the first one |
| Overrides.GroupLen | unsloth/models/rl.py:325 | the optional group matches ` = ` and a non-empty run free of commas and newlines, only when `,\n` follows it |
| Overrides.MatchLen | unsloth/models/rl.py:325 | a match is exactly the key, then nothing or ` = ` and a non-empty run free of commas and newlines, then `,\n`; `MatchAtEntry` is the converse |
| Overrides.Sub | unsloth/models/rl.py:328 | `re.sub` with the override pattern; stated step by step by `SubCopies`, `SubReplaces` and `SubNoMatch`, and as a whole by `SubSplit`, `SubNoSeparator`, `SubNoKey` and `SubPieces` |
| Overrides.OverrideAll | unsloth/models/rl.py:324-329 | the table applied entry after entry; stated by `OverrideAllSnoc`, `ApplyOverrides`, `OverridePieces` and `ConfigOverridesAreEntrywise` |
| Overrides.Advance | unsloth/models/rl.py:328 | each scan step consumes at least one character and no more than the text |
| Overrides.SubCopies | unsloth/models/rl.py:328 | where the key does not start, the character is copied |
| Overrides.SubReplaces | unsloth/models/rl.py:328 | at a match the replacement is emitted and the scan resumes after the match |
| Overrides.SubNoMatch | unsloth/models/rl.py:328 | where nothing matches, the character is copied and the scan moves on by one |
| Overrides.Replacement | unsloth/models/rl.py:326-327 | the replacement text starts with the key and ends with `,\n` |
| Overrides.OverrideAllSnoc | unsloth/models/rl.py:324-328 | one more table entry applies one more substitution to the previous result |
| Overrides.ApplyOverrides | unsloth/models/rl.py:324-329 | the loop's result is the 13 substitutions applied in table order |
| Overrides.KeyGood | unsloth/models/rl.py:309-323 | every key of the table is non-empty and has no leading space and no newline |
| Overrides.TableKeysGood | unsloth/models/rl.py:309-323 | the whole table satisfies the key condition the entry-wise theorem needs |
| Overrides.SubSplit | unsloth/models/rl.py:328 | `re.sub` over a text ending in `,\n` followed by more text rewrites the two parts separately |
| Overrides.SubSkip | unsloth/models/rl.py:328 | characters that cannot begin the key pass through unchanged |
| Overrides.NoMatchWithoutSeparator | unsloth/models/rl.py:325 | no match exists in a text without `,\n` |
| Overrides.SubNoSeparator | unsloth/models/rl.py:325-328 | a text without `,\n` is never rewritten |
| Overrides.SubNoKey | unsloth/models/rl.py:328 | a text in which the key does not occur is never rewritten |
| Overrides.SubKeepsTerminator | unsloth/models/rl.py:328 | a text ending in `,\n` still does after a substitution |
| Overrides.JoinAsBody | unsloth/models/rl.py:171 | the joined entries are the entries, each indented, all but the last followed by `,\n` |
| Overrides.ArgumentsAsPieces | unsloth/models/rl.py:171 | the formal-argument text is its terminated pieces and its unterminated last entry |
| Overrides.SubPieces | unsloth/models/rl.py:325-328 | one substitution over the argument text rewrites each terminated piece alone and, when the last entry holds no `,\n`, leaves it as it is |
| Overrides.OverrideKeepsTerminator | unsloth/models/rl.py:324-329 | a piece ending in `,\n` keeps that ending through the whole table |
| Overrides.OverridePieces | unsloth/models/rl.py:324-329 | the whole table rewrites each terminated piece on its own and, when the last entry holds no `,\n`, never touches it |
| Overrides.ConfigOverridesAreEntrywise | unsloth/models/rl.py:309-329 | on the rendered config arguments, every entry but the last is rewritten as if alone followed by `,\n`, and the last entry, when its text holds no `,\n`, is never overridden |
| Overrides.MatchAtEntry | unsloth/models/rl.py:325 | at an entry `k`, or `k = d` with `d` free of commas and newlines, followed by `,\n`, the match covers exactly that entry |
| Overrides.OverrideEntry | unsloth/models/rl.py:325-328 | an entry whose name ends with the key is rewritten to the replacement, with the rest of the name kept in front |
| Overrides.DataSeedTakesSeedOverride | unsloth/models/rl.py:316-328 | `data_seed = None,` becomes `data_seed = 3407,` under the `seed` override |
| Overrides.NoMatchAtCommaDefault | unsloth/models/rl.py:325 | at an entry whose default holds a comma, the pattern does not match |
| Overrides.CommaDefaultUntouched | unsloth/models/rl.py:325-328 | an entry `k = d` named exactly by the key, whose default holds a comma but no newline and no `k`, is copied unchanged |
| Snippets.MentionsOf | unsloth/models/rl.py:191-278 | the substring tests `"args"`, `"model"` and `"eval_dataset"` on the call arguments; stated by `TrainerPlanChoice` and `TrainerPostChoice` |
| Snippets.Render | unsloth/models/rl.py:190-275 | the `+=` chain over a plan; stated by `RenderSnoc`, `RenderAppend` and `RenderedBlockEndsInNewline` |
| Snippets.IndentLines | unsloth/models/rl.py:296-299 | the 8-space line indenter; stated by `IndentEach`, `IndentLinesSplit`, `IndentEmpty` and `IndentTrailingNewline` |
| Snippets.StatsSnippet | unsloth/models/rl.py:291-293 | the statistics call ends with `')` and a newline |
| Snippets.TrainerPlan | unsloth/models/rl.py:190-275 | the chosen trainer snippets are distinct and in source order |
| Snippets.TrainerPostPlan | unsloth/models/rl.py:277-288 | the post-initialisation snippets are in source order |
| Snippets.ConfigPlan | unsloth/models/rl.py:331-358 | the chosen config snippets are distinct and in source order |
| Snippets.RenderSnoc | unsloth/models/rl.py:190-275 | each `extra_args +=` appends the snippet's text to what was rendered so far |
| Snippets.RenderAppend | unsloth/models/rl.py:190-275 | rendering a concatenation of plans concatenates their texts |
| Snippets.TrainerPlanChoice | unsloth/models/rl.py:191-275 | each trainer snippet is chosen iff its own substring tests hold, e.g. mixed precision iff "args" and "model" occur |
| Snippets.TrainerPlanOnlyTrainerChecks | unsloth/models/rl.py:278-287 | the NEFTune block and the config checks never go into the trainer's extra arguments |
| Snippets.TrainerPostChoice | unsloth/models/rl.py:278-288 | the post block holds the NEFTune set-up iff "model" occurs, and nothing else |
| Snippets.ConfigPlanChoice | unsloth/models/rl.py:332-358 | each config check is chosen iff its substring occurs (" learning_rate" with its space, "output_dir", "dataset_num_proc"); no trainer snippet is among them |
| Snippets.AssembleTrainerExtras | unsloth/models/rl.py:178-293 | the `+=` chain yields the chosen snippets in order plus the statistics call, and the post block |
| Snippets.AssembleConfigExtras | unsloth/models/rl.py:306-358 | the `+=` chain yields the chosen config checks in order |
| Snippets.ExtrasEndWithStatistics | unsloth/models/rl.py:290-293 | the trainer's extra arguments always end with the statistics call |
| Snippets.IndentEach | unsloth/models/rl.py:297 | one line out per line in, each with 8 spaces in front |
| Snippets.IndentLinesSplit | unsloth/models/rl.py:296-299 | the indented block has the same lines in the same order, each with exactly 8 more leading spaces |
| Snippets.IndentEmpty | unsloth/models/rl.py:296-297 | the empty block becomes 8 spaces |
| Snippets.IndentTrailingNewline | unsloth/models/rl.py:296-297 | a block ending in a newline gains a final line of 8 spaces |
| Snippets.TrainerSnippetsEndInNewline | unsloth/models/rl.py:193-229 | the mixed-precision, eval-dataset and gradient-accumulation snippets end in a newline |
| Snippets.LaterSnippetsEndInNewline | unsloth/models/rl.py:233-273 | the eval-changes, length and training snippets end in a newline |
| Snippets.ConfigSnippetsEndInNewline | unsloth/models/rl.py:280-356 | the NEFTune block and the three config checks end in a newline |
| Snippets.RenderedBlockEndsInNewline | unsloth/models/rl.py:362-364 | with snippet texts ending in a newline, as the source's do, a non-empty assembled block ends in one, and the indenter closes it with a line of 8 spaces |
| Snippets.KwargsSuffix | unsloth/models/rl.py:385 | the suffix is `,**kwargs` or `**kwargs` |
| Snippets.KwargsSuffixJoins | unsloth/models/rl.py:385-392 | call arguments ending in `,` take `**kwargs`, others `,**kwargs`: exactly one comma before `**kwargs` |
| Snippets.RenderedCallArgsTakeComma | unsloth/models/rl.py:385-392 | call arguments rendered from plain names never end in a comma, so the suffix is `,**kwargs` |
| Snippets.AddTokenizer | unsloth/models/rl.py:181-186 | when the config's names lack `tokenizer` and have `processing_class`, the formal arguments keep their text as a prefix and end with `,\n`, 8 spaces and `tokenizer = None`; otherwise both texts are unchanged |
| Snippets.TokenizerAppendsEntry | unsloth/models/rl.py:181-182 | under that test the rendered formal arguments become those of the same entries plus exactly one more, `tokenizer = None` |
| Snippets.TokenizerFallback | unsloth/models/rl.py:183-186 | under that test the first `processing_class = processing_class` becomes the tokenizer fallback; the text before it is kept and the rewrite goes on after it |
| Snippets.TokenizerKeepsOtherCallArgs | unsloth/models/rl.py:183-186 | without a `processing_class = processing_class` entry the call arguments are untouched |
| Selection.IsClassName | unsloth/models/rl.py:133-134 | the name test of the two comprehensions; stated by `SelectNames` and `UniqueNamesSelected` |
| Selection.IsTrainerModule | unsloth/models/rl.py:544 | the module-name test; stated by `TrainerModules` and `TrainerModuleExamples` |
| Selection.Filter | unsloth/models/rl.py:133-134 | a comprehension keeps exactly the members that pass the test, and is never longer |
| Selection.FilterAppend | unsloth/models/rl.py:133-134 | a comprehension keeps the order: it distributes over concatenation |
| Selection.FilterIdempotent | unsloth/models/rl.py:133-134 | filtering twice with the same test is filtering once |
| Selection.FilePrefix | unsloth/models/rl.py:133-134 | the file prefix starts the file name and holds no `_` |
| Selection.SelectNames | unsloth/models/rl.py:133-140 | when a pair is selected, both are listed names passing their tests, and each is the only name that does |
| Selection.AmbiguousNamesSkip | unsloth/models/rl.py:135-136 | two different candidates of one kind stop the patch |
| Selection.MissingNamesSkip | unsloth/models/rl.py:135-136 | no candidate of one kind stops the patch |
| Selection.UniqueNamesSelected | unsloth/models/rl.py:133-140 | exactly one candidate of each kind is selected |
| Selection.PublicNames | unsloth/models/rl.py:151 | the import list holds exactly the listed names not starting with `_` |
| Selection.TrainerModules | unsloth/models/rl.py:544 | the patched modules are exactly the listed lower-case names ending in `_trainer` |
| Selection.TrainerModuleExamples | unsloth/models/rl.py:544 | `grpo_trainer` and `_trainer` pass the module filter; `GRPO_trainer` does not |
| Vllm.ReplaceChain | unsloth/models/rl.py:529-531 | successive `str.replace` statements; stated by `ReplaceChainAbsent`, `ReplaceChainIdentity` and `ReplaceChainApplies` |
| Vllm.RemovePeft | unsloth/models/rl.py:423-427 | the five PEFT edits; stated by `RemovePeftUntouched`, `RemovePeftDisablesBranch` and `RemovePeftClearsBranches` |
| Vllm.Functions | unsloth/models/rl.py:474-476 | the members whose `def` occurs; stated by `FunctionsFound` |
| Vllm.RenameClass | unsloth/models/rl.py:533-535 | the count-1 class rename; stated by `RenameFirstOnly` and `RenameAbsent` |
| Vllm.VllmSource | unsloth/models/rl.py:418-536 | the source `patch_vllm` returns; stated by `VllmSourceUntouched`, `InitEditApplied` and `PatchVllm` |
| Vllm.ReplaceChainAbsent | unsloth/models/rl.py:423-427 | a replace chain whose old texts do not occur returns the text unchanged |
| Vllm.ReplaceChainIdentity | unsloth/models/rl.py:529-531 | edits that replace a text by itself leave every text unchanged |
| Vllm.ReplaceChainApplies | unsloth/models/rl.py:529-531 | an edit whose non-empty old text occurs is applied at its first occurrence, and the later edits work on the result |
| Vllm.RemovePeftUntouched | unsloth/models/rl.py:423-427 | an `__init__` that never mentions `peft_config` keeps its text |
| Text.ReplaceLeavesNone | unsloth/models/rl.py:423-427 | after `str.replace` by a text that holds a character the pattern lacks, and nothing that could start or end an occurrence around it, no occurrence of the pattern is left, and none of a shielded text is created |
| Vllm.RemovePeftClearsBranches | unsloth/models/rl.py:423-427 | for every `__init__`, no `if`/`elif peft_config is None:` and no `if`/`elif peft_config is not None:` is left |
| Vllm.RemovePeftDisablesBranch | unsloth/models/rl.py:423-427 | an `__init__` whose only `peft_config` is one `if peft_config is None:` beginning a statement gets `if False:` there and is otherwise kept |
| Vllm.FunctionsFound | unsloth/models/rl.py:474-476 | the members kept are exactly those whose `def` occurs in the class source |
| Vllm.Put | unsloth/models/rl.py:522 | dictionary assignment: an existing key keeps its place and gets the new value, a new key goes last; keys stay unique and other entries are kept |
| Vllm.Changed | unsloth/models/rl.py:478-523 | `changed` always has unique keys and is never empty |
| Vllm.ChangedInit | unsloth/models/rl.py:478-522 | the first entry is `__init__` with the PEFT and vLLM edits, unless the member loop rewrites `__init__` and overwrites them |
| Vllm.ChangedEntries | unsloth/models/rl.py:478-522 | every entry is the `__init__` edit or a visited member the rewrite changes, with its original and rewritten source |
| Vllm.ChangedComplete | unsloth/models/rl.py:480-522 | every visited member the rewrite changes is recorded with its rewritten source |
| Vllm.Found | unsloth/models/rl.py:520 | the names added for one member are exactly the public names occurring in its rewritten source |
| Vllm.AddedNames | unsloth/models/rl.py:480-520 | a name is appended iff it is public and occurs in the rewritten source of some changed member |
| Vllm.ImportsOnlyDuplicates | unsloth/models/rl.py:520-526 | after the loop, the caller's list holds the same names as before: it only gains duplicates |
| Vllm.RenameFirstOnly | unsloth/models/rl.py:533-535 | only the first `class Name` becomes `class _UnslothName`; the rest of the source is kept |
| Vllm.RenameAbsent | unsloth/models/rl.py:533-535 | a source without `class Name` is returned unchanged |
| Vllm.VllmSourceUntouched | unsloth/models/rl.py:418-536 | when neither the `__init__` edits nor the member rewrite change anything, the result is the class source with only the rename |
| Vllm.NameList.Extend | unsloth/models/rl.py:520 | `imports += xs` appends `xs` to the caller's list in place |
| Vllm.LoopStep | unsloth/models/rl.py:480-522 | one more visited member updates `changed` by a dictionary assignment and the imports by its found names, or leaves both |
| Vllm.ApplyEdits | unsloth/models/rl.py:529-532 | the loop applies every recorded edit in dictionary order |
| Vllm.ChangedInitOnly | unsloth/models/rl.py:478-522 | when the rewrite changes no member, `changed` holds the `__init__` entry alone |
| Vllm.InitEditApplied | unsloth/models/rl.py:529-531 | when only `__init__` is edited and its source occurs once in the class source, the edited `__init__` replaces it there and the rest is kept before the rename |
| Vllm.PatchVllm | unsloth/models/rl.py:418-536 | the caller's list grows by exactly the names of `Added`, and the returned source is `VllmSource` |
| Patcher.TrainerPart | unsloth/models/rl.py:175-303 | the trainer's generated texts; stated by `GenerateTrainer`, `TrainerArgumentsStartWithSelf` and `TrainerExtrasEndIndented` |
| Patcher.ConfigPart | unsloth/models/rl.py:305-367 | the config's generated texts; stated by `GenerateConfig`, `ConfigKwargs` and `Overrides.ConfigOverridesAreEntrywise` |
| Patcher.Skips | unsloth/models/rl.py:129-148 | the early returns of one call; stated by `Patch`, `RebindSkips` and `SecondRunSkipped` |
| Patcher.ParamNames | unsloth/models/rl.py:181 | the names of the parameters, one per parameter, in order |
| Patcher.Patch | unsloth/models/rl.py:123-372 | the call returns early iff the module is missing, the names are not unique, a class is unreachable or a class is already patched |
| Patcher.GenerateTrainer | unsloth/models/rl.py:175-302 | the trainer's texts are rendered, given the tokenizer fallback, assembled, indented and suffixed as `TrainerPart` describes |
| Patcher.GenerateConfig | unsloth/models/rl.py:304-367 | the config's texts are rendered, overridden, assembled, indented and suffixed as `ConfigPart` describes |
| Patcher.PatchTrainerFile | unsloth/models/rl.py:123-372 | the step-by-step call computes `Patch`: the same early returns and the same generated texts and imports |
| Patcher.Rebind | unsloth/models/rl.py:406-414 | the selected trainer and config now have the class names `Unsloth` + name; names, keys and every other class are kept |
| Patcher.RebindSkips | unsloth/models/rl.py:406-414 | after rebinding the selected classes, the same names are selected and the `Unsloth` guard fires |
| Patcher.SecondRunSkipped | unsloth/models/rl.py:147-148 | a second call on a patched module returns early: patching is a no-op the second time |
| Patcher.TrainerArgumentsStartWithSelf | unsloth/models/rl.py:159-182 | the trainer's formal arguments begin with `self`, with or without the tokenizer argument |
| Patcher.TrainerExtrasEndIndented | unsloth/models/rl.py:291-297 | the trainer's indented extra arguments end with a newline and a line of 8 spaces |
| Patcher.ConfigKwargs | unsloth/models/rl.py:385-392 | with plain parameter names the config call is followed by `,**kwargs` |
| Patcher.GeneratedImports | unsloth/models/rl.py:150-151 | the import list handed to the compiler holds exactly the module's public names |
| Patcher.PatchedModule | unsloth/models/rl.py:406-414 | a module after one call: unchanged when the call returns early, rebound otherwise; a further call returns early either way |
| Patcher.PatchAllStep | unsloth/models/rl.py:545-546 | one more call keeps the loop's invariant: the modules called so far are as one call leaves them, the others as they were |
| Patcher.Package.PatchModule | unsloth/models/rl.py:406-414 | unless the call returns early, exactly the selected classes of the module are rebound and nothing else changes; afterwards a further call would return early |
| Patcher.Package.PatchAll | unsloth/models/rl.py:540-547 | every lower-case `*_trainer` module ends as one call leaves it (`PatchedModule`), so a further call would skip it, and all other modules are unchanged |

## Left out

- Dynamic execution: `eval`, `exec`, `create_new_function` and the compiled module are not modelled. The failures of `eval` are inputs: a module that cannot be evaluated is `None`, and an unreachable class is a missing map key. The rebinding of lines 406-414 is modelled only as the new class name `Unsloth` + name.
- `inspect`: `inspect.signature` and `inspect.getsource` results are inputs, as the parameter list and the source texts. A member whose source cannot be obtained is absent from `sources`. The `hasattr` test at line 481 always holds for names from `dir`, so it is not modelled. The `__init__` source and `sources["__init__"]` are separate inputs, although the source reads both from the same method.
- The regular-expression rewrites of `patch_vllm` (lines 430-470 and 488-514) are opaque function parameters (`Patcher.Rewrites`). Their DOTALL and lazy-match semantics over foreign source text are not modelled.
- `Overrides.Sub` models `re.sub` for this one pattern shape. The key and the replacement are taken literally. That agrees with the source, because the table's keys hold no regular-expression metacharacters and its values no backslashes.
- Number defaults are carried by their printed form (`Signature.Literal.Number`); the printing of `int` and `float` values is not modelled. Which defaults are printable (`bool`, `None`, `int`, `float`, exact `str`) is an input too, given by the `Default` kind.
- `lower()` and `islower()` are modelled on ASCII letters only.
- The snippet texts are transcribed as the constants of `Snippets`. The operations take the snippet table as a parameter `code`, so their contracts hold for any table, the source's included. What the snippets do when executed is not modelled.
- The `str.format` fill of the class template (lines 379-396) and the class docstrings (lines 376-377) are not modelled. `Patcher.Generated` holds the fields the template receives.
- Patcher.Package.PatchModule: it models the effect of one call on the package, which is the rebinding. It does not carry the generated texts; those are the result of `Patcher.PatchTrainerFile`, which is proved equal to `Patcher.Patch`.
- Patcher.Package.PatchAll: the model assumes every call of `_patch_trl_rl_trainers` returns normally. The loop of lines 545-546 has no `try`. In the source, an exception from the unguarded `exec`/`eval` of lines 375-377, from `create_new_function` at lines 399-404 or from the `exec`s of lines 407-414 ends the loop, and the later modules stay unpatched. One such case is a string default holding `'`, which line 166 renders into invalid code.
- `PatchRL` and `unsloth_unwrap_model_for_generation` (lines 28-71), `neftune_post_forward_hook` (lines 75-80) and `PatchFastRL` (lines 551-555) are left out. They work on torch models, random noise and foreign library objects.
- The order of `dir()` listings is taken as given; it is not required to be sorted.
