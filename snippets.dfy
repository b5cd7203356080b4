/** Snippet assembly of `_patch_trl_rl_trainers` (unsloth/models/rl.py:178-299,
    332-364, 385, 392): which fixed code snippets go into the generated
    trainer and config constructors, chosen by substring tests on the
    call-argument text and appended in a fixed order; the 8-space line
    indenter applied to each block; the tokenizer fallback; and the `**kwargs`
    suffix. The snippets are opaque text here: only their choice and order are
    modelled, not what they do when run. */
module Snippets {
  import opened Text
  import opened Signature

  /** The bf16/fp16 consistency check (lines 193-205). */
  const MIXED_PRECISION: string :=
    "use_bf16 = getattr(args, 'bf16', False)\n" +
    "use_fp16 = getattr(args, 'fp16', False)\n" +
    "dtype = getattr(model.config, 'torch_dtype', None)\n" +
    "if dtype is None: dtype = model.get_input_embeddings().dtype\n" +
    "from unsloth_zoo.utils import _get_dtype\n" +
    "dtype = _get_dtype(dtype)\n" +
    "float16 = dtype == torch.float16\n" +
    "if float16 and use_bf16: raise TypeError('Unsloth: Model is in float16 precision but you want to use bfloat16 precision. Set fp16 to `True` and bf16 to `False`')\n" +
    "if not float16 and use_fp16: raise TypeError('Unsloth: Model is in bfloat16 precision but you want to use float16 precision. Set fp16 to `False` and bf16 to `True`')\n" +
    "if not use_bf16 and not use_fp16:\n" +
    "    args.fp16 = float16\n" +
    "    args.bf16 = not float16\n" +
    "    os.environ['ACCELERATE_MIXED_PRECISION'] = 'fp16' if float16 else 'bf16'\n"

  /** Turning on evaluation when an eval dataset is given (lines 215-218). */
  const CHECK_EVAL_DATASET: string :=
    "if getattr(args, 'eval_dataset', None) is not None and " +
    "getattr(args, 'eval_strategy', 'no') == 'no':\n" +
    "    args.eval_strategy = 'steps'\n" +
    "    if getattr(args, 'eval_steps', None) is None: args.eval_steps = 0.1\n"

  /** The gradient-accumulation version warning (lines 224-229). */
  const CHECK_GA: string :=
    "ga_steps = getattr(args, 'gradient_accumulation_steps', None)\n" +
    "if ga_steps is not None and ga_steps > 1:\n" +
    "    from transformers import __version__ as transformers_version\n" +
    "    if Version(transformers_version) <= Version('4.45.2'):\n" +
    "        print('**** Unsloth: Please use our fixed gradient_accumulation_steps by updating transformers, TRL and Unsloth!\\n'\n" +
    "              '`pip install --upgrade --no-cache-dir --force-reinstall --no-deps unsloth transformers trl unsloth_zoo`')\n"

  /** The evaluation batch size and precision defaults (lines 233-241). */
  const EVAL_CHANGES: string :=
    "if getattr(args, 'eval_strategy', 'no') != 'no':\n" +
    "    eval_bsz = getattr(args, 'per_device_eval_batch_size', 8)\n" +
    "    if eval_bsz == 8 and args.per_device_train_batch_size < eval_bsz: args.per_device_eval_batch_size = args.per_device_train_batch_size\n" +
    "    if getattr(args, 'eval_accumulation_steps', None) is None and ga_steps is not None: args.eval_accumulation_steps = ga_steps\n" +
    "fp16_full_eval = getattr(args, 'fp16_full_eval', False)\n" +
    "bf16_full_eval = getattr(args, 'bf16_full_eval', False)\n" +
    "if args.fp16 and bf16_full_eval: args.bf16_full_eval = False; args.fp16_full_eval = True\n" +
    "if args.bf16 and fp16_full_eval: args.bf16_full_eval = True; args.fp16_full_eval = False\n" +
    "if not bf16_full_eval and not fp16_full_eval: args.bf16_full_eval = args.bf16; args.fp16_full_eval = args.fp16\n"

  /** The `max_seq_length` check; the statement ends at line 255, and the strings on lines 256-260 form a separate expression whose value is discarded (lines 248-255). */
  const LENGTH_CHECK: string :=
    "if 'max_seq_length' not in locals() and not hasattr(args, 'max_seq_length'):\n" +
    "    pass\n" +
    "else:\n" +
    "    model_max_seq_length = getattr(model, 'max_seq_length', None)\n" +
    "    args_max_seq_length  = getattr(args,  'max_seq_length', None)\n" +
    "    if args_max_seq_length is None and model_max_seq_length is not None:\n" +
    "        max_seq_length = model.max_seq_length\n" +
    "        if hasattr(args, 'max_seq_length'): args.max_seq_length = max_seq_length\n"

  /** Training mode and right padding (lines 267-273). */
  const TRAINING_CHECK: string :=
    "if model is not None and hasattr(model, 'for_training'):\n" +
    "    model.for_training()\n" +
    "if 'tokenizer' in locals() and hasattr(tokenizer, 'padding_side'): tokenizer.padding_side = 'right'\n" +
    "if 'processing_class' in locals():\n" +
    "    if hasattr(processing_class, 'padding_side'): processing_class.padding_side = 'right'\n" +
    "    if hasattr(processing_class, tokenizer) and hasattr(processing_class.tokenizer, 'padding_side'): " +
    "processing_class.tokenizer.padding_side = 'right'\n"

  /** The NEFTune hook set-up, for the post-initialisation block (lines 280-286). */
  const NEFTUNE_CHECK: string :=
    "if hasattr(self, 'neftune_hook_handle'):\n" +
    "    self.neftune_hook_handle.remove()\n" +
    "    if hasattr(self, 'neftune_hook_handle'): del self.neftune_hook_handle\n" +
    "if getattr(args, 'neftune_noise_alpha', None) is not None:\n" +
    "    model.get_input_embeddings().neftune_noise_alpha = self.neftune_noise_alpha\n" +
    "    self.neftune_hook_handle = self.model.get_input_embeddings().register_forward_hook(neftune_post_forward_hook)\n" +
    "pass\n"

  /** The learning-rate range errors (lines 334-337). */
  const LEARNING_RATE_CHECK: string :=
    "if learning_rate < 1e-7: raise FloatingPointError(f'Unsloth: Your learning rate of `{learning_rate}` is too small and less than 1e-7! " +
    "Consider increasing it, otherwise gradient updates will be close to 0!')\n" +
    "if learning_rate > 1: raise OverflowError(f'Unsloth: Your learning rate of `{learning_rate}` is way too larger > 1! " +
    "Consider decreasing it to 1e-1, otherwise gradient updates will explode!')\n"

  /** The default checkpoint directory (lines 345-347). */
  const SAVING_CHECK: string :=
    "if output_dir is None and save_strategy == 'steps' and save_steps == 500:\n" +
    "    output_dir = 'unsloth_training_checkpoints'\n" +
    "    save_strategy = 'no'\n"

  /** The default number of dataset processes (lines 354-356). */
  const NUM_PROC_CHECK: string :=
    "if dataset_num_proc is None:\n" +
    "    from multiprocessing import cpu_count\n" +
    "    dataset_num_proc = cpu_count()\n"

  /** The statistics call appended to every trainer (lines 291-293). */
  function StatsSnippet(trainerFile: string): (r: string)
    ensures EndsWith(r, "')\n")
  {
    "from unsloth_zoo.logging_utils import PatchRLStatistics\n" +
    "PatchRLStatistics('" + trainerFile + "')\n"
  }

  /** The snippets, in the order in which the source may append them. The
      operations below take the table from snippet to text as a parameter
      `code`; the source's table maps each snippet to the constant of the
      same name above. Keeping the texts out of those proofs keeps them
      cheap; the facts about the texts themselves are stated on the
      constants. */
  datatype Snippet =
    | MixedPrecision | EvalDataset | GradAccumulation | EvalChanges | LengthCheck
    | TrainingCheck | NeftuneCheck | LearningRateCheck | SavingCheck | NumProcCheck

  /** `t` is non-empty and its last character is a newline. */
  predicate EndsInNewline(t: string) {
    |t| > 0 && t[|t| - 1] == '\n'
  }

  /** The first trainer snippets end their last line with a newline. */
  lemma TrainerSnippetsEndInNewline()
    ensures EndsInNewline(MIXED_PRECISION)
    ensures EndsInNewline(CHECK_EVAL_DATASET)
    ensures EndsInNewline(CHECK_GA)
  {
  }

  /** The later trainer snippets end their last line with a newline. */
  lemma LaterSnippetsEndInNewline()
    ensures EndsInNewline(EVAL_CHANGES)
    ensures EndsInNewline(LENGTH_CHECK)
    ensures EndsInNewline(TRAINING_CHECK)
  {
  }

  /** The NEFTune block and the config checks end their last line with a newline. */
  lemma ConfigSnippetsEndInNewline()
    ensures EndsInNewline(NEFTUNE_CHECK)
    ensures EndsInNewline(LEARNING_RATE_CHECK)
    ensures EndsInNewline(SAVING_CHECK)
    ensures EndsInNewline(NUM_PROC_CHECK)
  {
  }

  /** Position of a snippet in the source text. */
  function Rank(s: Snippet): nat {
    match s
    case MixedPrecision => 0
    case EvalDataset => 1
    case GradAccumulation => 2
    case EvalChanges => 3
    case LengthCheck => 4
    case TrainingCheck => 5
    case NeftuneCheck => 6
    case LearningRateCheck => 7
    case SavingCheck => 8
    case NumProcCheck => 9
  }

  /** Each snippet at most once, in the order of the source. */
  predicate InSourceOrder(plan: seq<Snippet>) {
    forall i, j :: 0 <= i < j < |plan| ==> Rank(plan[i]) < Rank(plan[j])
  }

  /** The substring tests on the trainer's call-argument text. */
  datatype TrainerMentions = TrainerMentions(args: bool, model: bool, evalDataset: bool)

  function MentionsOf(callArgs: string): TrainerMentions {
    TrainerMentions(Contains(callArgs, "args"), Contains(callArgs, "model"), Contains(callArgs, "eval_dataset"))
  }

  /** The snippets chosen for the trainer's extra arguments (lines 190-275). */
  function TrainerPlan(m: TrainerMentions): (plan: seq<Snippet>)
    ensures InSourceOrder(plan)
  {
    (if m.args && m.model then [MixedPrecision] else []) +
    (if m.args then (if m.evalDataset then [EvalDataset] else []) + [GradAccumulation, EvalChanges] else []) +
    (if m.model then [LengthCheck, TrainingCheck] else [])
  }

  /** The snippets of the post-initialisation block (lines 277-288). */
  function TrainerPostPlan(m: TrainerMentions): (plan: seq<Snippet>)
    ensures InSourceOrder(plan)
  {
    if m.model then [NeftuneCheck] else []
  }

  /** The substring tests on the config's call-argument text; the
      learning-rate test looks for the name with a leading space. */
  datatype ConfigMentions = ConfigMentions(learningRate: bool, outputDir: bool, numProc: bool)

  function ConfigMentionsOf(callArgs: string): ConfigMentions {
    ConfigMentions(Contains(callArgs, " learning_rate"), Contains(callArgs, "output_dir"),
                   Contains(callArgs, "dataset_num_proc"))
  }

  /** The snippets chosen for the config's extra arguments (lines 332-358). */
  function ConfigPlan(m: ConfigMentions): (plan: seq<Snippet>)
    ensures InSourceOrder(plan)
  {
    (if m.learningRate then [LearningRateCheck] else []) +
    (if m.outputDir then [SavingCheck] else []) +
    (if m.numProc then [NumProcCheck] else [])
  }

  /** The text of a plan, snippet after snippet. */
  function Render(code: Snippet -> string, plan: seq<Snippet>): string
    decreases |plan|
  {
    if plan == [] then "" else Render(code, plan[..|plan| - 1]) + code(plan[|plan| - 1])
  }

  /** Rendering one more snippet appends its code. */
  lemma RenderSnoc(code: Snippet -> string, plan: seq<Snippet>, s: Snippet)
    ensures Render(code, plan + [s]) == Render(code, plan) + code(s)
  {
    assert (plan + [s])[..|plan|] == plan;
  }

  /** Rendering distributes over concatenation of plans. */
  lemma {:induction false} RenderAppend(code: Snippet -> string, p: seq<Snippet>, q: seq<Snippet>)
    ensures Render(code, p + q) == Render(code, p) + Render(code, q)
    decreases |q|
  {
    if q == [] {
      assert p + q == p;
    } else {
      var init, last := q[..|q| - 1], q[|q| - 1];
      assert p + q == (p + init) + [last];
      assert q == init + [last];
      RenderAppend(code, p, init);
      RenderSnoc(code, p + init, last);
      RenderSnoc(code, init, last);
      AppendAssoc(Render(code, p), Render(code, init), code(last));
    }
  }

  /** Which trainer snippets are chosen, each by its own substring tests. */
  lemma TrainerPlanChoice(m: TrainerMentions)
    ensures var plan := TrainerPlan(m);
      && (MixedPrecision in plan <==> m.args && m.model)
      && (EvalDataset in plan <==> m.args && m.evalDataset)
      && (GradAccumulation in plan <==> m.args)
      && (EvalChanges in plan <==> m.args)
      && (LengthCheck in plan <==> m.model)
      && (TrainingCheck in plan <==> m.model)
  {
    var b := if m.evalDataset then [EvalDataset] else [];
    if m.args && m.model {
      assert TrainerPlan(m) == [MixedPrecision] + b + [GradAccumulation, EvalChanges, LengthCheck, TrainingCheck];
    } else if m.args {
      assert TrainerPlan(m) == b + [GradAccumulation, EvalChanges];
    } else if m.model {
      assert TrainerPlan(m) == [LengthCheck, TrainingCheck];
    } else {
      assert TrainerPlan(m) == [];
    }
  }

  /** The NEFTune set-up and the config checks never go into the trainer's
      extra arguments: every chosen snippet comes before them in the source. */
  lemma TrainerPlanOnlyTrainerChecks(m: TrainerMentions)
    ensures forall s :: s in TrainerPlan(m) ==> Rank(s) < Rank(NeftuneCheck)
  {
  }

  /** The NEFTune set-up goes to the post-initialisation block exactly when
      the call arguments mention `model`, and nothing else goes there. */
  lemma TrainerPostChoice(m: TrainerMentions)
    ensures NeftuneCheck in TrainerPostPlan(m) <==> m.model
    ensures forall s :: s in TrainerPostPlan(m) ==> s == NeftuneCheck
  {
  }

  /** Which config snippets are chosen; no trainer snippet is among them. */
  lemma ConfigPlanChoice(m: ConfigMentions)
    ensures var plan := ConfigPlan(m);
      && (LearningRateCheck in plan <==> m.learningRate)
      && (SavingCheck in plan <==> m.outputDir)
      && (NumProcCheck in plan <==> m.numProc)
      && (forall s :: s in plan ==> Rank(s) >= Rank(LearningRateCheck))
  {
  }

  /** The `+=` chain of lines 178-293 for the trainer: the extra arguments
      (chosen snippets, then the statistics call) and the post-initialisation
      block. */
  method AssembleTrainerExtras(code: Snippet -> string, callArgs: string, trainerFile: string) returns (extra: string, post: string)
    ensures extra == Render(code, TrainerPlan(MentionsOf(callArgs))) + StatsSnippet(trainerFile)
    ensures post == Render(code, TrainerPostPlan(MentionsOf(callArgs)))
  {
    var m := MentionsOf(callArgs);
    ghost var plan: seq<Snippet> := [];
    extra := "";
    post := "";
    if m.args && m.model {
      RenderSnoc(code, plan, MixedPrecision);
      extra := extra + code(MixedPrecision);
      plan := plan + [MixedPrecision];
    }
    if m.args {
      if m.evalDataset {
        RenderSnoc(code, plan, EvalDataset);
        extra := extra + code(EvalDataset);
        plan := plan + [EvalDataset];
      }
      RenderSnoc(code, plan, GradAccumulation);
      extra := extra + code(GradAccumulation);
      plan := plan + [GradAccumulation];
      RenderSnoc(code, plan, EvalChanges);
      extra := extra + code(EvalChanges);
      plan := plan + [EvalChanges];
    }
    if m.model {
      RenderSnoc(code, plan, LengthCheck);
      extra := extra + code(LengthCheck);
      plan := plan + [LengthCheck];
    }
    if m.model {
      RenderSnoc(code, plan, TrainingCheck);
      extra := extra + code(TrainingCheck);
      plan := plan + [TrainingCheck];
    }
    if m.model {
      RenderSnoc(code, [], NeftuneCheck);
      post := post + code(NeftuneCheck);
    }
    assert plan == TrainerPlan(m);
    extra := extra + StatsSnippet(trainerFile);
  }

  /** The `+=` chain of lines 331-358 for the config. */
  method AssembleConfigExtras(code: Snippet -> string, callArgs: string) returns (extra: string)
    ensures extra == Render(code, ConfigPlan(ConfigMentionsOf(callArgs)))
  {
    var m := ConfigMentionsOf(callArgs);
    ghost var plan: seq<Snippet> := [];
    extra := "";
    if m.learningRate {
      RenderSnoc(code, plan, LearningRateCheck);
      extra := extra + code(LearningRateCheck);
      plan := plan + [LearningRateCheck];
    }
    if m.outputDir {
      RenderSnoc(code, plan, SavingCheck);
      extra := extra + code(SavingCheck);
      plan := plan + [SavingCheck];
    }
    if m.numProc {
      RenderSnoc(code, plan, NumProcCheck);
      extra := extra + code(NumProcCheck);
      plan := plan + [NumProcCheck];
    }
    assert plan == ConfigPlan(m);
  }

  /** The trainer's extra arguments always end with the statistics call. */
  lemma ExtrasEndWithStatistics(code: Snippet -> string, m: TrainerMentions, trainerFile: string)
    ensures EndsWith(Render(code, TrainerPlan(m)) + StatsSnippet(trainerFile), StatsSnippet(trainerFile))
  {
    var x, t := Render(code, TrainerPlan(m)), StatsSnippet(trainerFile);
    assert (x + t)[|x|..] == t;
  }

  /** Every line of a block prefixed with 8 spaces. */
  function IndentEach(lines: seq<string>): (r: seq<string>)
    ensures |r| == |lines|
    ensures forall i :: 0 <= i < |lines| ==> r[i] == ARG_INDENT + lines[i]
  {
    seq(|lines|, i requires 0 <= i < |lines| => ARG_INDENT + lines[i])
  }

  /** `"\n".join(" "*8 + x for x in s.split("\n"))` (lines 296-299, 363-364). */
  function IndentLines(s: string): string {
    Join("\n", IndentEach(Split(s, '\n')))
  }

  /** Splitting the indented block gives back the lines of the input, one for
      one and in order, each with exactly 8 more leading spaces. */
  lemma IndentLinesSplit(s: string)
    ensures Split(IndentLines(s), '\n') == IndentEach(Split(s, '\n'))
  {
    var lines := Split(s, '\n');
    var indented := IndentEach(lines);
    SplitPiecesFree(s, '\n');
    forall i | 0 <= i < |indented|
      ensures '\n' !in indented[i]
    {
      assert '\n' !in ARG_INDENT;
      assert indented[i] == ARG_INDENT + lines[i];
    }
    SplitJoin(indented, '\n');
  }

  /** The empty block becomes a single line of 8 spaces. */
  lemma IndentEmpty()
    ensures IndentLines("") == ARG_INDENT
  {
    assert Split("", '\n') == [""];
    assert IndentEach([""]) == [ARG_INDENT + ""];
  }

  /** A block ending in a newline gains a last line of 8 spaces. */
  lemma IndentTrailingNewline(t: string)
    ensures IndentLines(t + "\n") == IndentLines(t) + "\n" + ARG_INDENT
  {
    var lines := Split(t, '\n');
    SplitSnocSeparator(t, '\n');
    var a, b := IndentEach(lines + [""]), IndentEach(lines) + [ARG_INDENT];
    forall i | 0 <= i < |a|
      ensures a[i] == b[i]
    {
      if i == |lines| {
        assert ARG_INDENT + "" == ARG_INDENT;
      }
    }
    assert a == b;
    JoinSnoc("\n", IndentEach(lines), ARG_INDENT);
  }

  /** With every snippet text ending in a newline, as the source's do, a
      non-empty assembled block ends in one too, and the indenter closes it
      with a line of 8 spaces. */
  lemma RenderedBlockEndsInNewline(code: Snippet -> string, plan: seq<Snippet>)
    requires forall s :: EndsInNewline(code(s))
    requires plan != []
    ensures EndsInNewline(Render(code, plan))
    ensures IndentLines(Render(code, plan)) ==
      IndentLines(Render(code, plan)[..|Render(code, plan)| - 1]) + "\n" + ARG_INDENT
  {
    var last := plan[|plan| - 1];
    var r := Render(code, plan);
    assert EndsInNewline(code(last));
    AppendLastChar(Render(code, plan[..|plan| - 1]), code(last));
    assert r == r[..|r| - 1] + "\n";
    IndentTrailingNewline(r[..|r| - 1]);
  }

  /** `",**kwargs"[1 if call_args.endswith(",") else 0:]` (line 385 and 392). */
  function KwargsSuffix(callArgs: string): (r: string)
    ensures r == ",**kwargs" || r == "**kwargs"
  {
    ",**kwargs"[if EndsWith(callArgs, ",") then 1 else 0..]
  }

  /** Exactly one comma separates the call arguments from `**kwargs`. */
  lemma KwargsSuffixJoins(callArgs: string)
    ensures EndsWith(callArgs, ",") ==>
      callArgs + KwargsSuffix(callArgs) == callArgs[..|callArgs| - 1] + ",**kwargs"
    ensures !EndsWith(callArgs, ",") ==> callArgs + KwargsSuffix(callArgs) == callArgs + ",**kwargs"
  {
    if EndsWith(callArgs, ",") {
      var n := |callArgs|;
      assert callArgs == callArgs[..n - 1] + ",";
      assert ",**kwargs"[1..] == "**kwargs";
      AppendAssoc(callArgs[..n - 1], ",", "**kwargs");
    }
  }

  /** Call arguments rendered from identifiers never end in a comma, so the
      suffix always carries its own comma. */
  lemma RenderedCallArgsTakeComma(ks: seq<Param>)
    requires forall p :: p in ks ==> |p.name| > 0 && p.name[|p.name| - 1] != ','
    ensures KwargsSuffix(CallArgsText(CallAll(ks))) == ",**kwargs"
  {
    var entries := CallAll(ks);
    var t := CallArgsText(entries);
    if entries == [] {
      assert t == "\n" + CALL_INDENT + "";
      assert t[|t| - 1] == CALL_INDENT[11] == ' ';
    } else {
      var last := entries[|entries| - 1];
      assert last == ks[|ks| - 1].name + " = " + ks[|ks| - 1].name;
      JoinLastChar(",\n" + CALL_INDENT, entries);
      AppendLastChar("\n" + CALL_INDENT, Join(",\n" + CALL_INDENT, entries));
    }
  }

  const PROCESSING_CLASS_ARG: string := "processing_class = processing_class"
  const PROCESSING_CLASS_FALLBACK: string :=
    "processing_class = tokenizer if tokenizer is not None else processing_class"

  /** Lines 180-187: when the config's signature has `processing_class` but
      no `tokenizer`, the trainer gains a `tokenizer = None` argument and its
      `processing_class` call argument falls back to it. The test reads the
      parameter names of the config, the last signature rendered. */
  function AddTokenizer(arguments: string, callArgs: string, configNames: seq<string>): (r: (string, string))
    ensures StartsWith(r.0, arguments)
    ensures ("tokenizer" !in configNames && "processing_class" in configNames) ==>
      EndsWith(r.0, ",\n" + ARG_INDENT + "tokenizer = None")
    ensures !("tokenizer" !in configNames && "processing_class" in configNames) ==>
      r == (arguments, callArgs)
  {
    if "tokenizer" !in configNames && "processing_class" in configNames then
      var a := arguments + ",\n" + ARG_INDENT + "tokenizer = None";
      assert a[..|arguments|] == arguments;
      assert a[|a| - |",\n" + ARG_INDENT + "tokenizer = None"|..] == ",\n" + ARG_INDENT + "tokenizer = None";
      (a, Replace(callArgs, PROCESSING_CLASS_ARG, PROCESSING_CLASS_FALLBACK))
    else (arguments, callArgs)
  }

  /** Without a `processing_class = processing_class` entry the call arguments
      are untouched by the fallback. */
  lemma TokenizerKeepsOtherCallArgs(arguments: string, callArgs: string, configNames: seq<string>)
    requires !Contains(callArgs, PROCESSING_CLASS_ARG)
    ensures AddTokenizer(arguments, callArgs, configNames).1 == callArgs
  {
    ReplaceAbsent(callArgs, PROCESSING_CLASS_ARG, PROCESSING_CLASS_FALLBACK);
  }

  /** Under the test of line 181 the trainer's formal arguments gain exactly
      one more entry, `tokenizer = None`, after the rendered ones. */
  lemma TokenizerAppendsEntry(entries: seq<string>, callArgs: string, configNames: seq<string>)
    requires "tokenizer" !in configNames && "processing_class" in configNames
    requires |entries| >= 1
    ensures AddTokenizer(ArgumentsText(entries), callArgs, configNames).0 ==
      ArgumentsText(entries + ["tokenizer = None"])
  {
    ArgumentsAppend(entries, "tokenizer = None");
  }

  /** Under the same test the first `processing_class = processing_class`
      of the call arguments falls back to the tokenizer; what precedes it is
      kept and the rewrite goes on after it. */
  lemma TokenizerFallback(before: string, after: string, arguments: string, configNames: seq<string>)
    requires "tokenizer" !in configNames && "processing_class" in configNames
    requires NoOccurrenceBefore(before + PROCESSING_CLASS_ARG + after, PROCESSING_CLASS_ARG, |before|)
    ensures AddTokenizer(arguments, before + PROCESSING_CLASS_ARG + after, configNames).1 ==
      before + PROCESSING_CLASS_FALLBACK + Replace(after, PROCESSING_CLASS_ARG, PROCESSING_CLASS_FALLBACK)
  {
    ReplaceAt(before, PROCESSING_CLASS_ARG, after, PROCESSING_CLASS_FALLBACK);
  }
}
