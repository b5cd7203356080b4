/** The flow of `_patch_trl_rl_trainers` (unsloth/models/rl.py:123-414) and
    of the package loop `patch_trl_rl_trainers` (lines 539-547). What the
    source obtains by `eval`, `dir` and `inspect` is given as data: a trainer
    module is its listing of names and the trainer and config classes that
    `eval` can reach by name. The result of one call is the set of texts the
    source fills into its class template, or `Skipped` when it returns early;
    compiling and executing the generated module is outside the model, and
    the only effect of the rebinding of lines 406-414 modelled here is that
    the module's classes are replaced by ones named `Unsloth` + name. */
module Patcher {
  import opened Text
  import opened Signature
  import opened Overrides
  import opened Snippets
  import opened Selection
  import opened Vllm

  /** A trainer class: its `__name__`, the parameters of its constructor and
      the source texts `inspect` gives for it (`sources` maps a member to its
      source, absent where `inspect` fails). */
  datatype TrainerClass = TrainerClass(
    className: string, params: seq<Param>,
    init: string, source: string, members: seq<string>, sources: map<string, string>)

  /** A config class: its `__name__` and the parameters of its constructor. */
  datatype ConfigClass = ConfigClass(className: string, params: seq<Param>)

  /** A trainer module: `dir()` of it, and the classes reachable by name. */
  datatype TrainerModule = TrainerModule(
    names: seq<string>, trainers: map<string, TrainerClass>, configs: map<string, ConfigClass>)

  /** The regular-expression rewrites of `patch_vllm`: the vLLM set-up of
      `__init__` (lines 430-470) and, for a given trainer file, the rewrite of
      every member (lines 488-514). */
  datatype Rewrites = Rewrites(init: string -> string, member: string -> string -> string)

  function ParamNames(ps: seq<Param>): (r: seq<string>)
    ensures |r| == |ps| && forall i :: 0 <= i < |ps| ==> r[i] == ps[i].name
  {
    if ps == [] then [] else [ps[0].name] + ParamNames(ps[1..])
  }

  /** The trainer's texts in the class template: formal arguments, extra
      arguments, call arguments, `**kwargs` suffix and post-initialisation
      block. */
  datatype TrainerTexts = TrainerTexts(arguments: string, extraArgs: string, callArgs: string, kwargs: string, post: string)

  /** The config's texts in the class template. */
  datatype ConfigTexts = ConfigTexts(arguments: string, extraArgs: string, callArgs: string, kwargs: string)

  /** What one call hands on: the texts filled into the class template of
      lines 379-396, and the import list given to the compiler. */
  datatype Generated = Generated(
    trainerName: string, configName: string, trainer: TrainerTexts, config: ConfigTexts,
    trainerExtras: string, imports: seq<string>)

  datatype Outcome = Skipped | Patched(generated: Generated)

  /** Lines 175-303: the trainer's texts. The tokenizer test reads the
      parameter names of the config. */
  function TrainerPart(code: Snippet -> string, trainerFile: string, params: seq<Param>, configNames: seq<string>): TrainerTexts {
    var tok := AddTokenizer(ArgumentsText(["self"] + RenderAll(KeptParams(params))),
                            CallArgsText(CallAll(KeptParams(params))), configNames);
    var m := MentionsOf(tok.1);
    TrainerTexts(
      tok.0,
      IndentLines(Render(code, TrainerPlan(m)) + StatsSnippet(trainerFile)),
      tok.1, KwargsSuffix(tok.1),
      IndentLines(Render(code, TrainerPostPlan(m))))
  }

  /** Lines 305-367: the config's texts. */
  function ConfigPart(code: Snippet -> string, params: seq<Param>): ConfigTexts {
    var call := CallArgsText(CallAll(KeptParams(params)));
    ConfigTexts(
      OverrideAll(ArgumentsText(["self"] + RenderAll(KeptParams(params))), REPLACEMENTS),
      IndentLines(Render(code, ConfigPlan(ConfigMentionsOf(call)))),
      call, KwargsSuffix(call))
  }

  /** The early returns of lines 129-148: no module, not exactly one trainer
      and one config name, a class `eval` cannot reach, or a class patched
      already. */
  predicate Skips(trainerFile: string, m: Option<TrainerModule>) {
    m.None? || SelectNames(m.value.names, trainerFile).None? ||
    var tn, cn := SelectNames(m.value.names, trainerFile).value.0, SelectNames(m.value.names, trainerFile).value.1;
    tn !in m.value.trainers || cn !in m.value.configs ||
    AlreadyPatched(m.value.trainers[tn].className) || AlreadyPatched(m.value.configs[cn].className)
  }

  /** One call of `_patch_trl_rl_trainers(trainerFile)`; `m` is `None` when
      the module cannot be evaluated. */
  function Patch(code: Snippet -> string, rw: Rewrites, trainerFile: string, m: Option<TrainerModule>): (out: Outcome)
    ensures out == Skipped <==> Skips(trainerFile, m)
  {
    if Skips(trainerFile, m) then Skipped
    else
      var mod := m.value;
      var names := SelectNames(mod.names, trainerFile).value;
      var tn, cn := names.0, names.1;
      var t, c := mod.trainers[tn], mod.configs[cn];
      Patched(Generated(
        tn, cn, TrainerPart(code, trainerFile, t.params, ParamNames(c.params)), ConfigPart(code, c.params),
        VllmSource(t.init, t.source, t.members, t.sources, rw.init, rw.member(trainerFile), tn),
        PublicNames(mod.names) + Added(mod.names, Functions(t.members, t.source), t.sources, rw.member(trainerFile))))
  }

  /** Lines 175-303 step by step. */
  method GenerateTrainer(code: Snippet -> string, trainerFile: string, params: seq<Param>, configNames: seq<string>)
    returns (r: TrainerTexts)
    ensures r == TrainerPart(code, trainerFile, params, configNames)
  {
    var arguments, callArgs := RenderSignature(params);
    var tok := AddTokenizer(arguments, callArgs, configNames);
    arguments, callArgs := tok.0, tok.1;
    var extra, post := AssembleTrainerExtras(code, callArgs, trainerFile);
    extra := IndentLines(extra);
    post := IndentLines(post);
    r := TrainerTexts(arguments, extra, callArgs, KwargsSuffix(callArgs), post);
  }

  /** Lines 305-367 step by step. */
  method GenerateConfig(code: Snippet -> string, params: seq<Param>) returns (r: ConfigTexts)
    ensures r == ConfigPart(code, params)
  {
    var arguments, callArgs := RenderSignature(params);
    arguments := ApplyOverrides(arguments);
    var extra := AssembleConfigExtras(code, callArgs);
    extra := IndentLines(extra);
    r := ConfigTexts(arguments, extra, callArgs, KwargsSuffix(callArgs));
  }

  /** `_patch_trl_rl_trainers` step by step (lines 123-372). */
  method PatchTrainerFile(code: Snippet -> string, rw: Rewrites, trainerFile: string, m: Option<TrainerModule>)
    returns (out: Outcome)
    ensures out == Patch(code, rw, trainerFile, m)
  {
    if m.None? {
      return Skipped;
    }
    var mod := m.value;
    var trainers := TrainerNames(mod.names, trainerFile);
    var configs := ConfigNames(mod.names, trainerFile);
    if |trainers| != 1 {
      return Skipped;
    }
    if |configs| != 1 {
      return Skipped;
    }
    var trainerName, configName := trainers[0], configs[0];
    if trainerName !in mod.trainers {
      return Skipped;
    }
    if configName !in mod.configs {
      return Skipped;
    }
    var trainer, config := mod.trainers[trainerName], mod.configs[configName];
    if AlreadyPatched(trainer.className) {
      return Skipped;
    }
    if AlreadyPatched(config.className) {
      return Skipped;
    }
    var imports := new NameList(PublicNames(mod.names));
    var trainerTexts := GenerateTrainer(code, trainerFile, trainer.params, ParamNames(config.params));
    var configTexts := GenerateConfig(code, config.params);
    var extras := PatchVllm(trainer.init, trainer.source, trainer.members, trainer.sources,
                            rw.init, rw.member(trainerFile), trainerName, mod.names, imports);
    out := Patched(Generated(trainerName, configName, trainerTexts, configTexts, extras, imports.names));
  }

  /** The module after the rebinding of lines 406-414: the selected names now
      refer to classes named `Unsloth` + name. */
  function Rebind(mod: TrainerModule, trainerName: string, configName: string): (r: TrainerModule)
    requires trainerName in mod.trainers && configName in mod.configs
    ensures r.names == mod.names && r.trainers.Keys == mod.trainers.Keys && r.configs.Keys == mod.configs.Keys
    ensures r.trainers[trainerName].className == "Unsloth" + trainerName
    ensures r.configs[configName].className == "Unsloth" + configName
    ensures forall t :: t in mod.trainers && t != trainerName ==> r.trainers[t] == mod.trainers[t]
    ensures forall c :: c in mod.configs && c != configName ==> r.configs[c] == mod.configs[c]
  {
    mod.(trainers := mod.trainers[trainerName := mod.trainers[trainerName].(className := "Unsloth" + trainerName)],
         configs := mod.configs[configName := mod.configs[configName].(className := "Unsloth" + configName)])
  }

  /** After the rebinding of a module that was not skipped, the same names
      are selected and the guard of lines 147-148 fires. */
  lemma RebindSkips(trainerFile: string, mod: TrainerModule)
    requires !Skips(trainerFile, Some(mod))
    ensures var sel := SelectNames(mod.names, trainerFile).value;
      && sel.0 in mod.trainers && sel.1 in mod.configs
      && Skips(trainerFile, Some(Rebind(mod, sel.0, sel.1)))
  {
    var sel := SelectNames(mod.names, trainerFile).value;
    var pfx := "Unsloth";
    assert StartsWith(pfx + sel.0, pfx) by {
      assert (pfx + sel.0)[..|pfx|] == pfx;
    }
    assert SelectNames(Rebind(mod, sel.0, sel.1).names, trainerFile) == Some(sel);
  }

  /** A second call on a patched module changes nothing: the names of the
      generated classes are the selected ones, and once they are rebound the
      call returns early. */
  lemma SecondRunSkipped(code: Snippet -> string, rw: Rewrites, trainerFile: string, mod: TrainerModule)
    requires Patch(code, rw, trainerFile, Some(mod)).Patched?
    ensures var g := Patch(code, rw, trainerFile, Some(mod)).generated;
      && g.trainerName in mod.trainers && g.configName in mod.configs
      && Patch(code, rw, trainerFile, Some(Rebind(mod, g.trainerName, g.configName))) == Skipped
  {
    RebindSkips(trainerFile, mod);
  }

  /** The trainer's formal arguments begin with `self`, whatever the
      tokenizer step appends. */
  lemma TrainerArgumentsStartWithSelf(code: Snippet -> string, trainerFile: string, params: seq<Param>, configNames: seq<string>)
    ensures StartsWith(TrainerPart(code, trainerFile, params, configNames).arguments, "\n" + ARG_INDENT + "self")
  {
    var a0 := ArgumentsText(["self"] + RenderAll(KeptParams(params)));
    ArgumentsStartWithSelf(RenderAll(KeptParams(params)));
    var tok := AddTokenizer(a0, CallArgsText(CallAll(KeptParams(params))), configNames);
    StartsWithTrans(tok.0, a0, "\n" + ARG_INDENT + "self");
  }

  /** The statistics call ends with a newline, so the indented extra
      arguments of the trainer end with a line of 8 spaces. */
  lemma TrainerExtrasEndIndented(code: Snippet -> string, trainerFile: string, params: seq<Param>, configNames: seq<string>)
    ensures EndsWith(TrainerPart(code, trainerFile, params, configNames).extraArgs, "\n" + ARG_INDENT)
  {
    var tok := AddTokenizer(ArgumentsText(["self"] + RenderAll(KeptParams(params))),
                            CallArgsText(CallAll(KeptParams(params))), configNames);
    var x := Render(code, TrainerPlan(MentionsOf(tok.1))) + StatsSnippet(trainerFile);
    assert x == x[..|x| - 1] + "\n" by {
      assert x[|x| - 3..] == "')\n";
    }
    IndentTrailingNewline(x[..|x| - 1]);
    var y := IndentLines(x[..|x| - 1]);
    assert IndentLines(x) == y + ("\n" + ARG_INDENT);
    assert (y + ("\n" + ARG_INDENT))[|y|..] == "\n" + ARG_INDENT;
  }

  /** Identifiers: non-empty and without a trailing comma. */
  predicate PlainNames(ps: seq<Param>) {
    forall p :: p in ps ==> |p.name| > 0 && p.name[|p.name| - 1] != ','
  }

  /** With plain parameter names the config call is followed by `,**kwargs`. */
  lemma ConfigKwargs(code: Snippet -> string, params: seq<Param>)
    requires PlainNames(KeptParams(params))
    ensures ConfigPart(code, params).kwargs == ",**kwargs"
  {
    RenderedCallArgsTakeComma(KeptParams(params));
  }

  /** The import list handed on holds exactly the module's public names. */
  lemma GeneratedImports(code: Snippet -> string, rw: Rewrites, trainerFile: string, mod: TrainerModule)
    requires Patch(code, rw, trainerFile, Some(mod)).Patched?
    ensures forall x :: x in Patch(code, rw, trainerFile, Some(mod)).generated.imports <==> x in PublicNames(mod.names)
  {
    var t := mod.trainers[SelectNames(mod.names, trainerFile).value.0];
    ImportsOnlyDuplicates(mod.names, Functions(t.members, t.source), t.sources, rw.member(trainerFile));
  }

  /** Module `n` after one call of `_patch_trl_rl_trainers(n)` (lines
      406-414): unchanged when the call returns early, else with its selected
      trainer and config classes rebound to the generated ones. Either way a
      further call returns early (`PatchedModuleIdempotent`). */
  function PatchedModule(n: string, mod: TrainerModule): (r: TrainerModule)
    ensures Skips(n, Some(r))
    ensures Skips(n, Some(mod)) ==> r == mod
  {
    if Skips(n, Some(mod)) then mod
    else
      RebindSkips(n, mod);
      var sel := SelectNames(mod.names, n).value;
      Rebind(mod, sel.0, sel.1)
  }

  /** A second call on a module leaves it as the first call did. */
  lemma PatchedModuleIdempotent(n: string, mod: TrainerModule)
    ensures PatchedModule(n, PatchedModule(n, mod)) == PatchedModule(n, mod)
  {
  }

  /** One more call in the package loop keeps its invariant: the modules
      called so far are as one call leaves them, the others as they were. */
  lemma PatchAllStep(ns: seq<string>, n: string, orig: map<string, TrainerModule>,
                     before: map<string, TrainerModule>, after: map<string, TrainerModule>)
    requires before.Keys == orig.Keys
    requires forall k :: k in before && k in ns ==> before[k] == PatchedModule(k, orig[k])
    requires forall k :: k in before && k !in ns ==> before[k] == orig[k]
    requires n in before ==> after == before[n := PatchedModule(n, before[n])]
    requires n !in before ==> after == before
    ensures after.Keys == orig.Keys
    ensures forall k :: k in after && k in ns + [n] ==> after[k] == PatchedModule(k, orig[k])
    ensures forall k :: k in after && k !in ns + [n] ==> after[k] == orig[k]
  {
    if n in before {
      PatchedModuleIdempotent(n, orig[n]);
    }
  }

  /** The package: `dir(trl.trainer)` and the modules `eval` can reach. */
  class Package {
    var names: seq<string>
    var modules: map<string, TrainerModule>

    constructor (names0: seq<string>, modules0: map<string, TrainerModule>)
      ensures names == names0 && modules == modules0
    {
      names := names0;
      modules := modules0;
    }

    /** The effect of one call of `_patch_trl_rl_trainers(n)` on the
        package (lines 406-414): unless the call returns early, the selected
        classes of module `n` are replaced by the generated `Unsloth` ones.
        Afterwards a further call on `n` would return early. */
    method PatchModule(n: string)
      modifies this
      ensures names == old(names) && modules.Keys == old(modules).Keys
      ensures n in old(modules) && !Skips(n, Some(old(modules)[n])) ==>
        var sel := SelectNames(old(modules)[n].names, n).value;
        modules == old(modules)[n := Rebind(old(modules)[n], sel.0, sel.1)]
      ensures !(n in old(modules) && !Skips(n, Some(old(modules)[n]))) ==> modules == old(modules)
      ensures n in modules ==> modules == old(modules)[n := PatchedModule(n, old(modules)[n])]
      ensures n in modules ==> Skips(n, Some(modules[n]))
    {
      if n in modules && !Skips(n, Some(modules[n])) {
        var mod := modules[n];
        var sel := SelectNames(mod.names, n).value;
        RebindSkips(n, mod);
        modules := modules[n := Rebind(mod, sel.0, sel.1)];
      }
    }

    /** `patch_trl_rl_trainers` (lines 539-547): every lower-case `*_trainer`
        module in turn. Each of them ends as one call leaves it, rebound or
        unchanged, so a further call would skip every one of them; other
        modules are untouched. */
    method PatchAll()
      modifies this
      ensures names == old(names) && modules.Keys == old(modules).Keys
      ensures forall n :: n in modules && n in TrainerModules(names) ==> modules[n] == PatchedModule(n, old(modules)[n])
      ensures forall n :: n in TrainerModules(names) && n in modules ==> Skips(n, Some(modules[n]))
      ensures forall n :: n in modules && n !in TrainerModules(names) ==> modules[n] == old(modules)[n]
    {
      var todo := TrainerModules(names);
      for i := 0 to |todo|
        invariant names == old(names) && modules.Keys == old(modules).Keys
        invariant forall n :: n in modules && n in todo[..i] ==> modules[n] == PatchedModule(n, old(modules)[n])
        invariant forall n :: n in modules && n !in todo[..i] ==> modules[n] == old(modules)[n]
      {
        ghost var before := modules;
        PatchModule(todo[i]);
        PatchAllStep(todo[..i], todo[i], old(modules), before, modules);
        assert todo[..i + 1] == todo[..i] + [todo[i]];
      }
      assert todo[..|todo|] == todo;
    }
  }
}
