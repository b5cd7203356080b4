/** Name selection of `_patch_trl_rl_trainers` and `patch_trl_rl_trainers`
    (unsloth/models/rl.py:133-148, 544): the list comprehensions that pick
    the trainer and config class of a trainer module, the already-patched
    guard, the public-name filter and the filter over the package's module
    names. The `dir()` listings are given as sequences of names. */
module Selection {
  import opened Text

  /** A list comprehension `[x for x in xs if keep(x)]` over names. */
  function Filter(xs: seq<string>, keep: string -> bool): (r: seq<string>)
    ensures |r| <= |xs|
    ensures forall x :: x in r <==> x in xs && keep(x)
  {
    if xs == [] then []
    else (if keep(xs[0]) then [xs[0]] else []) + Filter(xs[1..], keep)
  }

  /** Filtering keeps the order: it distributes over concatenation. */
  lemma {:induction false} FilterAppend(a: seq<string>, b: seq<string>, keep: string -> bool)
    ensures Filter(a + b, keep) == Filter(a, keep) + Filter(b, keep)
    decreases |a|
  {
    if a == [] {
      assert a + b == b;
    } else {
      assert (a + b)[0] == a[0];
      assert (a + b)[1..] == a[1..] + b;
      FilterAppend(a[1..], b, keep);
      AppendAssoc(if keep(a[0]) then [a[0]] else [], Filter(a[1..], keep), Filter(b, keep));
    }
  }

  /** Filtering twice with the same test is filtering once. */
  lemma {:induction false} FilterIdempotent(xs: seq<string>, keep: string -> bool)
    ensures Filter(Filter(xs, keep), keep) == Filter(xs, keep)
    decreases |xs|
  {
    if xs != [] {
      FilterIdempotent(xs[1..], keep);
      if keep(xs[0]) {
        var r := Filter(xs, keep);
        assert r == [xs[0]] + Filter(xs[1..], keep);
        assert r[0] == xs[0] && r[1..] == Filter(xs[1..], keep);
      } else {
        assert Filter(xs, keep) == Filter(xs[1..], keep);
      }
    }
  }

  /** A one-element filter result is the only element that passes. */
  lemma SingletonFilter(xs: seq<string>, keep: string -> bool, x: string)
    requires |Filter(xs, keep)| == 1
    requires x in xs && keep(x)
    ensures x == Filter(xs, keep)[0]
  {
    assert x in Filter(xs, keep);
  }

  /** `trainer_file.split("_")[0]`, the prefix a class name must contain. */
  function FilePrefix(trainerFile: string): (r: string)
    ensures StartsWith(trainerFile, r) && '_' !in r
  {
    BeforeFirst(trainerFile, '_')
  }

  /** The test of lines 133-134 with `word` either "Trainer" or "Config". */
  predicate IsClassName(x: string, word: string, prefix: string) {
    EndsWith(x, word) && x != word && Contains(Lower(x), prefix)
  }

  function TrainerNames(names: seq<string>, trainerFile: string): seq<string> {
    Filter(names, x => IsClassName(x, "Trainer", FilePrefix(trainerFile)))
  }

  function ConfigNames(names: seq<string>, trainerFile: string): seq<string> {
    Filter(names, x => IsClassName(x, "Config", FilePrefix(trainerFile)))
  }

  /** Lines 133-140: the trainer and config names, when exactly one of each
      passes the filter. */
  function SelectNames(names: seq<string>, trainerFile: string): (r: Option<(string, string)>)
    ensures r.Some? ==>
      && r.value.0 in names && IsClassName(r.value.0, "Trainer", FilePrefix(trainerFile))
      && r.value.1 in names && IsClassName(r.value.1, "Config", FilePrefix(trainerFile))
      && (forall x :: x in names && IsClassName(x, "Trainer", FilePrefix(trainerFile)) ==> x == r.value.0)
      && (forall x :: x in names && IsClassName(x, "Config", FilePrefix(trainerFile)) ==> x == r.value.1)
  {
    var t, c := TrainerNames(names, trainerFile), ConfigNames(names, trainerFile);
    if |t| != 1 || |c| != 1 then None
    else
      assert t[0] in t && c[0] in c;
      forall x | x in names && IsClassName(x, "Trainer", FilePrefix(trainerFile))
        ensures x == t[0]
      {
        SingletonFilter(names, x => IsClassName(x, "Trainer", FilePrefix(trainerFile)), x);
      }
      forall x | x in names && IsClassName(x, "Config", FilePrefix(trainerFile))
        ensures x == c[0]
      {
        SingletonFilter(names, x => IsClassName(x, "Config", FilePrefix(trainerFile)), x);
      }
      Some((t[0], c[0]))
  }

  /** Two different trainer candidates, or two different config candidates,
      stop the patch. */
  lemma AmbiguousNamesSkip(names: seq<string>, trainerFile: string, x: string, y: string, word: string)
    requires word == "Trainer" || word == "Config"
    requires x in names && y in names && x != y
    requires IsClassName(x, word, FilePrefix(trainerFile)) && IsClassName(y, word, FilePrefix(trainerFile))
    ensures SelectNames(names, trainerFile) == None
  {
  }

  /** No trainer candidate, or no config candidate, stops the patch too. */
  lemma MissingNamesSkip(names: seq<string>, trainerFile: string, word: string)
    requires word == "Trainer" || word == "Config"
    requires forall x :: x in names ==> !IsClassName(x, word, FilePrefix(trainerFile))
    ensures SelectNames(names, trainerFile) == None
  {
  }

  /** When exactly one entry of each kind passes, that pair is selected. */
  lemma UniqueNamesSelected(names: seq<string>, trainerFile: string, t: string, c: string)
    requires TrainerNames(names, trainerFile) == [t] && ConfigNames(names, trainerFile) == [c]
    ensures SelectNames(names, trainerFile) == Some((t, c))
  {
  }

  /** Lines 147-148: a class whose `__name__` starts with "Unsloth" was
      produced by an earlier run. */
  predicate AlreadyPatched(className: string) {
    StartsWith(className, "Unsloth")
  }

  /** Line 151: the names a generated module imports. */
  function PublicNames(names: seq<string>): (r: seq<string>)
    ensures forall x :: x in r <==> x in names && !StartsWith(x, "_")
  {
    Filter(names, x => !StartsWith(x, "_"))
  }

  /** Line 544: the module names of the package that are patched. */
  predicate IsTrainerModule(x: string) {
    IsLowerName(x) && EndsWith(x, "_trainer")
  }

  function TrainerModules(names: seq<string>): (r: seq<string>)
    ensures forall x :: x in r <==> x in names && IsTrainerModule(x)
  {
    Filter(names, IsTrainerModule)
  }

  /** The modules named like `grpo_trainer` pass and names with an
      upper-case letter do not; a bare `_trainer` passes as well. */
  lemma TrainerModuleExamples()
    ensures IsTrainerModule("grpo_trainer")
    ensures !IsTrainerModule("GRPO_trainer")
    ensures IsTrainerModule("_trainer")
  {
    assert IsLowerAscii("grpo_trainer"[0]);
    assert IsLowerAscii("_trainer"[1]);
    assert IsUpperAscii("GRPO_trainer"[0]);
  }
}
