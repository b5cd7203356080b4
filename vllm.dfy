/** The text bookkeeping of `patch_vllm` (unsloth/models/rl.py:418-536): the
    `str.replace` chain that removes the PEFT branches from the trainer's
    `__init__`, the ordered `changed` dictionary of rewritten member
    sources, the in-place growth of the caller's import list, the
    replacement of every changed source inside the class source and the
    renaming of the first `class Name`. The source texts that `inspect`
    returns are inputs; the regular-expression rewrites of lines 430-470
    (the vLLM set-up in `__init__`) and 488-514 (every member) are opaque
    functions given as parameters. */
module Vllm {
  import opened Text
  import opened Selection

  /** An `old -> new` pair of texts. */
  datatype Edit = Edit(before: string, after: string)

  /** Successive `s = s.replace(old, new)` statements, in order. */
  function ReplaceChain(s: string, edits: seq<Edit>): string
    decreases |edits|
  {
    if edits == [] then s else ReplaceChain(Replace(s, edits[0].before, edits[0].after), edits[1..])
  }

  /** Edits whose old text does not occur in the text, even after the
      earlier ones, leave it alone. */
  lemma {:induction false} ReplaceChainAbsent(s: string, edits: seq<Edit>)
    requires forall e :: e in edits ==> !Contains(s, e.before)
    ensures ReplaceChain(s, edits) == s
    decreases |edits|
  {
    if edits != [] {
      ReplaceAbsent(s, edits[0].before, edits[0].after);
      assert forall e :: e in edits[1..] ==> e in edits;
      ReplaceChainAbsent(s, edits[1..]);
    }
  }

  /** An edit whose old text occurs is applied: its first occurrence becomes
      the new text and the later edits work on the result. */
  lemma ReplaceChainApplies(a: string, e: Edit, b: string, rest: seq<Edit>)
    requires e.before != [] && NoOccurrenceBefore(a + e.before + b, e.before, |a|)
    ensures ReplaceChain(a + e.before + b, [e] + rest) ==
      ReplaceChain(a + e.after + Replace(b, e.before, e.after), rest)
  {
    ReplaceAt(a, e.before, b, e.after);
    assert ([e] + rest)[1..] == rest;
  }

  /** Edits that replace a text by itself leave every text alone. */
  lemma {:induction false} ReplaceChainIdentity(s: string, edits: seq<Edit>)
    requires forall e :: e in edits ==> e.before == e.after
    ensures ReplaceChain(s, edits) == s
    decreases |edits|
  {
    if edits != [] {
      ReplaceIdentity(s, edits[0].before);
      assert forall e :: e in edits[1..] ==> e in edits;
      ReplaceChainIdentity(s, edits[1..]);
    }
  }

  const PEFT: string := "peft_config"

  /** Lines 423-427: the PEFT branches become `if False:` and the PEFT
      wrapping of the model is dropped. */
  const PEFT_EDITS: seq<Edit> := [
    Edit("elif " + PEFT + " is None:", "elif False:"),
    Edit("elif " + PEFT + " is not None:", "elif False:"),
    Edit(PEFT_BRANCH, "if False:"),
    Edit("if " + PEFT + " is not None:", "if False:"),
    Edit("get_peft_model(model, " + PEFT + ")", "model")
  ]

  function RemovePeft(init: string): string {
    ReplaceChain(init, PEFT_EDITS)
  }

  /** An `__init__` that never mentions `peft_config` keeps its text. */
  lemma RemovePeftUntouched(init: string)
    requires !Contains(init, PEFT)
    ensures RemovePeft(init) == init
  {
    ContainsInfix("elif ", PEFT, " is None:");
    ContainsInfix("elif ", PEFT, " is not None:");
    ContainsInfix("if ", PEFT, " is None:");
    ContainsInfix("if ", PEFT, " is not None:");
    ContainsInfix("get_peft_model(model, ", PEFT, ")");
    forall e | e in PEFT_EDITS
      ensures !Contains(init, e.before)
    {
      if Contains(init, e.before) {
        ContainsTransitive(init, e.before, PEFT);
      }
    }
    ReplaceChainAbsent(init, PEFT_EDITS);
  }

  /** The characters the PEFT proofs look at. */
  lemma PeftChars()
    ensures PEFT[0] == 'p' && PEFT[0] !in "if " && PEFT[0] !in " is None:" && PEFT[0] !in "if False:"
    ensures forall i :: 0 < i < |PEFT| ==> PEFT[i] != PEFT[0]
    ensures ' ' !in PEFT && '\n' !in PEFT
  {
    assert PEFT[1..] == "eft_config";
    forall i | 0 < i < |PEFT|
      ensures PEFT[i] != PEFT[0]
    {
      assert PEFT[i] == PEFT[1..][i - 1];
    }
  }

  /** An edit text that mentions `peft_config` is absent from a text that
      does not. */
  lemma MentionAbsent(t: string, e: string)
    requires !Contains(t, PEFT) && Contains(e, PEFT)
    ensures !Contains(t, e)
  {
    if Contains(t, e) {
      ContainsTransitive(t, e, PEFT);
      assert false;
    }
  }

  /** The branch `if peft_config is None:`. */
  const PEFT_BRANCH: string := "if " + PEFT + " is None:"

  /** In a text whose only `peft_config` is that of a branch beginning a
      statement, an `elif` edit finds nothing. */
  lemma ElifAbsent(a: string, b: string, tail: string)
    requires !Contains(a, PEFT) && !Contains(b, PEFT)
    requires a == [] || a[|a| - 1] == ' ' || a[|a| - 1] == '\n'
    ensures !Contains(a + PEFT_BRANCH + b, "elif " + PEFT + tail)
  {
    var s, e := a + PEFT_BRANCH + b, "elif " + PEFT + tail;
    PeftChars();
    if Contains(s, e) {
      var i := ContainsPosition(s, e);
      assert e[5..5 + |PEFT|] == PEFT;
      OccurrenceAtOffset(s, e, i, PEFT, 5);
      OnlyOccurrence(a, "if ", PEFT, " is None:", b, i + 5);
      CharOfOccurrence(s, e, i, 1);
      assert false;
    }
  }

  /** The five replacements of lines 423-427, one after the other. */
  lemma RemovePeftSteps(init: string)
    ensures RemovePeft(init) ==
      var s0 := Replace(init, "elif " + PEFT + " is None:", "elif False:");
      var s1 := Replace(s0, "elif " + PEFT + " is not None:", "elif False:");
      var s2 := Replace(s1, PEFT_BRANCH, "if False:");
      var s3 := Replace(s2, "if " + PEFT + " is not None:", "if False:");
      Replace(s3, "get_peft_model(model, " + PEFT + ")", "model")
  {
    var es := PEFT_EDITS;
    var s0 := Replace(init, es[0].before, es[0].after);
    var s1 := Replace(s0, es[1].before, es[1].after);
    var s2 := Replace(s1, es[2].before, es[2].after);
    var s3 := Replace(s2, es[3].before, es[3].after);
    assert ReplaceChain(init, es) == ReplaceChain(s0, es[1..]);
    assert ReplaceChain(s0, es[1..]) == ReplaceChain(s1, es[2..]);
    assert ReplaceChain(s1, es[2..]) == ReplaceChain(s2, es[3..]);
    assert ReplaceChain(s2, es[3..]) == ReplaceChain(s3, es[4..]);
    assert ReplaceChain(s3, es[4..]) == Replace(s3, es[4].before, es[4].after);
  }

  /** The branch that begins a statement and is the only mention of
      `peft_config` is the only occurrence of the whole branch text. */
  lemma BranchReplaced(a: string, b: string)
    requires !Contains(a, PEFT) && !Contains(b, PEFT)
    requires a == [] || a[|a| - 1] == ' ' || a[|a| - 1] == '\n'
    ensures Replace(a + PEFT_BRANCH + b, PEFT_BRANCH, "if False:") == a + "if False:" + b
  {
    var s := a + PEFT_BRANCH + b;
    PeftChars();
    assert PEFT_BRANCH[3..3 + |PEFT|] == PEFT;
    forall j | 0 <= j < |a| && j <= |s|
      ensures !StartsWith(s[j..], PEFT_BRANCH)
    {
      if StartsWith(s[j..], PEFT_BRANCH) {
        OccurrenceAtOffset(s, PEFT_BRANCH, j, PEFT, 3);
        OnlyOccurrence(a, "if ", PEFT, " is None:", b, j + 3);
        assert false;
      }
    }
    ContainsInfix("if ", PEFT, " is None:");
    MentionAbsent(b, PEFT_BRANCH);
    ReplaceOnly(a, PEFT_BRANCH, b, "if False:");
  }

  /** The last two edits find nothing in a text without `peft_config`. */
  lemma LastEditsAbsent(t: string)
    requires !Contains(t, PEFT)
    ensures Replace(Replace(t, "if " + PEFT + " is not None:", "if False:"),
                    "get_peft_model(model, " + PEFT + ")", "model") == t
  {
    ContainsInfix("if ", PEFT, " is not None:");
    ContainsInfix("get_peft_model(model, ", PEFT, ")");
    MentionAbsent(t, "if " + PEFT + " is not None:");
    MentionAbsent(t, "get_peft_model(model, " + PEFT + ")");
    ReplaceAbsent(t, "if " + PEFT + " is not None:", "if False:");
    ReplaceAbsent(t, "get_peft_model(model, " + PEFT + ")", "model");
  }

  /** Lines 423-427 on an `__init__` whose only mention of `peft_config` is
      one `if peft_config is None:` beginning a statement: that branch becomes
      `if False:` and nothing else changes. */
  lemma RemovePeftDisablesBranch(a: string, b: string)
    requires !Contains(a, PEFT) && !Contains(b, PEFT)
    requires a == [] || a[|a| - 1] == ' ' || a[|a| - 1] == '\n'
    ensures RemovePeft(a + PEFT_BRANCH + b) == a + "if False:" + b
  {
    var s := a + PEFT_BRANCH + b;
    RemovePeftSteps(s);
    ElifAbsent(a, b, " is None:");
    ElifAbsent(a, b, " is not None:");
    ReplaceAbsent(s, "elif " + PEFT + " is None:", "elif False:");
    ReplaceAbsent(s, "elif " + PEFT + " is not None:", "elif False:");
    BranchReplaced(a, b);
    PeftChars();
    NoOccurrenceAround(a, "if False:", b, PEFT);
    LastEditsAbsent(a + "if False:" + b);
  }

  /** The replacement texts of lines 425-427 hold a character neither branch
      test uses, so no branch test can overlap them. */
  lemma ReplacementsShieldBranches()
    ensures Shields("if False:", PEFT_BRANCH, 3) && Shields("if False:", PEFT_NEGATED, 3)
    ensures Shields("model", PEFT_BRANCH, 0) && Shields("model", PEFT_NEGATED, 0)
  {
    assert "if False:"[..3] == "if " && "if False:"[4..] == "alse:";
    assert "model"[..0] == [] && "model"[1..] == "odel";
  }

  const PEFT_NEGATED: string := "if " + PEFT + " is not None:"

  /** Whatever the `__init__`, lines 423-427 leave no `if peft_config is None:`
      and no `if peft_config is not None:`, hence no `elif` form of them
      either: no replacement text can rebuild one. */
  lemma RemovePeftClearsBranches(init: string)
    ensures !Contains(RemovePeft(init), PEFT_BRANCH) && !Contains(RemovePeft(init), PEFT_NEGATED)
    ensures !Contains(RemovePeft(init), "elif " + PEFT + " is None:")
    ensures !Contains(RemovePeft(init), "elif " + PEFT + " is not None:")
  {
    var s0 := Replace(init, "elif " + PEFT + " is None:", "elif False:");
    var s1 := Replace(s0, "elif " + PEFT + " is not None:", "elif False:");
    var s2 := Replace(s1, PEFT_BRANCH, "if False:");
    var s3 := Replace(s2, PEFT_NEGATED, "if False:");
    var g := "get_peft_model(model, " + PEFT + ")";
    var r := Replace(s3, g, "model");
    RemovePeftSteps(init);
    assert RemovePeft(init) == r;
    ReplacementsShieldBranches();
    ReplaceLeavesNone(s1, PEFT_BRANCH, "if False:", PEFT_BRANCH, 3);
    ReplaceLeavesNone(s2, PEFT_NEGATED, "if False:", PEFT_BRANCH, 3);
    ReplaceLeavesNone(s2, PEFT_NEGATED, "if False:", PEFT_NEGATED, 3);
    ReplaceLeavesNone(s3, g, "model", PEFT_BRANCH, 0);
    ReplaceLeavesNone(s3, g, "model", PEFT_NEGATED, 0);
    ElifHoldsBranch(r, " is None:");
    ElifHoldsBranch(r, " is not None:");
  }

  /** An `elif` test holds the `if` test of the same condition, so a text
      without the latter has neither. */
  lemma ElifHoldsBranch(t: string, tail: string)
    requires !Contains(t, "if " + PEFT + tail)
    ensures !Contains(t, "elif " + PEFT + tail)
  {
    assert "elif " + PEFT + tail == "el" + ("if " + PEFT + tail) + "";
    ContainsInfix("el", "if " + PEFT + tail, "");
    if Contains(t, "elif " + PEFT + tail) {
      ContainsTransitive(t, "elif " + PEFT + tail, "if " + PEFT + tail);
      assert false;
    }
  }

  /** Lines 474-476: the members whose `def` occurs in the class source. */
  function Functions(members: seq<string>, classSource: string): seq<string> {
    Filter(members, x => Contains(classSource, "def " + x))
  }

  /** The members kept are exactly those whose `def` occurs, in their order. */
  lemma FunctionsFound(members: seq<string>, classSource: string)
    ensures forall x :: x in Functions(members, classSource) <==> x in members && Contains(classSource, "def " + x)
    ensures |Functions(members, classSource)| <= |members|
  {
  }

  /** A member the rewrite of lines 488-514 changes; a member whose source
      `inspect` cannot give is absent from `sources` (lines 481-484). */
  predicate Rewritten(f: string, sources: map<string, string>, rewrite: string -> string) {
    f in sources && rewrite(sources[f]) != sources[f]
  }

  /** An entry of the ordered `changed` dictionary. */
  datatype Entry = Entry(name: string, edit: Edit)

  function Names(d: seq<Entry>): (r: seq<string>)
    ensures |r| == |d| && forall i :: 0 <= i < |d| ==> r[i] == d[i].name
  {
    seq(|d|, i requires 0 <= i < |d| => d[i].name)
  }

  predicate Unique(xs: seq<string>) {
    forall i, j :: 0 <= i < j < |xs| ==> xs[i] != xs[j]
  }

  /** The position of the first `k` in `names`, or `|names|`. */
  function IndexOf(names: seq<string>, k: string): (i: nat)
    ensures i <= |names| && (i < |names| ==> names[i] == k)
    ensures forall j :: 0 <= j < i ==> names[j] != k
  {
    if names == [] then 0
    else if names[0] == k then 0
    else 1 + IndexOf(names[1..], k)
  }

  /** `d[e.name] = e.edit` on an insertion-ordered dictionary: a key already
      present keeps its place and gets the new value, a new key goes last. */
  function Put(d: seq<Entry>, e: Entry): (r: seq<Entry>)
    requires Unique(Names(d))
    ensures Unique(Names(r))
    ensures Names(r) == if e.name in Names(d) then Names(d) else Names(d) + [e.name]
    ensures e in r
    ensures forall x :: x in r ==> x == e || x in d
    ensures forall x :: x in d && x.name != e.name ==> x in r
  {
    var i := IndexOf(Names(d), e.name);
    if i < |d| then
      assert Names(d[i := e]) == Names(d);
      d[i := e]
    else
      assert Names(d + [e]) == Names(d) + [e.name];
      d + [e]
  }

  /** `changed` after the loop of lines 480-523 has visited `fs`: it starts
      with the edited `__init__` (line 478) and every member the rewrite
      changes is put into it. */
  function Changed(init: Edit, fs: seq<string>, sources: map<string, string>, rewrite: string -> string): (r: seq<Entry>)
    ensures Unique(Names(r)) && |r| >= 1
    decreases |fs|
  {
    if fs == [] then [Entry("__init__", init)]
    else
      var d := Changed(init, fs[..|fs| - 1], sources, rewrite);
      var f := fs[|fs| - 1];
      if Rewritten(f, sources, rewrite) then Put(d, Entry(f, Edit(sources[f], rewrite(sources[f])))) else d
  }

  /** The `__init__` entry stays first; it holds the PEFT and vLLM edits of
      lines 423-470 unless the member loop itself rewrites `__init__`, in
      which case that rewrite of the original source replaces them. */
  lemma {:induction false} ChangedInit(init: Edit, fs: seq<string>, sources: map<string, string>, rewrite: string -> string)
    ensures Changed(init, fs, sources, rewrite)[0] ==
      if "__init__" in fs && Rewritten("__init__", sources, rewrite)
      then Entry("__init__", Edit(sources["__init__"], rewrite(sources["__init__"])))
      else Entry("__init__", init)
    decreases |fs|
  {
    if fs != [] {
      var init' := fs[..|fs| - 1];
      var f := fs[|fs| - 1];
      var d := Changed(init, init', sources, rewrite);
      ChangedInit(init, init', sources, rewrite);
      assert fs == init' + [f];
      assert "__init__" in fs <==> "__init__" in init' || f == "__init__";
      if Rewritten(f, sources, rewrite) {
        var e := Entry(f, Edit(sources[f], rewrite(sources[f])));
        assert d[0].name == "__init__";
        if f == "__init__" {
          assert IndexOf(Names(d), f) == 0;
        } else {
          assert IndexOf(Names(d), f) != 0;
        }
      }
    }
  }

  /** Every entry other than the first records a member the rewrite changes,
      with its original and its rewritten source. */
  lemma {:induction false} ChangedEntries(init: Edit, fs: seq<string>, sources: map<string, string>, rewrite: string -> string)
    ensures forall e :: e in Changed(init, fs, sources, rewrite) ==>
      e == Entry("__init__", init) ||
      (e.name in fs && Rewritten(e.name, sources, rewrite) &&
       e.edit == Edit(sources[e.name], rewrite(sources[e.name])))
    decreases |fs|
  {
    if fs != [] {
      var init' := fs[..|fs| - 1];
      ChangedEntries(init, init', sources, rewrite);
      assert forall x :: x in init' ==> x in fs;
    }
  }

  /** Every visited member the rewrite changes is in `changed`, with its
      rewritten source. */
  lemma {:induction false} ChangedComplete(init: Edit, fs: seq<string>, sources: map<string, string>, rewrite: string -> string)
    ensures forall f :: f in fs && Rewritten(f, sources, rewrite) ==>
      Entry(f, Edit(sources[f], rewrite(sources[f]))) in Changed(init, fs, sources, rewrite)
    decreases |fs|
  {
    if fs != [] {
      var init' := fs[..|fs| - 1];
      var last := fs[|fs| - 1];
      ChangedComplete(init, init', sources, rewrite);
      assert fs == init' + [last];
    }
  }

  /** Line 520: the public names of the trainer module that occur in a
      rewritten source. */
  function Found(allImports: seq<string>, source: string): (r: seq<string>)
    ensures forall x :: x in r <==> x in PublicNames(allImports) && Contains(source, x)
  {
    Filter(allImports, x => !StartsWith(x, "_") && Contains(source, x))
  }

  /** What the loop appends to the caller's import list. */
  function Added(allImports: seq<string>, fs: seq<string>, sources: map<string, string>, rewrite: string -> string): seq<string>
    decreases |fs|
  {
    if fs == [] then []
    else
      var f := fs[|fs| - 1];
      Added(allImports, fs[..|fs| - 1], sources, rewrite) +
      (if Rewritten(f, sources, rewrite) then Found(allImports, rewrite(sources[f])) else [])
  }

  /** The names appended are exactly the public names that occur in the
      rewritten source of some changed member. */
  lemma {:induction false} AddedNames(allImports: seq<string>, fs: seq<string>, sources: map<string, string>, rewrite: string -> string, x: string)
    ensures x in Added(allImports, fs, sources, rewrite) <==>
      x in PublicNames(allImports) &&
      exists f :: f in fs && Rewritten(f, sources, rewrite) && Contains(rewrite(sources[f]), x)
    decreases |fs|
  {
    if fs != [] {
      var init', f := fs[..|fs| - 1], fs[|fs| - 1];
      AddedNames(allImports, init', sources, rewrite, x);
      assert fs == init' + [f];
      if x in PublicNames(allImports) && Rewritten(f, sources, rewrite) && Contains(rewrite(sources[f]), x) {
        assert x in Found(allImports, rewrite(sources[f]));
      }
    }
  }

  /** The caller's list starts as the public names of the module (line 151),
      so the names appended are all already in it: the list only gains
      duplicates, and the deduplication at line 526 rebinds a local name and
      never reaches the caller. */
  lemma ImportsOnlyDuplicates(allImports: seq<string>, fs: seq<string>, sources: map<string, string>, rewrite: string -> string)
    ensures forall x :: x in PublicNames(allImports) + Added(allImports, fs, sources, rewrite) <==> x in PublicNames(allImports)
  {
    forall x | x in Added(allImports, fs, sources, rewrite)
      ensures x in PublicNames(allImports)
    {
      AddedNames(allImports, fs, sources, rewrite, x);
    }
  }

  function Edits(d: seq<Entry>): (r: seq<Edit>)
    ensures |r| == |d| && forall i :: 0 <= i < |d| ==> r[i] == d[i].edit
  {
    seq(|d|, i requires 0 <= i < |d| => d[i].edit)
  }

  /** Lines 533-535: only the first `class Name` becomes `class _UnslothName`. */
  function RenameClass(source: string, trainerName: string): string {
    ReplaceFirst(source, "class " + trainerName, "class _Unsloth" + trainerName)
  }

  /** The rename touches the first occurrence only: the text before it and
      everything after it, later occurrences included, are kept. */
  lemma RenameFirstOnly(before: string, trainerName: string, after: string)
    requires NoOccurrenceBefore(before + ("class " + trainerName) + after, "class " + trainerName, |before|)
    ensures RenameClass(before + ("class " + trainerName) + after, trainerName) ==
      before + ("class _Unsloth" + trainerName) + after
  {
    ReplaceFirstAt(before, "class " + trainerName, after, "class _Unsloth" + trainerName);
  }

  /** A class source without `class Name` is returned as it is. */
  lemma RenameAbsent(source: string, trainerName: string)
    requires !Contains(source, "class " + trainerName)
    ensures RenameClass(source, trainerName) == source
  {
    ReplaceFirstAbsent(source, "class " + trainerName, "class _Unsloth" + trainerName);
  }

  /** The value `patch_vllm` returns: always a string, so the `None`
      fallback of lines 371-372 is never taken. */
  function VllmSource(init: string, classSource: string, members: seq<string>, sources: map<string, string>,
                      vllmRewrite: string -> string, rewrite: string -> string, trainerName: string): string
  {
    var changed := Changed(Edit(init, vllmRewrite(RemovePeft(init))), Functions(members, classSource), sources, rewrite);
    RenameClass(ReplaceChain(classSource, Edits(changed)), trainerName)
  }

  /** When neither the `__init__` edits nor the member rewrite change
      anything, the result is the class source with only the rename. */
  lemma VllmSourceUntouched(init: string, classSource: string, members: seq<string>, sources: map<string, string>,
                            vllmRewrite: string -> string, rewrite: string -> string, trainerName: string)
    requires vllmRewrite(RemovePeft(init)) == init
    requires forall f :: f in members ==> !Rewritten(f, sources, rewrite)
    ensures VllmSource(init, classSource, members, sources, vllmRewrite, rewrite, trainerName) ==
      RenameClass(classSource, trainerName)
  {
    var fs := Functions(members, classSource);
    var changed := Changed(Edit(init, init), fs, sources, rewrite);
    ChangedEntries(Edit(init, init), fs, sources, rewrite);
    forall e | e in Edits(changed)
      ensures e.before == e.after
    {
      var i :| 0 <= i < |changed| && Edits(changed)[i] == e;
      assert changed[i] in changed;
    }
    ReplaceChainIdentity(classSource, Edits(changed));
  }

  /** With no member rewritten, `changed` holds the `__init__` entry alone. */
  lemma {:induction false} ChangedInitOnly(init: Edit, fs: seq<string>, sources: map<string, string>, rewrite: string -> string)
    requires forall f :: f in fs ==> !Rewritten(f, sources, rewrite)
    ensures Changed(init, fs, sources, rewrite) == [Entry("__init__", init)]
    decreases |fs|
  {
    if fs != [] {
      assert fs[|fs| - 1] in fs;
      assert forall f :: f in fs[..|fs| - 1] ==> f in fs;
      ChangedInitOnly(init, fs[..|fs| - 1], sources, rewrite);
    }
  }

  /** Lines 529-531 at work: when only `__init__` is edited and its source
      occurs once in the class source, the edited `__init__` takes its place
      there and the rest of the class source is kept. */
  lemma InitEditApplied(init: string, before: string, after: string, members: seq<string>, sources: map<string, string>,
                        vllmRewrite: string -> string, rewrite: string -> string, trainerName: string)
    requires init != []
    requires forall f :: f in members ==> !Rewritten(f, sources, rewrite)
    requires NoOccurrenceBefore(before + init + after, init, |before|) && !Contains(after, init)
    ensures VllmSource(init, before + init + after, members, sources, vllmRewrite, rewrite, trainerName) ==
      RenameClass(before + vllmRewrite(RemovePeft(init)) + after, trainerName)
  {
    var classSource := before + init + after;
    var e := Edit(init, vllmRewrite(RemovePeft(init)));
    var fs := Functions(members, classSource);
    ChangedInitOnly(e, fs, sources, rewrite);
    var es := Edits(Changed(e, fs, sources, rewrite));
    assert es == [e];
    assert ReplaceChain(classSource, es) == ReplaceChain(Replace(classSource, init, e.after), []);
    ReplaceOnly(before, init, after, e.after);
  }

  /** The caller's `imports` list, which `patch_vllm` extends in place. */
  class NameList {
    var names: seq<string>

    constructor (names0: seq<string>)
      ensures names == names0
    {
      names := names0;
    }

    /** `names += xs` */
    method Extend(xs: seq<string>)
      modifies this
      ensures names == old(names) + xs
    {
      names := names + xs;
    }
  }

  /** One more visited member, for `Changed` and `Added` alike. */
  lemma LoopStep(init: Edit, allImports: seq<string>, fs: seq<string>, i: nat, sources: map<string, string>, rewrite: string -> string)
    requires i < |fs|
    ensures Changed(init, fs[..i + 1], sources, rewrite) ==
      if Rewritten(fs[i], sources, rewrite)
      then Put(Changed(init, fs[..i], sources, rewrite), Entry(fs[i], Edit(sources[fs[i]], rewrite(sources[fs[i]]))))
      else Changed(init, fs[..i], sources, rewrite)
    ensures Added(allImports, fs[..i + 1], sources, rewrite) ==
      Added(allImports, fs[..i], sources, rewrite) +
      (if Rewritten(fs[i], sources, rewrite) then Found(allImports, rewrite(sources[fs[i]])) else [])
  {
    assert fs[..i + 1][..i] == fs[..i];
  }

  /** Lines 528-531: every recorded edit, in the order of `changed`. */
  method ApplyEdits(source: string, edits: seq<Edit>) returns (text: string)
    ensures text == ReplaceChain(source, edits)
  {
    text := source;
    var j := 0;
    while j < |edits|
      invariant 0 <= j <= |edits|
      invariant ReplaceChain(text, edits[j..]) == ReplaceChain(source, edits)
    {
      assert edits[j..][1..] == edits[j + 1..];
      text := Replace(text, edits[j].before, edits[j].after);
      j := j + 1;
    }
  }

  /** `patch_vllm` (lines 418-536) with the texts `inspect` gives as inputs:
      the caller's list grows by the names `Added` describes and the result
      is `VllmSource`. */
  method PatchVllm(init: string, classSource: string, members: seq<string>, sources: map<string, string>,
                   vllmRewrite: string -> string, rewrite: string -> string, trainerName: string,
                   allImports: seq<string>, imports: NameList) returns (r: string)
    modifies imports
    ensures imports.names == old(imports.names) + Added(allImports, Functions(members, classSource), sources, rewrite)
    ensures r == VllmSource(init, classSource, members, sources, vllmRewrite, rewrite, trainerName)
  {
    var newInit := RemovePeft(init);
    newInit := vllmRewrite(newInit);
    var functions := Functions(members, classSource);
    var changed := [Entry("__init__", Edit(init, newInit))];
    var i := 0;
    while i < |functions|
      invariant 0 <= i <= |functions|
      invariant changed == Changed(Edit(init, newInit), functions[..i], sources, rewrite)
      invariant imports.names == old(imports.names) + Added(allImports, functions[..i], sources, rewrite)
    {
      var f := functions[i];
      LoopStep(Edit(init, newInit), allImports, functions, i, sources, rewrite);
      if f in sources {
        var source := sources[f];
        var rewritten := rewrite(source);
        if rewritten != source {
          AppendAssoc(old(imports.names), Added(allImports, functions[..i], sources, rewrite), Found(allImports, rewritten));
          imports.Extend(Found(allImports, rewritten));
          changed := Put(changed, Entry(f, Edit(source, rewritten)));
        }
      }
      i := i + 1;
    }
    assert functions[..|functions|] == functions;
    var text := ApplyEdits(classSource, Edits(changed));
    r := RenameClass(text, trainerName);
  }
}
