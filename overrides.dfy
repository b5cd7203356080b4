/** The default-override rewrite of `_patch_trl_rl_trainers`
    (unsloth/models/rl.py:309-329). For each entry `k: v` of a fixed table it
    runs `re.sub(k + "( = [^,\n]{1,})?,\n", k + " = " + v + ",\n", arguments)`
    over the Config's formal-argument text. The regular expression is written
    out as a match at one position, `MatchLen`, and a left-to-right scan, `Sub`,
    that resumes after each match as `re.sub` does. */
module Overrides {
  import opened Text
  import opened Signature

  /** Length of the longest prefix of `u` free of commas and newlines: the
      greedy `[^,\n]*`: it stops at the first comma or newline. */
  function RunLen(u: string): (n: nat)
    ensures n <= |u|
    ensures forall j :: 0 <= j < n ==> u[j] != ',' && u[j] != '\n'
    ensures n < |u| ==> u[n] == ',' || u[n] == '\n'
  {
    if u == [] || u[0] == ',' || u[0] == '\n' then 0 else 1 + RunLen(u[1..])
  }

  /** `r` begins with ` = `. */
  predicate AtAssign(r: string) {
    |r| >= 3 && r[0] == ' ' && r[1] == '=' && r[2] == ' '
  }

  /** `u` begins with `,\n`. */
  predicate AtTerminator(u: string) {
    |u| >= 2 && u[0] == ',' && u[1] == '\n'
  }

  /** Length of the optional group ` = [^,\n]{1,}` at the start of `r` when
      `,\n` follows it, 0 when it does not match there. The greedy run stops at
      the first comma or newline, which must then begin `,\n`: giving back
      characters of the run cannot help, since they are neither. */
  function GroupLen(r: string): (g: nat)
    ensures g > 0 ==> AtAssign(r) && 3 < g && g + 2 <= |r| && AtTerminator(r[g..])
    ensures forall j :: 3 <= j < g ==> r[j] != ',' && r[j] != '\n'
  {
    if AtAssign(r) && RunLen(r[3..]) > 0 && AtTerminator(r[3 + RunLen(r[3..])..]) then
      3 + RunLen(r[3..])
    else 0
  }

  /** Length of the match of `k( = [^,\n]{1,})?,\n` at the start of `t`, if
      any: the group when it matches, else `,\n` right after `k`. A match is
      the key, then nothing or ` = ` and a non-empty run free of commas and
      newlines, then `,\n`; `MatchAtEntry` is the converse. */
  function MatchLen(t: string, k: string): (m: Option<nat>)
    ensures m.Some? ==> StartsWith(t, k) && |k| + 2 <= m.value <= |t|
    ensures m.Some? ==> OverridableTail(t[|k|..m.value - 2])
    ensures m.Some? ==> t[m.value - 2] == ',' && t[m.value - 1] == '\n'
  {
    if !StartsWith(t, k) then None
    else if GroupLen(t[|k|..]) > 0 then
      var r, g := t[|k|..], GroupLen(t[|k|..]);
      assert r[g..] == t[|k| + g..];
      assert t[|k|..|k| + g] == r[..g];
      Some(|k| + g + 2)
    else if AtTerminator(t[|k|..]) then
      assert t[|k|..|k|] == [];
      Some(|k| + 2)
    else None
  }

  /** How far one step of the scan advances at the start of `t`: past the
      match, or past one character. */
  function Advance(t: string, k: string): (n: nat)
    requires t != []
    ensures 0 < n <= |t|
  {
    match MatchLen(t, k)
    case Some(n) => n
    case None => 1
  }

  /** What one step of the scan emits: the replacement for a match, the
      character itself otherwise. */
  function Emitted(t: string, k: string, y: string): string
    requires t != []
  {
    match MatchLen(t, k)
    case Some(_) => y
    case None => [t[0]]
  }

  /** `re.sub` with that pattern and the replacement `y`: non-overlapping
      matches, leftmost first. */
  function Sub(t: string, k: string, y: string): string
    decreases |t|
  {
    if t == [] then [] else Emitted(t, k, y) + Sub(t[Advance(t, k)..], k, y)
  }

  /** A step of the scan where the key does not start. */
  lemma SubCopies(t: string, k: string, y: string)
    requires t != [] && !StartsWith(t, k)
    ensures Sub(t, k, y) == [t[0]] + Sub(t[1..], k, y)
  {
    assert MatchLen(t, k).None?;
  }

  /** A step of the scan at a match. */
  lemma SubReplaces(t: string, k: string, y: string, n: nat)
    requires MatchLen(t, k) == Some(n)
    ensures Sub(t, k, y) == y + Sub(t[n..], k, y)
  {
    assert Advance(t, k) == n;
  }

  /** A step of the scan where nothing matches. */
  lemma SubNoMatch(t: string, k: string, y: string)
    requires t != [] && MatchLen(t, k).None?
    ensures Sub(t, k, y) == [t[0]] + Sub(t[1..], k, y)
  {
    assert Advance(t, k) == 1;
  }

  /** One step of the scan. */
  lemma SubUnfold(t: string, k: string, y: string)
    requires t != []
    ensures Sub(t, k, y) == Emitted(t, k, y) + Sub(t[Advance(t, k)..], k, y)
  {
  }

  /** One entry of the override table. */
  datatype Override = Override(key: string, value: Literal)

  /** The table of lines 309-323, in its order. */
  const REPLACEMENTS: seq<Override> := [
    Override("output_dir", NoneLit),
    Override("logging_nan_inf_filter", Bool(false)),
    Override("per_device_train_batch_size", Number("4")),
    Override("gradient_accumulation_steps", Number("2")),
    Override("weight_decay", Number("0.01")),
    Override("warmup_ratio", Number("0.1")),
    Override("seed", Number("3407")),
    Override("optim", Str("adamw_8bit")),
    Override("learning_rate", Number("5e-05")),
    Override("per_device_eval_batch_size", Number("4")),
    Override("eval_accumulation_steps", Number("2")),
    Override("torch_empty_cache_steps", Number("250")),
    Override("logging_steps", Number("1"))
  ]

  /** The replacement text of lines 326-327: `k = v,\n`, a string value quoted. */
  function Replacement(o: Override): (y: string)
    ensures StartsWith(y, o.key) && EndsInTerminator(y)
  {
    o.key + " = " + RenderLiteral(o.value) + ",\n"
  }

  /** The effect of the loop of lines 324-329: each table entry in turn. */
  function OverrideAll(s: string, table: seq<Override>): string
    decreases |table|
  {
    if |table| == 0 then s
    else
      var o := table[|table| - 1];
      Sub(OverrideAll(s, table[..|table| - 1]), o.key, Replacement(o))
  }

  /** One more table entry applies one more substitution. */
  lemma OverrideAllSnoc(s: string, table: seq<Override>, j: nat)
    requires j < |table|
    ensures OverrideAll(s, table[..j + 1]) == Sub(OverrideAll(s, table[..j]), table[j].key, Replacement(table[j]))
  {
    assert table[..j + 1][..j] == table[..j];
  }

  /** The loop of lines 324-329. */
  method ApplyOverrides(arguments: string) returns (r: string)
    ensures r == OverrideAll(arguments, REPLACEMENTS)
  {
    r := arguments;
    for j := 0 to |REPLACEMENTS|
      invariant r == OverrideAll(arguments, REPLACEMENTS[..j])
    {
      var o := REPLACEMENTS[j];
      OverrideAllSnoc(arguments, REPLACEMENTS, j);
      r := Sub(r, o.key, Replacement(o));
    }
    assert REPLACEMENTS[..|REPLACEMENTS|] == REPLACEMENTS;
  }

  /** A key that starts with neither a space nor a newline and holds no newline. */
  predicate GoodKey(k: string) {
    |k| > 0 && k[0] != ' ' && '\n' !in k
  }

  predicate GoodTable(table: seq<Override>) {
    forall i :: 0 <= i < |table| ==> GoodKey(table[i].key)
  }

  /** Every key of the table is a plain name. */
  lemma KeyGood(i: nat)
    requires i < |REPLACEMENTS|
    ensures GoodKey(REPLACEMENTS[i].key)
  {
    var k := REPLACEMENTS[i].key;
    if i == 0 { assert k == "output_dir"; }
    else if i == 1 { assert k == "logging_nan_inf_filter"; }
    else if i == 2 { assert k == "per_device_train_batch_size"; }
    else if i == 3 { assert k == "gradient_accumulation_steps"; }
    else if i == 4 { assert k == "weight_decay"; }
    else if i == 5 { assert k == "warmup_ratio"; }
    else if i == 6 { assert k == "seed"; }
    else if i == 7 { assert k == "optim"; }
    else if i == 8 { assert k == "learning_rate"; }
    else if i == 9 { assert k == "per_device_eval_batch_size"; }
    else if i == 10 { assert k == "eval_accumulation_steps"; }
    else if i == 11 { assert k == "torch_empty_cache_steps"; }
    else { assert k == "logging_steps"; }
  }

  lemma TableKeysGood()
    ensures GoodTable(REPLACEMENTS)
  {
    forall i | 0 <= i < |REPLACEMENTS|
      ensures GoodKey(REPLACEMENTS[i].key)
    {
      KeyGood(i);
    }
  }

  /** Characters of an identifier, as far as the pattern can tell. */
  predicate NameLike(s: string) {
    forall j :: 0 <= j < |s| ==> s[j] != ' ' && s[j] != ',' && s[j] != '\n'
  }

  /** A text that is empty, a lone newline, or ends in `,\n`: no match can run
      past its end. */
  predicate Closed(a: string) {
    a == [] || (a[|a| - 1] == '\n' && (|a| == 1 || a[|a| - 2] == ','))
  }

  lemma ClosedSuffix(a: string, i: nat)
    requires Closed(a) && i <= |a|
    ensures Closed(a[i..])
  {
  }

  /** Extending a text cannot change whether it starts with `p` when `p` fits
      in it or already disagrees with it. */
  lemma PrefixLocal(x: string, b: string, p: string)
    requires |p| <= |x| || p[..|x|] != x
    ensures StartsWith(x + b, p) == StartsWith(x, p)
  {
    if |p| <= |x| {
      assert (x + b)[..|p|] == x[..|p|];
    }
  }

  /** The greedy run stops inside a closed text. */
  lemma {:induction false} RunLenLocal(u: string, b: string)
    requires Closed(u) && u != []
    ensures RunLen(u + b) == RunLen(u) < |u|
    decreases |u|
  {
    if u[0] != ',' && u[0] != '\n' {
      assert (u + b)[1..] == u[1..] + b;
      ClosedSuffix(u, 1);
      RunLenLocal(u[1..], b);
    }
  }

  /** Whether a closed text begins with ` = ` or `,\n` does not depend on
      what follows it. */
  lemma PunctuationLocal(r: string, b: string)
    requires Closed(r) && r != []
    ensures AtAssign(r + b) == AtAssign(r)
    ensures AtTerminator(r + b) == AtTerminator(r)
  {
    assert (r + b)[0] == r[0];
    if |r| >= 2 {
      assert (r + b)[1] == r[1];
    }
    if |r| >= 3 {
      assert (r + b)[2] == r[2];
    }
  }

  /** The group at the start of a closed text does not depend on what follows. */
  lemma GroupLenLocal(r: string, b: string)
    requires Closed(r) && r != []
    ensures GroupLen(r + b) == GroupLen(r)
  {
    PunctuationLocal(r, b);
    if AtAssign(r) {
      var u := r[3..];
      DropAppend(r, b, 3);
      ClosedSuffix(r, 3);
      RunLenLocal(u, b);
      var q := RunLen(u);
      DropDrop(r + b, 3, q);
      DropAppend(u, b, q);
      ClosedSuffix(u, q);
      PunctuationLocal(u[q..], b);
    }
  }

  /** The match at the start of a closed text does not depend on what follows. */
  lemma MatchLenLocal(a: string, b: string, k: string)
    requires GoodKey(k) && Closed(a) && a != []
    ensures MatchLen(a + b, k) == MatchLen(a, k)
  {
    var t := a + b;
    assert a[|a| - 1] == '\n';
    if |k| > |a| {
      assert k[|a| - 1] != '\n';
    }
    PrefixLocal(a, b, k);
    if StartsWith(a, k) {
      var r := a[|k|..];
      assert t[|k|..] == r + b;
      ClosedSuffix(a, |k|);
      GroupLenLocal(r, b);
      PunctuationLocal(r, b);
    }
  }

  /** The first step of the scan over a closed text is the same whatever
      follows it. */
  lemma SubStepLocal(a: string, b: string, k: string, y: string)
    requires GoodKey(k) && Closed(a) && a != []
    ensures Sub(a + b, k, y) == Emitted(a, k, y) + Sub(a[Advance(a, k)..] + b, k, y)
  {
    var t := a + b;
    MatchLenLocal(a, b, k);
    assert t[0] == a[0];
    assert t[Advance(a, k)..] == a[Advance(a, k)..] + b;
  }

  /** `re.sub` over a closed text followed by more text rewrites the two parts
      separately. */
  lemma {:induction false} SubSplit(a: string, b: string, k: string, y: string)
    requires GoodKey(k) && Closed(a)
    ensures Sub(a + b, k, y) == Sub(a, k, y) + Sub(b, k, y)
    decreases |a|
  {
    if a == [] {
      assert a + b == b;
    } else {
      var i := Advance(a, k);
      SubStepLocal(a, b, k, y);
      ClosedSuffix(a, i);
      SubSplit(a[i..], b, k, y);
      AppendAssoc(Emitted(a, k, y), Sub(a[i..], k, y), Sub(b, k, y));
    }
  }

  /** Characters that cannot begin the key pass through unchanged. */
  lemma {:induction false} SubSkip(p: string, x: string, k: string, y: string)
    requires |k| > 0 && k[0] !in p
    ensures Sub(p + x, k, y) == p + Sub(x, k, y)
    decreases |p|
  {
    if p == [] {
      assert p + x == x;
    } else {
      var t := p + x;
      DropAppend(p, x, 1);
      assert t[0] == p[0];
      assert Sub(t[1..], k, y) == Sub(p[1..] + x, k, y);
      SubCopies(t, k, y);
      SubSkip(p[1..], x, k, y);
      ConsRest(p, Sub(x, k, y));
    }
  }

  lemma TwoChars(t: string, i: nat)
    requires i + 2 <= |t|
    ensures t[i..i + 2] == [t[i], t[i + 1]]
  {
  }

  /** Every match ends in `,\n`. */
  lemma NoMatchWithoutSeparator(t: string, k: string)
    requires !Contains(t, ",\n")
    ensures MatchLen(t, k).None?
  {
    if MatchLen(t, k).Some? {
      var n := MatchLen(t, k).value;
      TwoChars(t, n - 2);
      ContainsAt(t, ",\n", n - 2);
    }
  }

  /** Every match ends in `,\n`, so a text without `,\n` is left as it is. */
  lemma {:induction false} SubNoSeparator(t: string, k: string, y: string)
    requires !Contains(t, ",\n")
    ensures Sub(t, k, y) == t
    decreases |t|
  {
    if t != [] {
      NoSeparatorStep(t, k, y);
      SubNoSeparator(t[1..], k, y);
      assert [t[0]] + t[1..] == t;
    }
  }

  /** One step of the scan over a text without `,\n` copies a character
      and leaves a rest without `,\n`. */
  lemma NoSeparatorStep(t: string, k: string, y: string)
    requires t != [] && !Contains(t, ",\n")
    ensures Sub(t, k, y) == [t[0]] + Sub(t[1..], k, y)
    ensures !Contains(t[1..], ",\n")
  {
    NoMatchWithoutSeparator(t, k);
    SubNoMatch(t, k, y);
  }

  /** A text in which the key does not occur is left as it is. */
  lemma {:induction false} SubNoKey(t: string, k: string, y: string)
    requires !Contains(t, k)
    ensures Sub(t, k, y) == t
    decreases |t|
  {
    if t != [] {
      SubNoKey(t[1..], k, y);
    }
  }

  /** `t` ends in `,\n`, stated on characters. */
  predicate EndsInTerminator(t: string) {
    |t| >= 2 && t[|t| - 2] == ',' && t[|t| - 1] == '\n'
  }

  lemma EndsInTerminatorAppend(e: string, t: string)
    requires EndsInTerminator(t)
    ensures EndsInTerminator(e + t)
  {
    assert (e + t)[|e + t| - 1] == t[|t| - 1];
    assert (e + t)[|e + t| - 2] == t[|t| - 2];
  }

  lemma DropKeepsTerminator(t: string, n: nat)
    requires EndsInTerminator(t) && n + 2 <= |t|
    ensures EndsInTerminator(t[n..])
  {
    assert t[n..][|t| - n - 1] == t[|t| - 1];
    assert t[n..][|t| - n - 2] == t[|t| - 2];
  }

  /** A text ending in `,\n` still does after the rewrite, when the
      replacement does. */
  lemma {:induction false} SubKeepsTerminator(t: string, k: string, y: string)
    requires GoodKey(k) && EndsInTerminator(t)
    requires EndsInTerminator(y)
    ensures EndsInTerminator(Sub(t, k, y))
    decreases |t|
  {
    var n := Advance(t, k);
    if n == |t| {
      MatchCoversTerminated(t, k, y);
    } else if n + 2 <= |t| {
      SubUnfold(t, k, y);
      DropKeepsTerminator(t, n);
      SubKeepsTerminator(t[n..], k, y);
      EndsInTerminatorAppend(Emitted(t, k, y), Sub(t[n..], k, y));
    } else {
      CommaBeforeLastNewline(t, k, y);
    }
  }

  /** The scan step that consumes the whole text emits the replacement. */
  lemma MatchCoversTerminated(t: string, k: string, y: string)
    requires GoodKey(k) && EndsInTerminator(t) && EndsInTerminator(y)
    requires Advance(t, k) == |t|
    ensures EndsInTerminator(Sub(t, k, y))
  {
    SubUnfold(t, k, y);
    assert MatchLen(t, k).Some?;
    assert Sub(t, k, y) == y + [];
  }

  /** A scan step that stops just before the final newline copies the
      comma and then the newline. */
  lemma CommaBeforeLastNewline(t: string, k: string, y: string)
    requires GoodKey(k) && EndsInTerminator(t)
    requires Advance(t, k) < |t| < Advance(t, k) + 2
    ensures EndsInTerminator(Sub(t, k, y))
  {
    var n := Advance(t, k);
    SubUnfold(t, k, y);
    assert n == 1 && |t| == 2;
    var rest := t[n..];
    assert rest == "\n" && !StartsWith(rest, k);
    SubCopies(rest, k, y);
    assert Sub(t, k, y) == [','] + ("\n" + []);
  }

  /** The rendered text of the arguments after its leading newline, as
      pieces: each entry but the last with its `,\n` terminator, every entry led
      by the 8-space indentation. */
  function Body(ps: seq<string>, last: string): string
    decreases |ps|
  {
    if ps == [] then ARG_INDENT + last else (ARG_INDENT + ps[0]) + Body(ps[1..], last)
  }

  function PiecesText(ps: seq<string>, last: string): string {
    "\n" + Body(ps, last)
  }

  /** Each entry followed by its `,\n` terminator. */
  function Terminated(es: seq<string>): (r: seq<string>)
    ensures |r| == |es|
    ensures forall i :: 0 <= i < |es| ==> r[i] == es[i] + ",\n"
    decreases |es|
  {
    if es == [] then [] else [es[0] + ",\n"] + Terminated(es[1..])
  }

  lemma {:induction false} JoinAsBody(es: seq<string>)
    requires |es| >= 1
    ensures ARG_INDENT + Join(",\n" + ARG_INDENT, es) == Body(Terminated(es[..|es| - 1]), es[|es| - 1])
    decreases |es|
  {
    var n := |es|;
    if n == 1 {
      assert es[..0] == [];
    } else {
      var sep := ",\n" + ARG_INDENT;
      var rest := Join(sep, es[1..]);
      JoinAsBody(es[1..]);
      assert es[1..][..n - 2] == es[..n - 1][1..];
      var ts := Terminated(es[..n - 1]);
      assert ts[1..] == Terminated(es[..n - 1][1..]);
      assert Body(ts, es[n - 1]) == (ARG_INDENT + (es[0] + ",\n")) + Body(ts[1..], es[n - 1]);
      AppendAssoc(es[0], sep, rest);
      AppendAssoc(es[0], ",\n", ARG_INDENT + rest);
      AppendAssoc(",\n", ARG_INDENT, rest);
      AppendAssoc(ARG_INDENT, es[0] + ",\n", ARG_INDENT + rest);
    }
  }

  /** The formal-argument text is the pieces form of its entries. */
  lemma ArgumentsAsPieces(es: seq<string>)
    requires |es| >= 1
    ensures ArgumentsText(es) == PiecesText(Terminated(es[..|es| - 1]), es[|es| - 1])
  {
    JoinAsBody(es);
    AppendAssoc("\n", ARG_INDENT, Join(",\n" + ARG_INDENT, es));
  }

  function SubEach(ps: seq<string>, k: string, y: string): (r: seq<string>)
    ensures |r| == |ps|
    ensures forall i :: 0 <= i < |ps| ==> r[i] == Sub(ps[i], k, y)
    decreases |ps|
  {
    if ps == [] then [] else [Sub(ps[0], k, y)] + SubEach(ps[1..], k, y)
  }

  predicate AllTerminated(ps: seq<string>) {
    forall i :: 0 <= i < |ps| ==> EndsInTerminator(ps[i])
  }

  /** The indentation holds no character a key can begin with. */
  lemma IndentAvoids(k: string)
    requires GoodKey(k)
    ensures k[0] !in ARG_INDENT
  {
  }

  lemma {:induction false} SubBody(ps: seq<string>, last: string, k: string, y: string)
    requires GoodKey(k) && AllTerminated(ps) && !Contains(last, ",\n")
    ensures Sub(Body(ps, last), k, y) == Body(SubEach(ps, k, y), last)
    decreases |ps|
  {
    IndentAvoids(k);
    if ps == [] {
      SubSkip(ARG_INDENT, last, k, y);
      SubNoSeparator(last, k, y);
    } else {
      var x := ARG_INDENT + ps[0];
      EndsInTerminatorAppend(ARG_INDENT, ps[0]);
      SubSplit(x, Body(ps[1..], last), k, y);
      SubSkip(ARG_INDENT, ps[0], k, y);
      SubBody(ps[1..], last, k, y);
      assert SubEach(ps, k, y)[1..] == SubEach(ps[1..], k, y);
    }
  }

  /** One `re.sub` over the pieces form rewrites each terminated piece on its
      own and, when that entry holds no `,\n`, leaves the final entry as it is. */
  lemma SubPieces(ps: seq<string>, last: string, k: string, y: string)
    requires GoodKey(k) && AllTerminated(ps) && !Contains(last, ",\n")
    ensures Sub(PiecesText(ps, last), k, y) == PiecesText(SubEach(ps, k, y), last)
  {
    SubSkip("\n", Body(ps, last), k, y);
    SubBody(ps, last, k, y);
  }

  /** Every piece, rewritten by the whole table on its own. */
  function OverrideEach(ps: seq<string>, table: seq<Override>): (r: seq<string>)
    ensures |r| == |ps|
    ensures forall i :: 0 <= i < |ps| ==> r[i] == OverrideAll(ps[i], table)
    decreases |ps|
  {
    if ps == [] then [] else [OverrideAll(ps[0], table)] + OverrideEach(ps[1..], table)
  }

  lemma {:induction false} OverrideKeepsTerminator(p: string, table: seq<Override>)
    requires GoodTable(table) && EndsInTerminator(p)
    ensures EndsInTerminator(OverrideAll(p, table))
    decreases |table|
  {
    if table != [] {
      var o := table[|table| - 1];
      OverrideKeepsTerminator(p, table[..|table| - 1]);
      SubKeepsTerminator(OverrideAll(p, table[..|table| - 1]), o.key, Replacement(o));
    }
  }

  /** The whole table over the pieces form rewrites each terminated piece on
      its own and, when that entry holds no `,\n`, never touches the final
      entry. */
  lemma {:induction false} OverridePieces(ps: seq<string>, last: string, table: seq<Override>)
    requires GoodTable(table) && AllTerminated(ps) && !Contains(last, ",\n")
    ensures OverrideAll(PiecesText(ps, last), table) == PiecesText(OverrideEach(ps, table), last)
    decreases |table|
  {
    if table == [] {
      assert OverrideEach(ps, table) == ps;
    } else {
      var init, o := table[..|table| - 1], table[|table| - 1];
      OverridePieces(ps, last, init);
      var qs := OverrideEach(ps, init);
      forall i | 0 <= i < |qs|
        ensures EndsInTerminator(qs[i])
      {
        OverrideKeepsTerminator(ps[i], init);
      }
      SubPieces(qs, last, o.key, Replacement(o));
      assert SubEach(qs, o.key, Replacement(o)) == OverrideEach(ps, table);
    }
  }

  /** Entries followed by their terminators are terminated. */
  lemma TerminatedAll(es: seq<string>)
    ensures AllTerminated(Terminated(es))
  {
    forall i | 0 <= i < |es|
      ensures EndsInTerminator(Terminated(es)[i])
    {
      EndsInTerminatorAppend(es[i], ",\n");
    }
  }

  /** The overrides of lines 324-329 act entry by entry on the rendered Config
      arguments: every entry but the last is rewritten as if it stood alone
      followed by `,\n`, and the last entry, which has no `,\n` after it, is
      never overridden when its own text holds no `,\n` either. */
  lemma ConfigOverridesAreEntrywise(es: seq<string>)
    requires |es| >= 1 && !Contains(es[|es| - 1], ",\n")
    ensures OverrideAll(ArgumentsText(es), REPLACEMENTS)
         == PiecesText(OverrideEach(Terminated(es[..|es| - 1]), REPLACEMENTS), es[|es| - 1])
  {
    TableKeysGood();
    ArgumentsAsPieces(es);
    TerminatedAll(es[..|es| - 1]);
    OverridePieces(Terminated(es[..|es| - 1]), es[|es| - 1], REPLACEMENTS);
  }

  /** What may follow the name in a formal-argument entry for the override to
      fire: nothing, or ` = ` and a default free of commas and newlines. */
  predicate OverridableTail(v: string) {
    v == [] ||
    (|v| > 3 && AtAssign(v) && forall j :: 3 <= j < |v| ==> v[j] != ',' && v[j] != '\n')
  }

  lemma {:induction false} RunLenOf(d: string, rest: string)
    requires forall j :: 0 <= j < |d| ==> d[j] != ',' && d[j] != '\n'
    requires |rest| > 0 && (rest[0] == ',' || rest[0] == '\n')
    ensures RunLen(d + rest) == |d|
    decreases |d|
  {
    if d == [] {
      assert d + rest == rest;
    } else {
      DropAppend(d, rest, 1);
      RunLenOf(d[1..], rest);
    }
  }

  lemma TakeAppendAll(a: string, b: string)
    ensures (a + b)[..|a|] == a && (a + b)[|a|..] == b
  {
  }

  lemma DropThree(a: string, b: string, c: string, rest: string)
    ensures (a + (b + (c + rest)))[|a| + |b| + |c|..] == rest
  {
    TakeAppendAll(a, b + (c + rest));
    TakeAppendAll(b, c + rest);
    TakeAppendAll(c, rest);
    DropDrop(a + (b + (c + rest)), |a|, |b|);
    DropDrop(a + (b + (c + rest)), |a| + |b|, |c|);
  }

  /** The pattern matches a whole entry `k` + tail + `,\n` at its start. */
  lemma MatchAtEntry(k: string, v: string, rest: string)
    requires |k| > 0 && OverridableTail(v)
    ensures MatchLen(k + (v + (",\n" + rest)), k) == Some(|k| + |v| + 2)
  {
    var w := v + (",\n" + rest);
    TakeAppendAll(k, w);
    TakeAppendAll(v, ",\n" + rest);
    if v == [] {
      assert w == ",\n" + rest;
    } else {
      var d := v[3..];
      assert v == v[..3] + d;
      assert w[3..] == d + (",\n" + rest) by {
        DropAppend(v, ",\n" + rest, 3);
      }
      RunLenOf(d, ",\n" + rest);
      DropDrop(w, 3, |d|);
      assert GroupLen(w) == |v|;
    }
  }

  /** No match can start inside a name before the key's last occurrence. */
  lemma NoMatchInName(pfx: string, k: string, w: string)
    requires |k| > 0 && pfx != [] && NameLike(pfx + k)
    ensures MatchLen((pfx + k) + w, k).None?
  {
    var t := (pfx + k) + w;
    if StartsWith(t, k) {
      var r := t[|k|..];
      assert r[0] == (pfx + k)[|k|];
    }
  }

  lemma DropEntry(k: string, v: string, rest: string)
    ensures (k + (v + (",\n" + rest)))[|k| + |v| + 2..] == rest
  {
    DropThree(k, v, ",\n", rest);
  }

  /** A match of length `n` followed by `rest`. */
  lemma SubAfterMatch(t: string, k: string, y: string, n: nat, rest: string)
    requires MatchLen(t, k) == Some(n) && n <= |t| && t[n..] == rest
    ensures Sub(t, k, y) == y + Sub(rest, k, y)
  {
    SubReplaces(t, k, y, n);
  }

  /** An entry that starts with the key is rewritten to the replacement. */
  lemma OverrideEntryAtKey(k: string, v: string, y: string, rest: string)
    requires |k| > 0 && OverridableTail(v)
    ensures Sub(k + (v + (",\n" + rest)), k, y) == y + Sub(rest, k, y)
  {
    DropEntry(k, v, rest);
    MatchAtEntry(k, v, rest);
    SubAfterMatch(k + (v + (",\n" + rest)), k, y, |k| + |v| + 2, rest);
  }

  lemma DropFirstOfName(pfx: string, k: string, w: string)
    requires pfx != [] && NameLike(pfx + k)
    ensures ((pfx + k) + w)[1..] == (pfx[1..] + k) + w
    ensures ((pfx + k) + w)[0] == pfx[0]
    ensures NameLike(pfx[1..] + k)
  {
    assert forall j :: 0 <= j < |pfx[1..] + k| ==> (pfx[1..] + k)[j] == (pfx + k)[j + 1];
  }

  lemma ConsRest(pfx: string, u: string)
    requires pfx != []
    ensures [pfx[0]] + (pfx[1..] + u) == pfx + u
  {
    assert pfx == [pfx[0]] + pfx[1..];
    AppendAssoc([pfx[0]], pfx[1..], u);
  }

  /** An entry whose name ends with the key, bare or with a default free of
      commas, is rewritten to the replacement, whatever comes before the key in
      the name: `data_seed = None` becomes `data_seed = 3407` under the key
      `seed`. */
  lemma {:induction false} OverrideEntry(pfx: string, k: string, v: string, y: string, rest: string)
    requires |k| > 0 && NameLike(pfx + k) && OverridableTail(v)
    ensures Sub((pfx + k) + (v + (",\n" + rest)), k, y) == pfx + (y + Sub(rest, k, y))
    decreases |pfx|
  {
    var w := v + (",\n" + rest);
    if pfx == [] {
      assert (pfx + k) + w == k + w;
      OverrideEntryAtKey(k, v, y, rest);
    } else {
      var t := (pfx + k) + w;
      var u := (pfx[1..] + k) + w;
      DropFirstOfName(pfx, k, w);
      assert t[1..] == u;
      assert Sub(t[1..], k, y) == Sub(u, k, y);
      NoMatchInName(pfx, k, w);
      OverrideEntry(pfx[1..], k, v, y, rest);
      SubNoMatch(t, k, y);
      ConsRest(pfx, y + Sub(rest, k, y));
    }
  }

  lemma EntryAssoc<T>(a: seq<T>, b: seq<T>, c: seq<T>, rest: seq<T>)
    ensures a + (b + (c + rest)) == (a + (b + c)) + rest
  {
  }

  lemma DataSeedPieces(rest: string)
    ensures "data_seed = None,\n" + rest == ("data_" + "seed") + (" = None" + (",\n" + rest))
  {
    assert ("data_" + "seed") + (" = None" + ",\n") == "data_seed = None,\n";
    EntryAssoc("data_" + "seed", " = None", ",\n", rest);
  }

  lemma SeedReplacement(rest: string)
    ensures "data_" + (Replacement(Override("seed", Number("3407"))) + rest) == "data_seed = 3407,\n" + rest
  {
    assert Replacement(Override("seed", Number("3407"))) == "seed = 3407,\n";
    assert "data_" + "seed = 3407,\n" == "data_seed = 3407,\n";
    AppendAssoc("data_", "seed = 3407,\n", rest);
  }

  /** The suffix match of the overrides: a Config parameter `data_seed` gets
      the `seed` override, whatever follows it. */
  lemma DataSeedTakesSeedOverride(rest: string)
    ensures Sub("data_seed = None,\n" + rest, "seed", Replacement(Override("seed", Number("3407"))))
         == "data_seed = 3407,\n" + Sub(rest, "seed", Replacement(Override("seed", Number("3407"))))
  {
    var y := Replacement(Override("seed", Number("3407")));
    assert NameLike("data_" + "seed");
    DataSeedPieces(rest);
    OverrideEntry("data_", "seed", " = None", y, rest);
    SeedReplacement(Sub(rest, "seed", y));
  }

  /** `RunLen` stops at the first comma. */
  lemma {:induction false} RunLenStops(u: string, j: nat)
    requires j < |u| && u[j] == ','
    ensures RunLen(u) <= j
    decreases j
  {
    if j > 0 && u[0] != ',' && u[0] != '\n' {
      RunLenStops(u[1..], j - 1);
    }
  }

  /** At an entry whose default holds a comma the pattern does not match: the
      run stops at that comma, which is not followed by a newline. */
  lemma NoMatchAtCommaDefault(k: string, d: string, rest: string)
    requires |k| > 0 && ',' in d && '\n' !in d
    ensures MatchLen(k + (" = " + (d + (",\n" + rest))), k).None?
  {
    var w := " = " + (d + (",\n" + rest));
    TakeAppendAll(k, w);
    var u := d + (",\n" + rest);
    TakeAppendAll(" = ", u);
    var j :| 0 <= j < |d| && d[j] == ',';
    assert u[j] == ',';
    RunLenStops(u, j);
    var q := RunLen(u);
    assert u[q] == d[q] == ',';
    assert u[q + 1] != '\n' by {
      if q + 1 < |d| {
        assert u[q + 1] == d[q + 1];
      } else {
        assert u[q + 1] == ',';
      }
    }
    DropDrop(w, 3, q);
    assert !AtTerminator(w[3 + q..]);
  }

  lemma ConsNotContains(c: char, s: string, k: string)
    requires |k| > 0 && c != k[0] && !Contains(s, k)
    ensures !Contains([c] + s, k)
  {
    assert ([c] + s)[1..] == s;
  }

  /** After its first character, an entry `k = d,\n` holds no occurrence of
      `k` when `d` does not. */
  lemma EntryTailAvoidsKey(k: string, d: string)
    requires |k| > 0 && NameLike(k) && '=' !in k && !Contains(d, k)
    ensures !Contains(k[1..] + (" = " + (d + ",\n")), k)
  {
    assert !Contains([], k);
    ConsNotContains('\n', [], k);
    ConsNotContains(',', "\n", k);
    assert ",\n" == [','] + "\n";
    NotContainsSplit(d, ",\n", k);
    ConsNotContains(' ', d + ",\n", k);
    ConsNotContains('=', " " + (d + ",\n"), k);
    ConsNotContains(' ', "= " + (d + ",\n"), k);
    assert " = " + (d + ",\n") == [' '] + ("= " + (d + ",\n"));
    assert "= " + (d + ",\n") == ['='] + (" " + (d + ",\n"));
    assert " " + (d + ",\n") == [' '] + (d + ",\n");
    NotContainsShort(k[1..], k);
    NotContainsSplit(k[1..], " = " + (d + ",\n"), k);
  }

  lemma CommaEntryShape(k: string, d: string, rest: string)
    requires |k| > 0
    ensures (k + (" = " + (d + (",\n" + rest))))[0] == k[0]
    ensures (k + (" = " + (d + (",\n" + rest))))[1..] == (k[1..] + (" = " + (d + ",\n"))) + rest
    ensures (k + (" = " + (d + ",\n")))[0] == k[0]
    ensures (k + (" = " + (d + ",\n")))[1..] == k[1..] + (" = " + (d + ",\n"))
    ensures Closed(k[1..] + (" = " + (d + ",\n")))
  {
    EntryAssoc(k[1..], " = ", d + ",\n", rest);
    EntryAssoc(" = ", d, ",\n", rest);
    AppendAssoc(k[1..], (" = " + (d + ",\n")), rest);
    assert k == [k[0]] + k[1..];
    AppendAssoc([k[0]], k[1..], " = " + (d + (",\n" + rest)));
    AppendAssoc([k[0]], k[1..], " = " + (d + ",\n"));
  }

  /** An entry whose default holds a comma is not overridden. */
  lemma CommaDefaultUntouched(k: string, d: string, y: string, rest: string)
    requires |k| > 0 && NameLike(k) && '=' !in k
    requires ',' in d && '\n' !in d && !Contains(d, k)
    ensures Sub(k + (" = " + (d + (",\n" + rest))), k, y)
         == k + (" = " + (d + ",\n")) + Sub(rest, k, y)
  {
    var t := k + (" = " + (d + (",\n" + rest)));
    var e := k + (" = " + (d + ",\n"));
    var e1 := k[1..] + (" = " + (d + ",\n"));
    CommaEntryShape(k, d, rest);
    EntryTailAvoidsKey(k, d);
    assert GoodKey(k);
    assert t[1..] == e1 + rest;
    assert Sub(t[1..], k, y) == Sub(e1 + rest, k, y);
    NoMatchAtCommaDefault(k, d, rest);
    SubNoMatch(t, k, y);
    SubSplit(e1, rest, k, y);
    SubNoKey(e1, k, y);
    ConsRest(e, Sub(rest, k, y));
  }
}
