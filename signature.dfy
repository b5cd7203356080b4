/** The constructor-signature renderer of `_patch_trl_rl_trainers`
    (unsloth/models/rl.py:154-173). It reads a parameter list, given here as
    plain data instead of `inspect.signature`, and produces the formal
    argument text of the generated `__init__` and the `k = k` argument text of
    its `super().__init__` call. */
module Signature {
  import opened Text

  /** A default the renderer can print: an exact `str`, a `bool`, `None`, or
      an `int` or `float` given by its printed form. */
  datatype Literal = Str(s: string) | Bool(b: bool) | NoneLit | Number(repr: string)

  /** `inspect.Parameter.empty`, a printable default, or any other default
      (a list, a class instance, an enum member, ...). */
  datatype Default = Required | Given(value: Literal) | Unsupported

  datatype Param = Param(name: string, default: Default)

  /** `f"{v}"` for the printable kinds, and `'v'` for a string. */
  function RenderLiteral(v: Literal): string {
    match v
    case Str(s) => "'" + s + "'"
    case Bool(b) => if b then "True" else "False"
    case NoneLit => "None"
    case Number(r) => r
  }

  /** A default equal to a newline is replaced by `re.escape("\n")`, that is a
      backslash followed by a newline. */
  function EscapeNewline(v: Literal): Literal {
    if v == Str("\n") then Str("\\\n") else v
  }

  /** A parameter that reaches both argument lists. */
  predicate IsKept(p: Param) {
    p.name != "self" && !p.default.Unsupported?
  }

  /** The formal-argument entry of a kept parameter. */
  function Entry(p: Param): (r: string)
    requires IsKept(p)
    ensures StartsWith(r, p.name)
  {
    match p.default
    case Required => p.name
    case Given(v) => p.name + " = " + RenderLiteral(EscapeNewline(v))
  }

  /** The call-argument entry of a kept parameter. */
  function CallEntry(p: Param): string {
    p.name + " = " + p.name
  }

  /** The kept parameters, in their original order. */
  function KeptParams(ps: seq<Param>): (r: seq<Param>)
    ensures |r| <= |ps|
    ensures forall p :: p in r <==> p in ps && IsKept(p)
  {
    if ps == [] then []
    else
      var init, last := ps[..|ps| - 1], ps[|ps| - 1];
      assert ps == init + [last];
      KeptParams(init) + (if IsKept(last) then [last] else [])
  }

  /** Dropping the last element of a concatenation with a non-empty end. */
  lemma InitAppend<T>(xs: seq<T>, ys: seq<T>)
    requires ys != []
    ensures (xs + ys)[..|xs + ys| - 1] == xs + ys[..|ys| - 1]
    ensures (xs + ys)[|xs + ys| - 1] == ys[|ys| - 1]
  {
  }

  /** Filtering a concatenation filters each part. */
  lemma {:induction false} KeptParamsAppend(xs: seq<Param>, ys: seq<Param>)
    ensures KeptParams(xs + ys) == KeptParams(xs) + KeptParams(ys)
    decreases |ys|
  {
    if ys == [] {
      assert xs + ys == xs;
    } else {
      var init := ys[..|ys| - 1];
      InitAppend(xs, ys);
      KeptParamsAppend(xs, init);
      AppendAssoc(KeptParams(xs), KeptParams(init), if IsKept(ys[|ys| - 1]) then [ys[|ys| - 1]] else []);
    }
  }

  /** The formal-argument entries of kept parameters, one for each. */
  function RenderAll(ks: seq<Param>): (r: seq<string>)
    requires forall p :: p in ks ==> IsKept(p)
    ensures |r| == |ks|
    ensures forall i :: 0 <= i < |ks| ==> r[i] == Entry(ks[i])
  {
    if ks == [] then []
    else RenderAll(ks[..|ks| - 1]) + [Entry(ks[|ks| - 1])]
  }

  /** The call-argument entries of kept parameters, one for each. */
  function CallAll(ks: seq<Param>): (r: seq<string>)
    ensures |r| == |ks|
    ensures forall i :: 0 <= i < |ks| ==> r[i] == CallEntry(ks[i])
  {
    if ks == [] then []
    else CallAll(ks[..|ks| - 1]) + [CallEntry(ks[|ks| - 1])]
  }

  /** One more parameter extends the kept list by itself or by nothing. */
  lemma KeptParamsSnoc(ps: seq<Param>, i: nat)
    requires i < |ps|
    ensures KeptParams(ps[..i + 1]) == KeptParams(ps[..i]) + (if IsKept(ps[i]) then [ps[i]] else [])
  {
    assert ps[..i + 1][..i] == ps[..i];
  }

  /** A kept parameter adds one entry to each list. */
  lemma KeptStep(ps: seq<Param>, i: nat)
    requires i < |ps| && IsKept(ps[i])
    ensures RenderAll(KeptParams(ps[..i + 1])) == RenderAll(KeptParams(ps[..i])) + [Entry(ps[i])]
    ensures CallAll(KeptParams(ps[..i + 1])) == CallAll(KeptParams(ps[..i])) + [CallEntry(ps[i])]
  {
    var ks := KeptParams(ps[..i]);
    KeptParamsSnoc(ps, i);
    assert (ks + [ps[i]])[..|ks|] == ks;
  }

  /** A dropped parameter adds nothing. */
  lemma DroppedStep(ps: seq<Param>, i: nat)
    requires i < |ps| && !IsKept(ps[i])
    ensures KeptParams(ps[..i + 1]) == KeptParams(ps[..i])
  {
    KeptParamsSnoc(ps, i);
  }

  const ARG_INDENT: string := Spaces(8)
  const CALL_INDENT: string := Spaces(12)

  /** The formal-argument text: a newline, then the entries joined with a
      comma, a newline and 8 spaces of indentation. */
  function ArgumentsText(entries: seq<string>): string {
    "\n" + ARG_INDENT + Join(",\n" + ARG_INDENT, entries)
  }

  /** The call-argument text, the same with 12 spaces. */
  function CallArgsText(entries: seq<string>): string {
    "\n" + CALL_INDENT + Join(",\n" + CALL_INDENT, entries)
  }

  /** The body of the loop at lines 162-168 for one parameter: its formal
      entry, or nothing when the parameter is skipped. */
  method RenderParam(p: Param) returns (entry: Option<string>)
    ensures entry == (if IsKept(p) then Some(Entry(p)) else None)
  {
    if p.name == "self" {
      return None;
    }
    var v := p.default;
    if v == Given(Str("\n")) {
      v := Given(Str("\\\n"));
    }
    if v.Required? {
      entry := Some(p.name);
    } else if v.Given? && v.value.Str? {
      entry := Some(p.name + " = '" + v.value.s + "'");
      assert entry.value == p.name + " = " + RenderLiteral(v.value);
    } else if v.Given? {
      entry := Some(p.name + " = " + RenderLiteral(v.value));
    } else {
      entry := None;
    }
  }

  /** The loop of lines 159-172: `self` first, every other parameter appended
      to both lists unless its default is of a kind that cannot be printed. */
  method RenderSignature(params: seq<Param>) returns (arguments: string, callArgs: string)
    ensures arguments == ArgumentsText(["self"] + RenderAll(KeptParams(params)))
    ensures callArgs == CallArgsText(CallAll(KeptParams(params)))
  {
    var args: seq<string> := ["self"];
    var calls: seq<string> := [];
    for i := 0 to |params|
      invariant args == ["self"] + RenderAll(KeptParams(params[..i]))
      invariant calls == CallAll(KeptParams(params[..i]))
    {
      var p := params[i];
      var entry := RenderParam(p);
      if entry.None? {
        DroppedStep(params, i);
        continue;
      }
      KeptStep(params, i);
      AppendAssoc(["self"], RenderAll(KeptParams(params[..i])), [Entry(p)]);
      args := args + [entry.value];
      calls := calls + [p.name + " = " + p.name];
    }
    assert params[..|params|] == params;
    arguments := ArgumentsText(args);
    callArgs := CallArgsText(calls);
  }

  /** The formal arguments begin with `self` on the first indented line. */
  lemma ArgumentsStartWithSelf(rest: seq<string>)
    ensures StartsWith(ArgumentsText(["self"] + rest), "\n" + ARG_INDENT + "self")
  {
    var es := ["self"] + rest;
    var sep := ",\n" + ARG_INDENT;
    var tail := if |es| == 1 then "" else sep + Join(sep, es[1..]);
    assert Join(sep, es) == "self" + tail;
    assert ArgumentsText(es) == ("\n" + ARG_INDENT + "self") + tail;
  }

  /** The rendered lists line up: `self` leads the formal arguments, no kept
      parameter is called `self`, and there is exactly one call argument per
      formal argument after `self`, naming the same parameter. */
  lemma SignatureShape(params: seq<Param>)
    ensures var ks := KeptParams(params);
      && StartsWith(ArgumentsText(["self"] + RenderAll(ks)), "\n" + ARG_INDENT + "self")
      && (forall p :: p in ks ==> p.name != "self")
      && |CallAll(ks)| == |["self"] + RenderAll(ks)| - 1
      && (forall i :: 0 <= i < |ks| ==>
            StartsWith((["self"] + RenderAll(ks))[i + 1], ks[i].name) &&
            CallAll(ks)[i] == ks[i].name + " = " + ks[i].name)
  {
    var ks := KeptParams(params);
    ArgumentsStartWithSelf(RenderAll(ks));
    forall i | 0 <= i < |ks|
      ensures StartsWith((["self"] + RenderAll(ks))[i + 1], ks[i].name)
    {
      assert (["self"] + RenderAll(ks))[i + 1] == RenderAll(ks)[i] == Entry(ks[i]);
    }
  }

  /** Appending one more entry adds a separator and that entry at the end. */
  lemma ArgumentsAppend(entries: seq<string>, e: string)
    requires |entries| >= 1
    ensures ArgumentsText(entries + [e]) == ArgumentsText(entries) + ",\n" + ARG_INDENT + e
  {
    JoinSnoc(",\n" + ARG_INDENT, entries, e);
  }

  /** Reading a rendered default back. */
  function ParseLiteral(t: string): Literal {
    if |t| >= 2 && t[0] == '\'' && t[|t| - 1] == '\'' then Str(t[1..|t| - 1])
    else if t == "True" then Bool(true)
    else if t == "False" then Bool(false)
    else if t == "None" then NoneLit
    else Number(t)
  }

  /** Reading a rendered formal-argument entry back: the name runs to the first
      space, and ` = ` introduces the default. */
  function ParseEntry(e: string): Param {
    var name := BeforeFirst(e, ' ');
    var rest := e[|name|..];
    if rest == [] then Param(name, Required)
    else if StartsWith(rest, " = ") then Param(name, Given(ParseLiteral(rest[3..])))
    else Param(name, Unsupported)
  }

  /** The printed form of a number is not mistaken for another kind. */
  predicate PlainNumber(v: Literal) {
    v.Number? ==>
      v.repr !in {"True", "False", "None"} &&
      !(|v.repr| >= 2 && v.repr[0] == '\'' && v.repr[|v.repr| - 1] == '\'')
  }

  /** A printed default reads back as itself. */
  lemma LiteralRoundTrip(v: Literal)
    requires PlainNumber(v)
    ensures ParseLiteral(RenderLiteral(v)) == v
  {
    match v
    case Str(x) =>
      var t := "'" + x + "'";
      assert t[0] == '\'' && t[|t| - 1] == '\'';
      assert t[1..|t| - 1] == x;
    case Bool(b) =>
      if b {
        assert RenderLiteral(v) == "True";
        assert "True"[0] != '\'';
      } else {
        assert RenderLiteral(v) == "False";
        assert "False"[0] != '\'';
      }
    case NoneLit =>
      assert "None"[0] != '\'';
    case Number(r) =>
  }

  /** Rendering loses nothing: the entry of a kept parameter whose name has no
      space reads back as that parameter, except that a newline default reads
      back as backslash-newline. */
  lemma EntryRoundTrip(p: Param)
    requires IsKept(p) && ' ' !in p.name
    requires p.default.Given? ==> PlainNumber(p.default.value)
    ensures p.default != Given(Str("\n")) ==> ParseEntry(Entry(p)) == p
    ensures p.default == Given(Str("\n")) ==> ParseEntry(Entry(p)) == Param(p.name, Given(Str("\\\n")))
  {
    var e := Entry(p);
    if p.default.Required? {
      BeforeFirstName(p.name, "");
      assert e == p.name + "";
      assert e[|p.name|..] == [];
    } else {
      var v := p.default.value;
      var shown := RenderLiteral(EscapeNewline(v));
      var tail := " = " + shown;
      assert e == p.name + tail;
      BeforeFirstName(p.name, tail);
      assert e[|p.name|..] == tail;
      assert StartsWith(tail, " = ");
      assert tail[3..] == shown;
      LiteralRoundTrip(EscapeNewline(v));
    }
  }

  /** The text before the first space of a name followed by a space-led tail. */
  lemma {:induction false} BeforeFirstName(name: string, tail: string)
    requires ' ' !in name
    requires tail == [] || tail[0] == ' '
    ensures BeforeFirst(name + tail, ' ') == name
    decreases |name|
  {
    if name == [] {
      assert name + tail == tail;
    } else {
      assert (name + tail)[1..] == name[1..] + tail;
      BeforeFirstName(name[1..], tail);
    }
  }
}
