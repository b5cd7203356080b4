/** String operations of Python's `str` that the patcher relies on: prefix and
    suffix tests, the `in` substring test, `join`, `split`, `replace` (all
    occurrences and the first one only), and ASCII case handling. */
module Text {

  datatype Option<+T> = None | Some(value: T)

  /** Concatenation regroups freely. */
  lemma AppendAssoc<T>(x: seq<T>, p: seq<T>, q: seq<T>)
    ensures x + (p + q) == (x + p) + q
  {
  }

  /** Dropping twice is dropping once. */
  lemma DropDrop<T>(s: seq<T>, i: nat, n: nat)
    requires i + n <= |s|
    ensures s[i..][n..] == s[i + n..]
  {
  }

  /** Dropping from a concatenation inside its first part. */
  lemma DropAppend<T>(a: seq<T>, b: seq<T>, i: nat)
    requires i <= |a|
    ensures (a + b)[i..] == a[i..] + b
  {
  }

  /** `n` space characters, as Python's `' ' * n`. */
  function Spaces(n: nat): (r: string)
    ensures |r| == n
    ensures forall i :: 0 <= i < n ==> r[i] == ' '
  {
    if n == 0 then "" else " " + Spaces(n - 1)
  }

  /** `s.startswith(p)` */
  predicate StartsWith(s: string, p: string) {
    |p| <= |s| && s[..|p|] == p
  }

  /** A prefix of a prefix is a prefix. */
  lemma StartsWithTrans(s: string, t: string, p: string)
    requires StartsWith(s, t) && StartsWith(t, p)
    ensures StartsWith(s, p)
  {
    assert s[..|p|] == s[..|t|][..|p|];
  }

  /** `s.endswith(p)` */
  predicate EndsWith(s: string, p: string) {
    |p| <= |s| && s[|s| - |p|..] == p
  }

  /** `p in s`: some suffix of `s` starts with `p`. */
  predicate Contains(s: string, p: string)
    decreases |s|
  {
    StartsWith(s, p) || (|s| > 0 && Contains(s[1..], p))
  }

  /** An occurrence at a given position is an occurrence. */
  lemma {:induction false} ContainsAt(s: string, p: string, i: nat)
    requires i + |p| <= |s| && s[i..i + |p|] == p
    ensures Contains(s, p)
  {
    if i == 0 {
      assert StartsWith(s, p);
    } else {
      assert s[1..][i - 1..i - 1 + |p|] == s[i..i + |p|];
      ContainsAt(s[1..], p, i - 1);
    }
  }

  /** A pattern occurs in any text that has it in the middle. */
  lemma ContainsInfix(a: string, p: string, b: string)
    ensures Contains(a + p + b, p)
  {
    var s := a + p + b;
    assert s[|a|..|a| + |p|] == p;
    ContainsAt(s, p, |a|);
  }

  /** An occurrence has a position. */
  lemma {:induction false} ContainsPosition(s: string, p: string) returns (i: nat)
    requires Contains(s, p)
    ensures i + |p| <= |s| && s[i..i + |p|] == p
    ensures StartsWith(s[i..], p)
    decreases |s|
  {
    if StartsWith(s, p) {
      i := 0;
    } else {
      var k := ContainsPosition(s[1..], p);
      assert s[1..][k..k + |p|] == s[k + 1..k + 1 + |p|];
      i := k + 1;
    }
    assert s[i..][..|p|] == s[i..i + |p|];
  }

  /** What occurs in an occurring text occurs in the whole. */
  lemma ContainsTransitive(s: string, q: string, p: string)
    requires Contains(s, q) && Contains(q, p)
    ensures Contains(s, p)
  {
    var i := ContainsPosition(s, q);
    var j := ContainsPosition(q, p);
    forall k | 0 <= k < |p|
      ensures s[i + j + k] == p[k]
    {
      assert s[i..i + |q|][j + k] == q[j + k];
      assert q[j..j + |p|][k] == p[k];
    }
    assert s[i + j..i + j + |p|] == p;
    ContainsAt(s, p, i + j);
  }

  /** A pattern longer than the text does not occur in it. */
  lemma {:induction false} NotContainsShort(s: string, p: string)
    requires |s| < |p|
    ensures !Contains(s, p)
  {
    if |s| > 0 {
      NotContainsShort(s[1..], p);
    }
  }

  /** No occurrence can straddle `a` and `b` when `b` begins with a character
      the pattern does not use, so `a + b` has one only if `a` or `b` has. */
  lemma {:induction false} NotContainsSplit(a: string, b: string, p: string)
    requires !Contains(a, p) && !Contains(b, p)
    requires |b| > 0 && forall j :: 0 <= j < |p| ==> p[j] != b[0]
    ensures !Contains(a + b, p)
  {
    if a == [] {
      assert a + b == b;
    } else {
      if |p| <= |a| {
        assert (a + b)[..|p|] == a[..|p|];
      } else {
        assert (a + b)[|a|] == b[0];
      }
      assert !StartsWith(a + b, p);
      assert (a + b)[1..] == a[1..] + b;
      NotContainsSplit(a[1..], b, p);
    }
  }

  /** `sep.join(xs)` */
  function Join(sep: string, xs: seq<string>): string
    decreases |xs|
  {
    if xs == [] then ""
    else if |xs| == 1 then xs[0]
    else xs[0] + sep + Join(sep, xs[1..])
  }

  /** The last character of a concatenation with a non-empty end. */
  lemma AppendLastChar(a: string, b: string)
    requires |b| > 0
    ensures (a + b)[|a + b| - 1] == b[|b| - 1]
  {
  }

  /** A join ends with the last character of its last element. */
  lemma {:induction false} JoinLastChar(sep: string, xs: seq<string>)
    requires |xs| >= 1 && |xs[|xs| - 1]| > 0
    ensures |Join(sep, xs)| > 0
    ensures Join(sep, xs)[|Join(sep, xs)| - 1] == xs[|xs| - 1][|xs[|xs| - 1]| - 1]
    decreases |xs|
  {
    if |xs| > 1 {
      JoinLastChar(sep, xs[1..]);
      AppendLastChar(xs[0] + sep, Join(sep, xs[1..]));
    }
  }

  /** Joining after one more element is joining with one more separator. */
  lemma {:induction false} JoinSnoc(sep: string, xs: seq<string>, x: string)
    requires |xs| >= 1
    ensures Join(sep, xs + [x]) == Join(sep, xs) + sep + x
    decreases |xs|
  {
    if |xs| == 1 {
      assert (xs + [x])[1..] == [x];
    } else {
      assert (xs + [x])[1..] == xs[1..] + [x];
      JoinSnoc(sep, xs[1..], x);
    }
  }

  /** `s.split(c)` for a one-character separator: always at least one piece,
      and an empty string gives one empty piece. */
  function Split(s: string, c: char): (r: seq<string>)
    ensures |r| >= 1
    decreases |s|
  {
    if s == [] then [""]
    else
      var rest := Split(s[1..], c);
      if s[0] == c then [""] + rest else [[s[0]] + rest[0]] + rest[1..]
  }

  /** No piece of a split holds the separator. */
  lemma {:induction false} SplitPiecesFree(s: string, c: char)
    ensures forall i :: 0 <= i < |Split(s, c)| ==> c !in Split(s, c)[i]
    decreases |s|
  {
    if s != [] {
      SplitPiecesFree(s[1..], c);
    }
  }

  /** Joining the pieces of a split gives the text back. */
  lemma {:induction false} JoinSplit(s: string, c: char)
    ensures Join([c], Split(s, c)) == s
    decreases |s|
  {
    if s != [] {
      var rest := Split(s[1..], c);
      JoinSplit(s[1..], c);
      if s[0] == c {
        assert ([""] + rest)[1..] == rest;
      } else {
        var r := [[s[0]] + rest[0]] + rest[1..];
        if |rest| == 1 {
          assert Join([c], r) == [s[0]] + rest[0];
        } else {
          assert r[1..] == rest[1..];
          assert Join([c], r) == [s[0]] + rest[0] + [c] + Join([c], rest[1..]);
        }
      }
    }
  }

  /** Splitting a text whose first line is `l` gives `l` and the split of the rest. */
  lemma {:induction false} SplitAfterLine(l: string, c: char, rest: string)
    requires c !in l
    ensures Split(l + [c] + rest, c) == [l] + Split(rest, c)
    decreases |l|
  {
    if l == [] {
      assert l + [c] + rest == [c] + rest;
    } else {
      assert (l + [c] + rest)[1..] == l[1..] + [c] + rest;
      SplitAfterLine(l[1..], c, rest);
      var r := Split(l[1..] + [c] + rest, c);
      assert r[0] == l[1..] && r[1..] == Split(rest, c);
      assert [l[0]] + l[1..] == l;
    }
  }

  /** A text without the separator splits into itself. */
  lemma {:induction false} SplitNoSeparator(l: string, c: char)
    requires c !in l
    ensures Split(l, c) == [l]
    decreases |l|
  {
    if l != [] {
      SplitNoSeparator(l[1..], c);
      assert [l[0]] + l[1..] == l;
    }
  }

  /** Splitting a join gives the pieces back, when no piece holds the separator. */
  lemma {:induction false} SplitJoin(xs: seq<string>, c: char)
    requires |xs| >= 1
    requires forall i :: 0 <= i < |xs| ==> c !in xs[i]
    ensures Split(Join([c], xs), c) == xs
    decreases |xs|
  {
    if |xs| == 1 {
      SplitNoSeparator(xs[0], c);
    } else {
      SplitJoin(xs[1..], c);
      SplitAfterLine(xs[0], c, Join([c], xs[1..]));
      assert [xs[0]] + xs[1..] == xs;
    }
  }

  /** A text ending in the separator splits into one more, empty, piece. */
  lemma {:induction false} SplitSnocSeparator(t: string, c: char)
    ensures Split(t + [c], c) == Split(t, c) + [""]
    decreases |t|
  {
    var s := t + [c];
    if t == [] {
      assert s[1..] == [];
    } else {
      assert s[0] == t[0] && s[1..] == t[1..] + [c];
      SplitSnocSeparator(t[1..], c);
    }
  }

  /** `s.replace(pat, rep)`: every non-overlapping occurrence, scanned from the
      left; an empty pattern inserts `rep` before every character and at the end. */
  function Replace(s: string, pat: string, rep: string): string
    decreases |s|
  {
    if pat == [] then
      (if s == [] then rep else rep + [s[0]] + Replace(s[1..], pat, rep))
    else if StartsWith(s, pat) then rep + Replace(s[|pat|..], pat, rep)
    else if s == [] then []
    else [s[0]] + Replace(s[1..], pat, rep)
  }

  /** A pattern that does not occur leaves the text alone. */
  lemma {:induction false} ReplaceAbsent(s: string, pat: string, rep: string)
    requires !Contains(s, pat)
    ensures Replace(s, pat, rep) == s
    decreases |s|
  {
    if s != [] {
      ReplaceAbsent(s[1..], pat, rep);
    }
  }

  /** Replacing a pattern by itself changes nothing. */
  lemma {:induction false} ReplaceIdentity(s: string, pat: string)
    ensures Replace(s, pat, pat) == s
    decreases |s|
  {
    if pat == [] {
      if s != [] {
        ReplaceIdentity(s[1..], pat);
      }
    } else if StartsWith(s, pat) {
      ReplaceIdentity(s[|pat|..], pat);
      assert s == s[..|pat|] + s[|pat|..];
    } else if s != [] {
      ReplaceIdentity(s[1..], pat);
    }
  }

  /** `s.replace(pat, rep, 1)`: only the first occurrence. */
  function ReplaceFirst(s: string, pat: string, rep: string): string
    decreases |s|
  {
    if StartsWith(s, pat) then rep + s[|pat|..]
    else if s == [] then []
    else [s[0]] + ReplaceFirst(s[1..], pat, rep)
  }

  /** `pat` starts at no position before `n`. */
  predicate NoOccurrenceBefore(s: string, pat: string, n: nat) {
    forall j :: 0 <= j < n && j <= |s| ==> !StartsWith(s[j..], pat)
  }

  /** Dropping the first character keeps the earlier positions free. */
  lemma NoOccurrenceShift(s: string, pat: string, n: nat)
    requires |s| > 0 && n > 0
    requires NoOccurrenceBefore(s, pat, n)
    ensures NoOccurrenceBefore(s[1..], pat, n - 1)
  {
    forall j | 0 <= j < n - 1 && j <= |s[1..]|
      ensures !StartsWith(s[1..][j..], pat)
    {
      assert s[1..][j..] == s[j + 1..];
    }
  }

  /** Splitting off the first character of `a` in `a + u + v`. */
  lemma ConsThree(a: string, u: string, v: string)
    requires a != []
    ensures (a + u + v)[0] == a[0]
    ensures (a + u + v)[1..] == a[1..] + u + v
    ensures [a[0]] + (a[1..] + u + v) == a + u + v
  {
    assert a == [a[0]] + a[1..];
    AppendAssoc([a[0]], a[1..] + u, v);
    AppendAssoc([a[0]], a[1..], u);
  }

  /** With the first occurrence of `pat` right after `a`, only that occurrence
      is replaced: what precedes and everything after it, later occurrences
      included, are left as they were. */
  lemma {:induction false} ReplaceFirstAt(a: string, pat: string, b: string, rep: string)
    requires NoOccurrenceBefore(a + pat + b, pat, |a|)
    ensures ReplaceFirst(a + pat + b, pat, rep) == a + rep + b
    decreases |a|
  {
    var s := a + pat + b;
    if a == [] {
      assert s == pat + b;
      assert s[|pat|..] == b;
    } else {
      ConsThree(a, pat, b);
      ConsThree(a, rep, b);
      assert !StartsWith(s, pat) by {
        assert s[0..] == s;
      }
      NoOccurrenceShift(s, pat, |a|);
      ReplaceFirstAt(a[1..], pat, b, rep);
      assert ReplaceFirst(s, pat, rep) == [s[0]] + ReplaceFirst(s[1..], pat, rep);
    }
  }

  /** A pattern that does not occur leaves the text alone. */
  lemma {:induction false} ReplaceFirstAbsent(s: string, pat: string, rep: string)
    requires !Contains(s, pat)
    ensures ReplaceFirst(s, pat, rep) == s
    decreases |s|
  {
    if s != [] {
      ReplaceFirstAbsent(s[1..], pat, rep);
    }
  }

  /** With the first occurrence of `pat` right after `a`, that occurrence is
      replaced, `a` is kept and the scan goes on after it. */
  lemma {:induction false} ReplaceAt(a: string, pat: string, b: string, rep: string)
    requires pat != [] && NoOccurrenceBefore(a + pat + b, pat, |a|)
    ensures Replace(a + pat + b, pat, rep) == a + rep + Replace(b, pat, rep)
    decreases |a|
  {
    var s := a + pat + b;
    if a == [] {
      assert s == pat + b;
      assert s[|pat|..] == b;
    } else {
      ConsThree(a, pat, b);
      ConsThree(a, rep, Replace(b, pat, rep));
      assert !StartsWith(s, pat) by {
        assert s[0..] == s;
      }
      NoOccurrenceShift(s, pat, |a|);
      ReplaceAt(a[1..], pat, b, rep);
      assert Replace(s, pat, rep) == [s[0]] + Replace(s[1..], pat, rep);
    }
  }

  /** With one occurrence of `pat` only, right after `a`, the text becomes
      `a`, the replacement and `b`. */
  lemma ReplaceOnly(a: string, pat: string, b: string, rep: string)
    requires pat != [] && NoOccurrenceBefore(a + pat + b, pat, |a|) && !Contains(b, pat)
    ensures Replace(a + pat + b, pat, rep) == a + rep + b
  {
    ReplaceAt(a, pat, b, rep);
    ReplaceAbsent(b, pat, rep);
  }

  /** An occurrence that straddles the end of `a` holds its last character. */
  lemma StraddleChar(a: string, t: string, p: string, j: nat)
    requires j < |a| < j + |p| && j + |p| <= |a + t| && (a + t)[j..j + |p|] == p
    ensures a[|a| - 1] in p
  {
    assert p[|a| - 1 - j] == (a + t)[|a| - 1];
  }

  /** An occurrence of `p` in `a + x + b` that neither `a` nor `b` holds, when
      `a` ends in a character `p` does not use, starts inside `x`. */
  lemma OccurrenceInMiddle(a: string, x: string, b: string, p: string, j: nat)
    requires p != [] && !Contains(a, p) && !Contains(b, p)
    requires a == [] || a[|a| - 1] !in p
    requires j <= |a + x + b| && StartsWith((a + x + b)[j..], p)
    ensures |a| <= j < |a| + |x|
    ensures (a + x + b)[j] == p[0]
  {
    var s := a + x + b;
    assert s[j..][..|p|] == s[j..j + |p|];
    if j < |a| {
      if j + |p| <= |a| {
        assert a[j..j + |p|] == s[j..j + |p|];
        ContainsAt(a, p, j);
      } else {
        AppendAssoc(a, x, b);
        StraddleChar(a, x + b, p, j);
        assert false;
      }
    } else if j >= |a| + |x| {
      var k := j - |a| - |x|;
      assert b[k..k + |p|] == s[j..j + |p|];
      ContainsAt(b, p, k);
    }
    assert s[j] == s[j..j + |p|][0];
  }

  /** A character of `u + p + v`, read from the part that holds it. */
  lemma CharOfThree(u: string, p: string, v: string, o: nat)
    requires o < |u + p + v|
    ensures (u + p + v)[o] ==
      if o < |u| then u[o] else if o < |u| + |p| then p[o - |u|] else v[o - |u| - |p|]
  {
  }

  /** When `p` begins with a character used nowhere else in `u + p + v`, and
      `a` ends in a character `p` does not use, the `p` in the middle is its
      only occurrence in `a + (u + p + v) + b` outside `a` and `b`. */
  lemma OnlyOccurrence(a: string, u: string, p: string, v: string, b: string, j: nat)
    requires p != [] && !Contains(a, p) && !Contains(b, p)
    requires a == [] || a[|a| - 1] !in p
    requires p[0] !in u && p[0] !in v && forall i :: 0 < i < |p| ==> p[i] != p[0]
    requires j <= |a + (u + p + v) + b| && StartsWith((a + (u + p + v) + b)[j..], p)
    ensures j == |a| + |u|
  {
    var x := u + p + v;
    OccurrenceInMiddle(a, x, b, p, j);
    var o := j - |a|;
    assert (a + x + b)[j] == x[o];
    CharOfThree(u, p, v, o);
  }

  /** No occurrence of `p` can start inside a text without its first
      character, so such a text set between two free of `p` keeps them free. */
  lemma NoOccurrenceAround(a: string, x: string, b: string, p: string)
    requires p != [] && !Contains(a, p) && !Contains(b, p)
    requires a == [] || a[|a| - 1] !in p
    requires p[0] !in x
    ensures !Contains(a + x + b, p)
  {
    if Contains(a + x + b, p) {
      var j := ContainsPosition(a + x + b, p);
      OccurrenceInMiddle(a, x, b, p, j);
      assert false;
    }
  }

  /** An occurrence in a piece of a text is an occurrence in the text. */
  lemma ContainsPiece(s: string, i: nat, j: nat, p: string)
    requires i <= j <= |s| && Contains(s[i..j], p)
    ensures Contains(s, p)
  {
    ContainsAt(s, s[i..j], i);
    ContainsTransitive(s, s[i..j], p);
  }

  /** The first occurrence of a pattern. */
  lemma {:induction false} FirstOccurrence(s: string, p: string) returns (i: nat)
    requires Contains(s, p)
    ensures i + |p| <= |s| && StartsWith(s[i..], p)
    ensures NoOccurrenceBefore(s, p, i)
    decreases |s|
  {
    if StartsWith(s, p) {
      i := 0;
      assert s[0..] == s;
    } else {
      var k := FirstOccurrence(s[1..], p);
      i := k + 1;
      assert s[1..][k..] == s[i..];
      forall j | 0 <= j < i && j <= |s|
        ensures !StartsWith(s[j..], p)
      {
        if j == 0 {
          assert s[0..] == s;
        } else {
          assert s[1..][j - 1..] == s[j..];
        }
      }
    }
  }

  /** No occurrence can end inside `u` when `u` lacks the pattern's last
      character. */
  lemma NoneEndingIn(a: string, u: string, p: string)
    requires p != [] && !Contains(a, p) && p[|p| - 1] !in u
    ensures !Contains(a + u, p)
  {
    if Contains(a + u, p) {
      var j := ContainsPosition(a + u, p);
      if j + |p| <= |a| {
        assert a[j..j + |p|] == (a + u)[j..j + |p|];
        ContainsAt(a, p, j);
      }
      assert false;
    }
  }

  /** No occurrence can start inside `u` when `u` lacks the pattern's first
      character. */
  lemma NoneStartingIn(u: string, b: string, p: string)
    requires p != [] && !Contains(b, p) && p[0] !in u
    ensures !Contains(u + b, p)
  {
    if Contains(u + b, p) {
      var j := ContainsPosition(u + b, p);
      if j < |u| {
        CharOfOccurrence(u + b, p, j, 0);
      } else {
        assert b[j - |u|..j - |u| + |p|] == (u + b)[j..j + |p|];
        ContainsAt(b, p, j - |u|);
      }
      assert false;
    }
  }

  /** No occurrence can cover a character the pattern does not use. */
  lemma NoneAcross(a: string, c: char, b: string, p: string)
    requires !Contains(a, p) && !Contains(b, p) && c !in p
    ensures !Contains(a + [c] + b, p)
  {
    var s := a + [c] + b;
    if Contains(s, p) {
      var j := ContainsPosition(s, p);
      if j + |p| <= |a| {
        assert a[j..j + |p|] == s[j..j + |p|];
        ContainsAt(a, p, j);
      } else if j > |a| {
        assert b[j - |a| - 1..j - |a| - 1 + |p|] == s[j..j + |p|];
        ContainsAt(b, p, j - |a| - 1);
      } else {
        CharOfOccurrence(s, p, j, |a| - j);
      }
      assert false;
    }
  }

  /** `rep` has a character `p` does not use, with no last character of `p`
      before it and no first character of `p` after it: no occurrence of `p`
      can overlap `rep`. */
  predicate Shields(rep: string, p: string, m: nat) {
    p != [] && m < |rep| && rep[m] !in p && p[|p| - 1] !in rep[..m] && p[0] !in rep[m + 1..]
  }

  /** Before the first occurrence of a pattern, the text holds none. */
  lemma PrefixFree(s: string, i: nat, p: string)
    requires p != [] && i <= |s| && NoOccurrenceBefore(s, p, i)
    ensures !Contains(s[..i], p)
  {
    if Contains(s[..i], p) {
      var j := ContainsPosition(s[..i], p);
      OccurrenceInPrefix(s, i, p, j);
      assert false;
    }
  }

  /** An occurrence within the first `i` characters is one of the text. */
  lemma OccurrenceInPrefix(s: string, i: nat, p: string, j: nat)
    requires i <= |s| && j + |p| <= i && s[..i][j..j + |p|] == p
    ensures StartsWith(s[j..], p)
  {
    assert s[j..][..|p|] == s[..i][j..j + |p|];
  }

  /** The pieces around the first occurrence of a pattern. */
  lemma AroundFirst(s: string, i: nat, p: string)
    requires i + |p| <= |s| && StartsWith(s[i..], p)
    ensures s == s[..i] + p + s[i + |p|..]
  {
    assert s[i..][..|p|] == s[i..i + |p|];
    assert s == s[..i] + s[i..i + |p|] + s[i + |p|..];
  }

  /** Setting a shielding text between two texts free of `p` keeps them free. */
  lemma ShieldedJoin(a: string, rep: string, b: string, p: string, m: nat)
    requires Shields(rep, p, m) && !Contains(a, p) && !Contains(b, p)
    ensures !Contains(a + rep + b, p)
  {
    NoneEndingIn(a, rep[..m], p);
    NoneStartingIn(rep[m + 1..], b, p);
    NoneAcross(a + rep[..m], rep[m], rep[m + 1..] + b, p);
    assert rep == rep[..m] + [rep[m]] + rep[m + 1..];
    AppendAssoc(a, rep[..m] + [rep[m]], rep[m + 1..]);
    assert a + rep + b == (a + rep[..m]) + [rep[m]] + (rep[m + 1..] + b);
  }

  /** `str.replace` by a shielding text leaves no occurrence of the pattern,
      and creates none of a text `q` it shields against when there was none. */
  lemma {:induction false} ReplaceLeavesNone(s: string, pat: string, rep: string, q: string, m: nat)
    requires pat != [] && Shields(rep, q, m)
    requires q == pat || !Contains(s, q)
    ensures !Contains(Replace(s, pat, rep), q)
    decreases |s|
  {
    if !Contains(s, pat) {
      ReplaceAbsent(s, pat, rep);
    } else {
      var i := FirstOccurrence(s, pat);
      var a, b := s[..i], s[i + |pat|..];
      AroundFirst(s, i, pat);
      ReplaceAt(a, pat, b, rep);
      if Contains(b, q) {
        assert s[i + |pat|..|s|] == b;
        ContainsPiece(s, i + |pat|, |s|, q);
      }
      ReplaceLeavesNone(b, pat, rep, q, m);
      if q == pat {
        PrefixFree(s, i, pat);
      } else if Contains(a, q) {
        assert s[0..i] == a;
        ContainsPiece(s, 0, i, q);
      }
      ShieldedJoin(a, rep, Replace(b, pat, rep), q, m);
    }
  }

  /** An occurrence of `e` that has `p` at offset `k` puts `p` at that offset. */
  lemma OccurrenceAtOffset(s: string, e: string, i: nat, p: string, k: nat)
    requires i <= |s| && StartsWith(s[i..], e)
    requires k + |p| <= |e| && e[k..k + |p|] == p
    ensures i + k <= |s| && StartsWith(s[i + k..], p)
  {
    assert s[i..i + |e|] == s[i..][..|e|];
    forall n | 0 <= n < |p|
      ensures s[i + k..][n] == p[n]
    {
      assert s[i + k..][n] == s[i..i + |e|][k + n] == e[k + n];
      assert e[k..k + |p|][n] == e[k + n];
    }
  }

  /** A character of an occurrence is the pattern's character. */
  lemma CharOfOccurrence(s: string, e: string, i: nat, n: nat)
    requires i <= |s| && StartsWith(s[i..], e) && n < |e|
    ensures s[i + n] == e[n]
  {
    assert s[i..][..|e|][n] == s[i + n];
  }

  predicate IsUpperAscii(c: char) { 'A' <= c <= 'Z' }

  predicate IsLowerAscii(c: char) { 'a' <= c <= 'z' }

  /** ASCII `c.lower()` */
  function LowerChar(c: char): (r: char)
    ensures !IsUpperAscii(r)
    ensures IsUpperAscii(c) ==> r as int == c as int + 32
    ensures !IsUpperAscii(c) ==> r == c
  {
    if IsUpperAscii(c) then (c as int + 32) as char else c
  }

  /** ASCII `s.lower()` */
  function Lower(s: string): (r: string)
    ensures |r| == |s|
    ensures forall i :: 0 <= i < |s| ==> r[i] == LowerChar(s[i])
  {
    if s == [] then [] else [LowerChar(s[0])] + Lower(s[1..])
  }

  /** ASCII `s.islower()`: some cased character and no upper-case one. */
  predicate IsLowerName(s: string) {
    (exists i :: 0 <= i < |s| && IsLowerAscii(s[i])) &&
    (forall i :: 0 <= i < |s| ==> !IsUpperAscii(s[i]))
  }

  /** `s.split(c)[0]`: the text before the first `c`. */
  function BeforeFirst(s: string, c: char): (r: string)
    ensures StartsWith(s, r) && c !in r
    ensures |r| < |s| ==> s[|r|] == c
  {
    if s == [] || s[0] == c then [] else [s[0]] + BeforeFirst(s[1..], c)
  }
}
