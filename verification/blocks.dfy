/** Conditional blocks as they are written in templates, and the position facts the
    rendering laws for them rest on. */
module Blocks {
  import opened Wrappers
  import opened Text
  import opened Values
  import opened Scan

  /** The three conditional block forms. */
  datatype Cond = When(key: string) | Unless(key: string) | WhenEq(key: string, word: string)

  predicate ValidCond(c: Cond) {
    IsWordString(c.key) && (c.WhenEq? ==> IsWordString(c.word))
  }

  /** The opening tag, written in its plainest form. */
  function OpenTag(c: Cond): string {
    match c
    case When(k) => "{{#if " + k + "}}"
    case Unless(k) => "{{#if !" + k + "}}"
    case WhenEq(k, w) => "{{#if_eq " + k + " = " + w + "}}"
  }

  function CloseTag(c: Cond): string {
    if c.WhenEq? then "{{/if_eq}}" else "{{/if}}"
  }

  function CloseName(c: Cond): string {
    if c.WhenEq? then CloseIfEq else CloseIf
  }

  /** `{{#if k}}x{{/if}}`, `{{#if !k}}x{{/if}}` or `{{#if_eq k = w}}x{{/if_eq}}`. */
  function BlockText(c: Cond, x: string): string {
    OpenTag(c) + x + CloseTag(c)
  }

  /** The pass that resolves blocks of this form. */
  function PassOf(c: Cond): Pass {
    match c
    case When(k) => IfTruthy(k)
    case Unless(k) => IfFalsy(k)
    case WhenEq(k, _) => IfEq(k)
  }

  /** The word the pass captures from the opening tag. */
  function WordOf(c: Cond): string {
    if c.WhenEq? then c.word else ""
  }

  /** Whether the block's content is kept: truthy, falsy, or strictly equal to the
      literal (`===`, so only a string value can be equal). */
  predicate Kept(c: Cond, vars: Vars) {
    match c
    case When(k) => Truthy(ValueOf(vars, k))
    case Unless(k) => !Truthy(ValueOf(vars, k))
    case WhenEq(k, w) => ValueOf(vars, k) == Str(w)
  }

  /** No `{{` in `x` starts a conditional tag or a closing tag: after the `{{` and any
      white space comes neither `#` nor `/`. Such text may still hold placeholders
      and helper calls. */
  predicate CondFree(x: string) {
    forall m: nat :: m < |x| && OpensAt(x, m) ==>
      var a := SkipWs(x, m + 2);
      a == |x| || (x[a] != '#' && x[a] != '/')
  }

  /** Position `m` cannot start any match: no `{{` there, or `{{` directly followed by
      `{` or `/`. */
  predicate Dead(s: string, m: nat) {
    !OpensAt(s, m) || (m + 2 < |s| && (s[m + 2] == '{' || s[m + 2] == '/'))
  }

  /** Position `m` cannot start a conditional tag or a closing tag. */
  predicate CondDead(s: string, m: nat) {
    m <= |s| &&
    (!OpensAt(s, m) ||
      var a := SkipWs(s, m + 2);
      a == |s| || (s[a] != '#' && s[a] != '/'))
  }

  // ---- small facts about literals ----

  lemma LitAtOpens(s: string, i: nat)
    ensures LitAt(s, i, "{{") ==> OpensAt(s, i)
  {
    if LitAt(s, i, "{{") {
      assert s[i] == s[i..i + 2][0] && s[i + 1] == s[i..i + 2][1];
    }
  }

  lemma LitAtHead(s: string, i: nat, lit: string)
    requires |lit| > 0
    ensures LitAt(s, i, lit) ==> i < |s| && s[i] == lit[0]
  {
    if LitAt(s, i, lit) {
      assert s[i] == s[i..i + |lit|][0];
    }
  }

  lemma LitAtChar(s: string, i: nat, lit: string, j: nat)
    requires j < |lit|
    ensures LitAt(s, i, lit) ==> i + j < |s| && s[i + j] == lit[j]
  {
    if LitAt(s, i, lit) {
      assert s[i + j] == s[i..i + |lit|][j];
    }
  }

  /** A piece of a literal found at `i` is found at the matching offset. */
  lemma LitAtSub(s: string, i: nat, lit: string, a: nat, b: nat)
    requires LitAt(s, i, lit) && a <= b <= |lit|
    ensures LitAt(s, i + a, lit[a..b])
  {
    forall q | 0 <= q < b - a
      ensures s[i + a..i + b][q] == lit[a..b][q]
    {
      assert s[i + a + q] == s[i..i + |lit|][a + q];
    }
  }

  lemma LitAtSelf(s: string)
    ensures LitAt(s, 0, s)
  {
    assert s[0..|s|] == s;
  }

  /** A concatenation found at `j` is its first part at `j`, then its second part. */
  lemma LitAtSplit(t: string, j: nat, a: string, b: string)
    requires LitAt(t, j, a + b)
    ensures LitAt(t, j, a) && LitAt(t, j + |a|, b)
  {
    LitAtSub(t, j, a + b, 0, |a|);
    LitAtSub(t, j, a + b, |a|, |a + b|);
    assert (a + b)[0..|a|] == a && (a + b)[|a|..|a + b|] == b;
  }

  /** A concatenation of three parts found at `j` is each part at its own offset. */
  lemma LitAtSplit3(t: string, j: nat, a: string, b: string, c: string)
    requires LitAt(t, j, a + b + c)
    ensures LitAt(t, j, a) && LitAt(t, j + |a|, b) && LitAt(t, j + |a| + |b|, c)
  {
    LitAtSplit(t, j, a + b, c);
    LitAtSplit(t, j, a, b);
  }

  /** A concatenation of five parts found at `j` is each part at its own offset. */
  lemma LitAtSplit5(t: string, j: nat, a: string, b: string, c: string, d: string, e: string)
    requires LitAt(t, j, a + b + c + d + e)
    ensures LitAt(t, j, a) && LitAt(t, j + |a|, b) && LitAt(t, j + |a| + |b|, c)
    ensures LitAt(t, j + |a| + |b| + |c|, d) && LitAt(t, j + |a| + |b| + |c| + |d|, e)
  {
    LitAtSplit(t, j, a + b + c + d, e);
    LitAtSplit(t, j, a + b + c, d);
    LitAtSplit(t, j, a + b, c);
    LitAtSplit(t, j, a, b);
  }

  /** Only white space from `a` up to `b`. */
  predicate Spaces(t: string, a: nat, b: nat) {
    b <= |t| && forall m :: a <= m < b ==> IsSpace(t[m])
  }

  lemma SpacesAt(t: string, a: nat, w: string)
    requires LitAt(t, a, w) && AllSpace(w)
    ensures Spaces(t, a, a + |w|)
  {
    forall m | a <= m < a + |w|
      ensures IsSpace(t[m])
    {
      LitAtChar(t, a, w, m - a);
    }
  }

  /** A literal inside `w` is found at the matching position of a text holding `w` at `j`. */
  lemma LitIn(t: string, j: nat, w: string, a: nat, lit: string)
    requires LitAt(t, j, w) && LitAt(w, a, lit)
    ensures LitAt(t, j + a, lit)
  {
    LitAtSub(t, j, w, a, a + |lit|);
  }

  /** A white-space run that stops inside `w` stops at the matching position of a text
      holding `w` at `j`. */
  lemma SkipWsIn(t: string, j: nat, w: string, a: nat)
    requires LitAt(t, j, w) && a <= |w| && SkipWs(w, a) < |w|
    ensures SkipWs(t, j + a) == j + SkipWs(w, a)
  {
    var b := SkipWs(w, a);
    SkipWsSpaces(w, a);
    forall m | j + a <= m < j + b
      ensures IsSpace(t[m])
    {
      LitAtChar(t, j, w, m - j);
    }
    LitAtChar(t, j, w, b);
    SkipWsUnique(t, j + a, j + b);
  }

  /** A maximal word inside `w`, followed by more of `w`, is a maximal word of a text
      holding `w` at `j`. */
  lemma WordIn(t: string, j: nat, w: string, b: nat, k: string)
    requires LitAt(t, j, w) && WordAt(w, b, k) && b + |k| < |w|
    ensures WordAt(t, j + b, k)
  {
    LitIn(t, j, w, b, k);
    LitAtChar(t, j, w, b + |k|);
  }

  /** A position of `w` where no match can start, short of its closing `}`, is such a
      position of a text holding `w` at `j`. */
  lemma DeadIn(t: string, j: nat, w: string, m: nat)
    requires LitAt(t, j, w) && m < |w| && Dead(w, m) && w[|w| - 1] == '}'
    ensures Dead(t, j + m)
  {
    LitAtChar(t, j, w, m);
    LitAtChar(t, j, w, |w| - 1);
    if m + 1 < |w| {
      LitAtChar(t, j, w, m + 1);
    }
    if m + 2 < |w| {
      LitAtChar(t, j, w, m + 2);
    }
  }

  lemma WordNotSpace(c: char)
    ensures IsWord(c) ==> !IsSpace(c)
  {
  }

  lemma WordAtUniqueImp(s: string, b: nat, w1: string, w2: string)
    ensures WordAt(s, b, w1) && WordAt(s, b, w2) ==> w1 == w2
  {
    if WordAt(s, b, w1) && WordAt(s, b, w2) {
      WordAtUnique(s, b, w1, w2);
    }
  }

  lemma LitAtMiddle(a: string, b: string, c: string)
    ensures LitAt(a + b + c, |a|, b)
  {
    assert (a + b + c)[|a|..|a| + |b|] == b;
  }

  /** White space skipped inside `x` is skipped the same way when `x` sits inside a
      longer string, provided what follows `x` does not start with white space. */
  lemma SkipWsInfix(pre: string, x: string, post: string, m: nat)
    requires m <= |x|
    requires post == [] || !IsSpace(post[0])
    ensures SkipWs(pre + x + post, |pre| + m) == |pre| + SkipWs(x, m)
  {
    var t := pre + x + post;
    var j := SkipWs(x, m);
    SkipWsSpaces(x, m);
    forall q | |pre| + m <= q < |pre| + j
      ensures IsSpace(t[q])
    {
      assert t[q] == x[q - |pre|];
    }
    if j < |x| {
      assert t[|pre| + j] == x[j];
    } else if post != [] {
      assert t[|pre| + j] == post[0];
    }
    SkipWsUnique(t, |pre| + m, |pre| + j);
  }

  /** A key that closes a tag is a maximal word. */
  lemma NameThenCloseWord(s: string, b: nat, k: string)
    requires b <= |s| && IsWordString(k)
    ensures NameThenClose(s, b, k).Some? ==> WordAt(s, b, k)
  {
    if NameThenClose(s, b, k).Some? {
      var c := SkipWs(s, b + |k|);
      LitAtHead(s, c, "}}");
      if c == b + |k| {
        assert s[b + |k|] == '}';
      } else {
        assert IsSpace(s[b + |k|]);
      }
    }
  }

  // ---- dead positions ----

  /** No conditional pass and no closing tag matches at a CondDead position. */
  lemma CondDeadNoMatch(s: string, m: nat, p: Pass, name: string)
    requires CondDead(s, m)
    requires p.IsConditional()
    requires |name| > 0 && name[0] == '/'
    ensures MatchAt(p, s, m).None?
    ensures CloseTagAt(s, m, name).None?
  {
    LitAtOpens(s, m);
    if OpensAt(s, m) {
      var a := SkipWs(s, m + 2);
      LitAtHead(s, a, "#if");
      LitAtHead(s, a, name);
    }
  }

  /** No pass with a word key matches at a Dead position. */
  lemma DeadNoMatch(s: string, m: nat, p: Pass)
    requires m <= |s| && Dead(s, m)
    requires p.Helper? || IsWordString(p.key)
    ensures MatchAt(p, s, m).None?
  {
    LitAtOpens(s, m);
    if OpensAt(s, m) {
      SkipWsUnique(s, m + 2, m + 2);
      LitAtHead(s, m + 2, "#if");
      LitAtHead(s, m + 2, HelperName);
      if !p.Helper? {
        LitAtHead(s, m + 2, p.key);
      }
    }
  }
}
