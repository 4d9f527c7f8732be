/** General laws of the renderer's passes: text without matches passes through,
    text without `{{` renders to itself, and the per-key folds compose. */
module RenderLaws {
  import opened Wrappers
  import opened Text
  import opened Values
  import opened Scan
  import opened Template

  /** Every match begins with `{{`. */
  lemma LitOpens(s: string, i: nat)
    requires LitAt(s, i, "{{")
    ensures OpensAt(s, i)
  {
    assert s[i] == s[i..i + 2][0] && s[i + 1] == s[i..i + 2][1];
  }

  lemma AppendAssoc<T>(a: seq<T>, b: seq<T>, c: seq<T>)
    ensures a + (b + c) == (a + b) + c
  {
  }

  lemma ConsSlice<T>(s: seq<T>, i: nat, j: nat)
    requires i < j <= |s|
    ensures [s[i]] + s[i + 1..j] == s[i..j]
  {
  }

  /** Where no match starts, one character is copied and scanning moves on. */
  lemma RewriteNoMatchStep(p: Pass, vars: Vars, s: string, i: nat)
    requires !p.Helper?
    requires i < |s| && MatchAt(p, s, i).None?
    ensures Rewrite(p, vars, s, i) == [s[i]] + Rewrite(p, vars, s, i + 1)
  {
  }

  /** A prefix without matches is copied verbatim and scanning resumes after it. */
  lemma {:induction false} RewriteSkip(p: Pass, vars: Vars, s: string, i: nat, j: nat)
    requires !p.Helper?
    requires i <= j <= |s|
    requires NoMatchIn(p, s, i, j)
    ensures Rewrite(p, vars, s, i) == s[i..j] + Rewrite(p, vars, s, j)
    decreases j - i
  {
    if i < j {
      var here := Rewrite(p, vars, s, i);
      var next := Rewrite(p, vars, s, i + 1);
      var last := Rewrite(p, vars, s, j);
      RewriteNoMatchStep(p, vars, s, i);
      assert here == [s[i]] + next;
      RewriteSkip(p, vars, s, i + 1, j);
      assert next == s[i + 1..j] + last;
      ConsSlice(s, i, j);
      AppendAssoc([s[i]], s[i + 1..j], last);
    }
  }

  /** A pass that matches nowhere returns its input unchanged. */
  lemma RewriteUnmatched(p: Pass, vars: Vars, s: string)
    requires !p.Helper?
    requires NoMatchIn(p, s, 0, |s|)
    ensures Rewrite(p, vars, s, 0) == s
  {
    RewriteSkip(p, vars, s, 0, |s|);
    assert s[0..|s|] == s;
  }

  /** Text without `{{` holds no match of any pass. */
  lemma NoOpenNoMatch(p: Pass, s: string)
    requires NoOpen(s)
    ensures NoMatchIn(p, s, 0, |s|)
  {
    forall m | 0 <= m < |s|
      ensures MatchAt(p, s, m).None?
    {
      if MatchAt(p, s, m).Some? {
        LitOpens(s, m);
      }
    }
  }

  /** No conditional pass for `k` matches anywhere in `s`. */
  predicate CondInert(s: string, k: string) {
    && NoMatchIn(IfTruthy(k), s, 0, |s|)
    && NoMatchIn(IfFalsy(k), s, 0, |s|)
    && NoMatchIn(IfEq(k), s, 0, |s|)
  }

  lemma CondInertFixed(s: string, vars: Vars, k: string)
    requires CondInert(s, k)
    ensures ConditionalsFor(s, vars, k) == s
  {
    RewriteUnmatched(IfTruthy(k), vars, s);
    RewriteUnmatched(IfFalsy(k), vars, s);
    RewriteUnmatched(IfEq(k), vars, s);
  }

  /** Folding a per-key step over a text, key by key: the shape of both `forEach` loops
      of the renderer. */
  function FoldKeys(step: (string, string) -> string, s: string, keys: seq<string>): string
    decreases |keys|
  {
    if keys == [] then s else FoldKeys(step, step(s, keys[0]), keys[1..])
  }

  /** A fold whose every step leaves the text alone returns the text. */
  lemma {:induction false} FoldFixed(step: (string, string) -> string, s: string, keys: seq<string>)
    requires forall j :: 0 <= j < |keys| ==> step(s, keys[j]) == s
    ensures FoldKeys(step, s, keys) == s
    decreases |keys|
  {
    if keys != [] {
      var rest := keys[1..];
      assert forall j :: 0 <= j < |rest| ==> rest[j] == keys[j + 1];
      FoldFixed(step, s, rest);
    }
  }

  /** A fold in which only the `i`-th step changes the text (into `s'`), and no later
      step changes `s'`, returns `s'`. */
  lemma {:induction false} FoldThrough(step: (string, string) -> string, s: string, keys: seq<string>, i: nat, s': string)
    requires i < |keys|
    requires forall j :: 0 <= j < i ==> step(s, keys[j]) == s
    requires step(s, keys[i]) == s'
    requires forall j :: i < j < |keys| ==> step(s', keys[j]) == s'
    ensures FoldKeys(step, s, keys) == s'
    decreases i
  {
    var rest := keys[1..];
    assert forall j :: 0 <= j < |rest| ==> rest[j] == keys[j + 1];
    if i == 0 {
      FoldFixed(step, s', rest);
    } else {
      FoldThrough(step, s, rest, i - 1, s');
    }
  }

  /** The conditional phase is the fold of the per-key conditional passes. */
  lemma {:induction false} ConditionalsFold(s: string, vars: Vars, keys: seq<string>)
    ensures Conditionals(s, vars, keys) == FoldKeys((t, k) => ConditionalsFor(t, vars, k), s, keys)
    decreases |keys|
  {
    if keys != [] {
      ConditionalsFold(ConditionalsFor(s, vars, keys[0]), vars, keys[1..]);
    }
  }

  /** The placeholder phase is the fold of the per-key placeholder passes. */
  lemma {:induction false} PlaceholdersFold(s: string, vars: Vars, keys: seq<string>)
    ensures Placeholders(s, vars, keys) == FoldKeys((t, k) => Rewrite(Placeholder(k), vars, t, 0), s, keys)
    decreases |keys|
  {
    if keys != [] {
      PlaceholdersFold(Rewrite(Placeholder(keys[0]), vars, s, 0), vars, keys[1..]);
    }
  }

  /** The conditional phase leaves `s` alone when no pass of any key matches in it. */
  lemma ConditionalsFixed(s: string, vars: Vars, keys: seq<string>)
    requires forall i :: 0 <= i < |keys| ==> CondInert(s, keys[i])
    ensures Conditionals(s, vars, keys) == s
  {
    var step := (t, k) => ConditionalsFor(t, vars, k);
    forall j | 0 <= j < |keys| ensures step(s, keys[j]) == s {
      CondInertFixed(s, vars, keys[j]);
    }
    FoldFixed(step, s, keys);
    ConditionalsFold(s, vars, keys);
  }

  /** The placeholder phase leaves `s` alone when no placeholder of any key matches in it. */
  lemma PlaceholdersFixed(s: string, vars: Vars, keys: seq<string>)
    requires forall i :: 0 <= i < |keys| ==> NoMatchIn(Placeholder(keys[i]), s, 0, |s|)
    ensures Placeholders(s, vars, keys) == s
  {
    var step := (t, k) => Rewrite(Placeholder(k), vars, t, 0);
    forall j | 0 <= j < |keys| ensures step(s, keys[j]) == s {
      RewriteUnmatched(Placeholder(keys[j]), vars, s);
    }
    FoldFixed(step, s, keys);
    PlaceholdersFold(s, vars, keys);
  }

  /** The helper pass leaves `s` from `i` on alone when no helper call matches there. */
  lemma {:induction false} HelperRewriteUnmatched(vars: Vars, s: string, i: nat)
    requires i <= |s| && NoMatchIn(Helper, s, i, |s|)
    ensures HelperRewrite(vars, s, i) == Ok(s[i..])
    decreases |s| - i
  {
    if i < |s| {
      assert MatchAt(Helper, s, i).None?;
      HelperRewriteUnmatched(vars, s, i + 1);
      assert s[i..] == [s[i]] + s[i + 1..];
    }
  }

  /** Text without `{{` is left alone by every pass of every key. */
  lemma NoOpenInert(s: string, vars: Vars, keys: seq<string>)
    requires NoOpen(s)
    ensures Conditionals(s, vars, keys) == s
    ensures HelperRewrite(vars, s, 0) == Ok(s)
    ensures Placeholders(s, vars, keys) == s
  {
    forall k | true
      ensures CondInert(s, k)
    {
      NoOpenNoMatch(IfTruthy(k), s);
      NoOpenNoMatch(IfFalsy(k), s);
      NoOpenNoMatch(IfEq(k), s);
    }
    forall k | true
      ensures NoMatchIn(Placeholder(k), s, 0, |s|)
    {
      NoOpenNoMatch(Placeholder(k), s);
    }
    NoOpenNoMatch(Helper, s);
    HelperRewriteUnmatched(vars, s, 0);
    assert s[0..] == s;
    ConditionalsFixed(s, vars, keys);
    PlaceholdersFixed(s, vars, keys);
  }

  /** A template containing no `{{` renders to itself, whatever the variables. */
  lemma NoOpenRendersVerbatim(t: string, vars: Vars)
    requires NoOpen(t)
    ensures Render(t, vars) == Ok(t)
  {
    NoOpenInert(t, vars, Keys(vars));
  }

  /** When only the `i`-th key's passes change `s` (into `s'`), and no later key's
      passes change `s'`, the conditional phase yields `s'`. */
  lemma ConditionalsThrough(s: string, vars: Vars, keys: seq<string>, i: nat, s': string)
    requires i < |keys|
    requires forall j :: 0 <= j < i ==> CondInert(s, keys[j])
    requires ConditionalsFor(s, vars, keys[i]) == s'
    requires forall j :: i < j < |keys| ==> CondInert(s', keys[j])
    ensures Conditionals(s, vars, keys) == s'
  {
    var step := (t, k) => ConditionalsFor(t, vars, k);
    forall j | 0 <= j < i ensures step(s, keys[j]) == s {
      CondInertFixed(s, vars, keys[j]);
    }
    forall j | i < j < |keys| ensures step(s', keys[j]) == s' {
      CondInertFixed(s', vars, keys[j]);
    }
    FoldThrough(step, s, keys, i, s');
    ConditionalsFold(s, vars, keys);
  }

  /** When only the `i`-th key's placeholder pass changes `s` (into `s'`), and no later
      key's pass changes `s'`, the placeholder phase yields `s'`. */
  lemma PlaceholdersThrough(s: string, vars: Vars, keys: seq<string>, i: nat, s': string)
    requires i < |keys|
    requires forall j :: 0 <= j < i ==> NoMatchIn(Placeholder(keys[j]), s, 0, |s|)
    requires Rewrite(Placeholder(keys[i]), vars, s, 0) == s'
    requires forall j :: i < j < |keys| ==> NoMatchIn(Placeholder(keys[j]), s', 0, |s'|)
    ensures Placeholders(s, vars, keys) == s'
  {
    var step := (t, k) => Rewrite(Placeholder(k), vars, t, 0);
    forall j | 0 <= j < i ensures step(s, keys[j]) == s {
      RewriteUnmatched(Placeholder(keys[j]), vars, s);
    }
    forall j | i < j < |keys| ensures step(s', keys[j]) == s' {
      RewriteUnmatched(Placeholder(keys[j]), vars, s');
    }
    FoldThrough(step, s, keys, i, s');
    PlaceholdersFold(s, vars, keys);
  }

  /** With only string values the helper pass never throws. */
  lemma {:induction false} HelperRewriteOk(vars: Vars, s: string, i: nat)
    requires AllStrings(vars) && i <= |s|
    ensures HelperRewrite(vars, s, i).Ok?
    decreases |s| - i
  {
    if i < |s| {
      match MatchAt(Helper, s, i)
      case None =>
        HelperRewriteOk(vars, s, i + 1);
      case Some(h) =>
        AllStringsLookup(vars, h.word);
        HelperRewriteOk(vars, s, h.end);
    }
  }

  /** The helper pass throws only at a call whose variable holds a boolean or a number. */
  lemma {:induction false} HelperRewriteErr(vars: Vars, s: string, i: nat)
    requires i <= |s|
    ensures var r := HelperRewrite(vars, s, i);
      r.Err? ==> ValueOf(vars, r.error).Bool? || ValueOf(vars, r.error).Int?
    decreases |s| - i
  {
    if i < |s| {
      match MatchAt(Helper, s, i)
      case None =>
        HelperRewriteErr(vars, s, i + 1);
      case Some(h) =>
        HelperRewriteErr(vars, s, h.end);
    }
  }

  /** A render that throws names a variable bound to a boolean or a number: only the
      helper, handed a non-string, throws. */
  lemma RenderErr(t: string, vars: Vars)
    ensures var r := Render(t, vars);
      r.Err? ==> ValueOf(vars, r.error).Bool? || ValueOf(vars, r.error).Int?
  {
    HelperRewriteErr(vars, Conditionals(t, vars, Keys(vars)), 0);
  }

  /** Rendering with a map of strings always succeeds. */
  lemma RenderStringsOk(t: string, vars: Vars)
    requires AllStrings(vars)
    ensures Render(t, vars).Ok?
  {
    HelperRewriteOk(vars, Conditionals(t, vars, Keys(vars)), 0);
  }
}
