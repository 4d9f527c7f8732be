/** What rendering does to a single helper call `{{capitalizeFirstLetter v}}` and to a
    single placeholder `{{ k }}`. */
module Tokens {
  import opened Wrappers
  import opened Text
  import opened Values
  import opened Scan
  import opened Template
  import opened RenderLaws
  import opened Blocks
  import opened BlockLaws

  /** `{{capitalizeFirstLetter v}}`. */
  function HelperToken(v: string): string {
    "{{" + HelperName + " " + v + "}}"
  }

  /** `{{ k }}` with any white space around the key. */
  function PlaceholderToken(w1: string, k: string, w2: string): string {
    "{{" + w1 + k + w2 + "}}"
  }

  predicate NoBrace(s: string) {
    forall i :: 0 <= i < |s| ==> s[i] != '{'
  }

  lemma SpaceNoBrace(w: string)
    requires AllSpace(w)
    ensures NoBrace(w)
  {
    forall i | 0 <= i < |w|
      ensures w[i] != '{'
    {
      assert IsSpace(w[i]);
    }
  }

  lemma WordStringNoBrace(w: string)
    requires IsWordString(w)
    ensures NoBrace(w)
  {
    forall i | 0 <= i < |w|
      ensures w[i] != '{'
    {
      assert IsWord(w[i]);
    }
  }

  /** Inside `{{body}}` with no `{` in the body, no `{{` starts after position 0. */
  lemma BracedDead(body: string, m: nat)
    requires NoBrace(body)
    requires 1 <= m < |body| + 4
    ensures !OpensAt("{{" + body + "}}", m)
    ensures Dead("{{" + body + "}}", m)
  {
    var t := "{{" + body + "}}";
    if m == 1 {
      if |body| > 0 {
        assert t[2] == body[0];
      } else {
        assert t[2] == '}';
      }
    } else if m < 2 + |body| {
      assert t[m] == body[m - 2];
    } else {
      assert t[m] == '}';
    }
  }

  /** `{{body}}` whose body starts with neither `#`, `/` nor white space is free of
      conditional tags. */
  lemma BracedCondFree(body: string)
    requires NoBrace(body) && |body| > 0
    requires body[0] != '#' && body[0] != '/' && !IsSpace(body[0])
    ensures CondFree("{{" + body + "}}")
  {
    var t := "{{" + body + "}}";
    assert t[2] == body[0];
    SkipWsUnique(t, 2, 2);
    forall m: nat | 1 <= m < |t|
      ensures !OpensAt(t, m) || (m + 2 < |t| && (t[m + 2] == '{' || t[m + 2] == '/'))
    {
      BracedDead(body, m);
    }
  }

  // ---- the helper call ----

  lemma HelperBody(v: string)
    requires IsWordString(v)
    ensures HelperToken(v) == "{{" + (HelperName + " " + v) + "}}"
    ensures NoBrace(HelperName + " " + v)
  {
    WordStringNoBrace(v);
    var b := HelperName + " " + v;
    forall i | 0 <= i < |b|
      ensures b[i] != '{'
    {
      if i >= 22 {
        assert b[i] == v[i - 22];
      }
    }
  }

  /** The helper pass reads a whole helper call at `j`, capturing `v`. */
  lemma HelperTokenMatch(t: string, j: nat, v: string)
    requires IsWordString(v) && LitAt(t, j, HelperToken(v))
    ensures MatchAt(Helper, t, j) == Some(Hit(j + |HelperToken(v)|, v, ""))
  {
    LitAtSplit5(t, j, "{{", HelperName, " ", v, "}}");
    HelperSplit(t, j, v);
  }

  /** The same reading from the call's five parts, each found at its own offset. */
  lemma HelperSplit(t: string, j: nat, v: string)
    requires IsWordString(v)
    requires LitAt(t, j, "{{") && LitAt(t, j + 2, HelperName) && LitAt(t, j + 23, " ")
    requires LitAt(t, j + 24, v) && LitAt(t, j + 24 + |v|, "}}")
    ensures MatchAt(Helper, t, j) == Some(Hit(j + |HelperToken(v)|, v, ""))
    ensures WordAt(t, j + 2, HelperName) && j + 24 < |t| && t[j + 23] == ' ' && IsWord(t[j + 24])
  {
    LitAtChar(t, j + 23, " ", 0);
    LitAtChar(t, j + 24, v, 0);
    WordNotSpace(v[0]);
    SkipWsUnique(t, j + 23, j + 24);
    LitAtChar(t, j + 24 + |v|, "}}", 0);
    assert WordAt(t, j + 24, v);
    WordAtIsRun(t, j + 24, v);
  }

  /** No placeholder reads the start of a helper call at `j`: the name is followed by
      the argument, not by `}}`. */
  lemma HelperTokenStartNoPlaceholder(t: string, j: nat, v: string, k: string)
    requires IsWordString(v) && IsWordString(k) && LitAt(t, j, HelperToken(v))
    ensures MatchAt(Placeholder(k), t, j).None?
  {
    LitAtSplit5(t, j, "{{", HelperName, " ", v, "}}");
    HelperSplit(t, j, v);
    WordThenArgNoPlaceholder(t, j, HelperName, k);
  }

  /** `{{name arg…` at `j`: no placeholder reads it, since a space and a word follow the
      name where a placeholder needs `}}`. */
  lemma WordThenArgNoPlaceholder(t: string, j: nat, name: string, k: string)
    requires IsWordString(k) && WordAt(t, j + 2, name) && |name| > 0 && j + 3 + |name| < |t|
    requires t[j + 2 + |name|] == ' ' && IsWord(t[j + 3 + |name|])
    ensures MatchAt(Placeholder(k), t, j).None?
  {
    var b := j + 2 + |name|;
    assert t[j + 2] == t[j + 2..b][0];
    WordNotSpace(t[j + 2]);
    SkipWsUnique(t, j + 2, j + 2);
    NameThenCloseWord(t, j + 2, k);
    WordAtUniqueImp(t, j + 2, name, k);
    WordNotSpace(t[b + 1]);
    SkipWsUnique(t, b, b + 1);
    LitAtHead(t, b + 1, "}}");
  }

  /** No placeholder matches anywhere in a helper call. */
  lemma HelperTokenNoPlaceholder(v: string, k: string)
    requires IsWordString(v) && IsWordString(k)
    ensures NoMatchIn(Placeholder(k), HelperToken(v), 0, |HelperToken(v)|)
  {
    var t := HelperToken(v);
    HelperBody(v);
    forall m | 0 <= m < |t|
      ensures MatchAt(Placeholder(k), t, m).None?
    {
      if m == 0 {
        LitAtSelf(t);
        HelperTokenStartNoPlaceholder(t, 0, v, k);
      } else {
        BracedDead(HelperName + " " + v, m);
        DeadNoMatch(t, m, Placeholder(k));
      }
    }
  }

  lemma HelperRewriteAtEnd(vars: Vars, t: string)
    ensures HelperRewrite(vars, t, |t|) == Ok("")
  {
  }

  /** The helper pass over text that is one whole helper call. */
  lemma HelperRewriteWhole(vars: Vars, t: string, v: string)
    requires MatchAt(Helper, t, 0) == Some(Hit(|t|, v, ""))
    ensures var x := ValueOf(vars, v);
      HelperRewrite(vars, t, 0)
      == if x.Bool? || x.Int? then Err(v) else Ok(if x.Str? then Capitalize(x.s) else t)
  {
    var x := ValueOf(vars, v);
    HelperRewriteAtEnd(vars, t);
    if !x.Bool? && !x.Int? {
      var out := if x.Str? then Capitalize(x.s) else t[0..|t|];
      assert out + "" == out;
      assert HelperRewrite(vars, t, 0) == Ok(out + "");
      assert t[0..|t|] == t;
    }
  }

  /** `{{capitalizeFirstLetter v}}` renders to the capitalised value of `v` when it is a
      string, stays verbatim when `v` is undefined (absent from the map, and not a name
      every object inherits), and throws when the value is a boolean or a number. */
  lemma HelperTokenRenders(v: string, vars: Vars)
    requires ValidVars(vars) && IsWordString(v)
    ensures ValueOf(vars, v).Bool? || ValueOf(vars, v).Int? ==> Render(HelperToken(v), vars) == Err(v)
    ensures ValueOf(vars, v).Undefined? && (v in Keys(vars) || !Inherited(v))
        ==> Render(HelperToken(v), vars) == Ok(HelperToken(v))
    ensures ValueOf(vars, v).Str? && NoOpen(ValueOf(vars, v).s)
        ==> Render(HelperToken(v), vars) == Ok(Capitalize(ValueOf(vars, v).s))
  {
    var t := HelperToken(v);
    var ks := Keys(vars);
    HelperBody(v);
    assert (HelperName + " " + v)[0] == 'c';
    BracedCondFree(HelperName + " " + v);
    CondFreeConditionals(t, vars);
    LitAtSelf(t);
    HelperTokenMatch(t, 0, v);
    HelperRewriteWhole(vars, t, v);
    var x := ValueOf(vars, v);
    if x.Undefined? {
      forall j | 0 <= j < |ks|
        ensures NoMatchIn(Placeholder(ks[j]), t, 0, |t|)
      {
        HelperTokenNoPlaceholder(v, ks[j]);
      }
      PlaceholdersFixed(t, vars, ks);
    } else if x.Str? && NoOpen(x.s) {
      CapitalizeKeepsNoOpen(x.s);
      NoOpenInert(Capitalize(x.s), vars, ks);
    }
  }

  // ---- the placeholder ----

  lemma PlaceholderBody(w1: string, k: string, w2: string)
    requires AllSpace(w1) && IsWordString(k) && AllSpace(w2)
    ensures PlaceholderToken(w1, k, w2) == "{{" + (w1 + k + w2) + "}}"
    ensures NoBrace(w1 + k + w2)
  {
    SpaceNoBrace(w1);
    WordStringNoBrace(k);
    SpaceNoBrace(w2);
    var body := w1 + k + w2;
    forall i | 0 <= i < |body|
      ensures body[i] != '{'
    {
      if i < |w1| {
        assert body[i] == w1[i];
      } else if i < |w1| + |k| {
        assert body[i] == k[i - |w1|];
      } else {
        assert body[i] == w2[i - |w1| - |k|];
      }
    }
  }

  /** The white space before the key is skipped up to the key, which is a whole word. */
  lemma PlaceholderLead(w1: string, k: string, w2: string)
    requires AllSpace(w1) && IsWordString(k) && AllSpace(w2)
    ensures LitAt(PlaceholderToken(w1, k, w2), 0, "{{")
    ensures SkipWs(PlaceholderToken(w1, k, w2), 2) == 2 + |w1|
    ensures WordAt(PlaceholderToken(w1, k, w2), 2 + |w1|, k)
    ensures |w1| > 0 ==> IsSpace(PlaceholderToken(w1, k, w2)[2])
  {
    var t := PlaceholderToken(w1, k, w2);
    assert t[0..2] == "{{";
    forall q | 2 <= q < 2 + |w1|
      ensures IsSpace(t[q])
    {
      assert t[q] == w1[q - 2];
    }
    assert t[2 + |w1|] == k[0];
    WordNotSpace(k[0]);
    SkipWsUnique(t, 2, 2 + |w1|);
    assert t[2 + |w1|..2 + |w1| + |k|] == k;
    if |w2| > 0 {
      assert t[2 + |w1| + |k|] == w2[0];
    } else {
      assert t[2 + |w1| + |k|] == '}';
    }
  }

  /** The white space after the key is skipped up to the closing `}}`. */
  lemma PlaceholderTrail(w1: string, k: string, w2: string)
    requires AllSpace(w2)
    ensures SkipWs(PlaceholderToken(w1, k, w2), 2 + |w1| + |k|) == |PlaceholderToken(w1, k, w2)| - 2
    ensures LitAt(PlaceholderToken(w1, k, w2), |PlaceholderToken(w1, k, w2)| - 2, "}}")
  {
    var t := PlaceholderToken(w1, k, w2);
    var n := |t|;
    forall q | 2 + |w1| + |k| <= q < n - 2
      ensures IsSpace(t[q])
    {
      assert t[q] == w2[q - 2 - |w1| - |k|];
    }
    assert t[n - 2] == '}';
    SkipWsUnique(t, 2 + |w1| + |k|, n - 2);
    assert t[n - 2..n] == "}}";
  }

  /** The facts about `{{ k }}` the scanners rely on. */
  lemma PlaceholderShape(w1: string, k: string, w2: string)
    requires AllSpace(w1) && IsWordString(k) && AllSpace(w2)
    ensures PlaceholderToken(w1, k, w2) == "{{" + (w1 + k + w2) + "}}"
    ensures NoBrace(w1 + k + w2)
    ensures LitAt(PlaceholderToken(w1, k, w2), 0, "{{")
    ensures SkipWs(PlaceholderToken(w1, k, w2), 2) == 2 + |w1|
    ensures WordAt(PlaceholderToken(w1, k, w2), 2 + |w1|, k)
    ensures SkipWs(PlaceholderToken(w1, k, w2), 2 + |w1| + |k|) == |PlaceholderToken(w1, k, w2)| - 2
    ensures LitAt(PlaceholderToken(w1, k, w2), |PlaceholderToken(w1, k, w2)| - 2, "}}")
  {
    PlaceholderBody(w1, k, w2);
    PlaceholderLead(w1, k, w2);
    PlaceholderTrail(w1, k, w2);
  }

  /** At `j` of a text holding `{{ k }}` there, the placeholder pass of `k` reads the
      whole token; no other key's pass reads it. */
  lemma PlaceholderMatch(t: string, j: nat, w1: string, k: string, w2: string, k': string)
    requires AllSpace(w1) && IsWordString(k) && AllSpace(w2) && IsWordString(k')
    requires LitAt(t, j, PlaceholderToken(w1, k, w2))
    ensures MatchAt(Placeholder(k'), t, j)
         == (if k' == k then Some(Hit(j + |PlaceholderToken(w1, k, w2)|, "", "")) else None)
  {
    var e := j + |PlaceholderToken(w1, k, w2)|;
    PlaceholderAt(t, j, w1, k, w2);
    PlaceholderAtWord(t, j, j + 2 + |w1|, k, k', e);
  }

  /** The scanners' view of `{{ k }}` held at `j`. */
  lemma PlaceholderAt(t: string, j: nat, w1: string, k: string, w2: string)
    requires AllSpace(w1) && IsWordString(k) && AllSpace(w2)
    requires LitAt(t, j, PlaceholderToken(w1, k, w2))
    ensures var e := j + |PlaceholderToken(w1, k, w2)|;
      && LitAt(t, j, "{{") && SkipWs(t, j + 2) == j + 2 + |w1| && WordAt(t, j + 2 + |w1|, k)
      && 2 <= e <= |t| && SkipWs(t, j + 2 + |w1| + |k|) == e - 2 && LitAt(t, e - 2, "}}")
  {
    LitAtSplit5(t, j, "{{", w1, k, w2, "}}");
    PlaceholderSpaces(t, j, w1, k, w2);
    PlaceholderSplit(t, j, w1, k, w2);
  }

  /** The same reading from the token's parts: its two white-space runs as runs, the
      rest as literals found at their offsets. */
  lemma PlaceholderSplit(t: string, j: nat, w1: string, k: string, w2: string)
    requires IsWordString(k)
    requires LitAt(t, j, "{{") && Spaces(t, j + 2, j + 2 + |w1|) && LitAt(t, j + 2 + |w1|, k)
    requires Spaces(t, j + 2 + |w1| + |k|, j + 2 + |w1| + |k| + |w2|)
    requires LitAt(t, j + 2 + |w1| + |k| + |w2|, "}}")
    ensures var e := j + |PlaceholderToken(w1, k, w2)|;
      && SkipWs(t, j + 2) == j + 2 + |w1| && WordAt(t, j + 2 + |w1|, k)
      && 2 <= e <= |t| && SkipWs(t, j + 2 + |w1| + |k|) == e - 2 && LitAt(t, e - 2, "}}")
  {
    var b := j + 2 + |w1|;
    var d := b + |k|;
    PlaceholderParts(t, j + 2, b, k, d, d + |w2|);
  }

  /** The token's two white-space runs. */
  lemma PlaceholderSpaces(t: string, j: nat, w1: string, k: string, w2: string)
    requires AllSpace(w1) && AllSpace(w2)
    requires LitAt(t, j + 2, w1) && LitAt(t, j + 2 + |w1| + |k|, w2)
    ensures Spaces(t, j + 2, j + 2 + |w1|) && Spaces(t, j + 2 + |w1| + |k|, j + 2 + |w1| + |k| + |w2|)
  {
    SpacesAt(t, j + 2, w1);
    SpacesAt(t, j + 2 + |w1| + |k|, w2);
  }

  /** White space from `a` to `b`, then the word `k`, white space up to `e` and `}}`. */
  lemma PlaceholderParts(t: string, a: nat, b: nat, k: string, d: nat, e: nat)
    requires IsWordString(k) && b + |k| == d && a <= b && d <= e
    requires Spaces(t, a, b) && LitAt(t, b, k) && Spaces(t, d, e) && LitAt(t, e, "}}")
    ensures SkipWs(t, a) == b && WordAt(t, b, k) && SkipWs(t, d) == e
  {
    LitAtChar(t, b, k, 0);
    WordNotSpace(k[0]);
    SkipWsUnique(t, a, b);
    LitAtChar(t, e, "}}", 0);
    SkipWsUnique(t, d, e);
    WordNotSpace(t[d]);
  }

  /** A placeholder pass at a `{{`, white space, the word `k` and white space up to the
      `}}` ending at `e`: only the pass of `k` reads it, up to `e`. */
  lemma PlaceholderAtWord(t: string, j: nat, b: nat, k: string, k': string, e: nat)
    requires LitAt(t, j, "{{") && SkipWs(t, j + 2) == b && WordAt(t, b, k) && IsWordString(k')
    requires 2 <= e <= |t| && SkipWs(t, b + |k|) == e - 2 && LitAt(t, e - 2, "}}")
    ensures MatchAt(Placeholder(k'), t, j) == (if k' == k then Some(Hit(e, "", "")) else None)
  {
    NameThenCloseWord(t, b, k');
    WordAtUniqueImp(t, b, k, k');
  }

  lemma LitAtCharImp(s: string, i: nat, lit: string, j: nat)
    ensures j < |lit| && LitAt(s, i, lit) ==> i + j < |s| && s[i + j] == lit[j]
  {
    if j < |lit| {
      LitAtChar(s, i, lit, j);
    }
  }

  /** The helper's name is all letters. */
  lemma HelperNameLetters(j: nat)
    ensures j < |HelperName| ==> IsWord(HelperName[j]) && !IsSpace(HelperName[j]) && HelperName[j] != '}'
  {
  }

  /** The helper pass never reads a placeholder, even one whose key starts with the
      helper's name: `\s+(\w+)` cannot follow inside `{{ k }}`. */
  lemma PlaceholderNoHelper(t: string, j: nat, w1: string, k: string, w2: string)
    requires AllSpace(w1) && IsWordString(k) && AllSpace(w2)
    requires LitAt(t, j, PlaceholderToken(w1, k, w2))
    ensures MatchAt(Helper, t, j).None?
  {
    PlaceholderAt(t, j, w1, k, w2);
    WordThenCloseNoHelper(t, j, j + 2 + |w1|, k, j + |PlaceholderToken(w1, k, w2)|);
  }

  /** `{{`, white space, a word `k` at `b`, white space and `}}` ending at `e`: the
      helper pass finds no `\s+(\w+)` after its name there. */
  lemma WordThenCloseNoHelper(t: string, j: nat, b: nat, k: string, e: nat)
    requires 2 <= e <= |t| && j + 2 <= b <= e - 2 && SkipWs(t, j + 2) == b && WordAt(t, b, k)
    requires SkipWs(t, b + |k|) == e - 2 && LitAt(t, e - 2, "}}")
    ensures MatchAt(Helper, t, j).None?
  {
    if LitAt(t, j + 2, HelperName) {
      HelperNameKey(t, j, b, k);
      var c := j + 2 + |HelperName|;
      if |k| > |HelperName| {
        LongKeyNoSpace(t, j, k);
        assert SkipWs(t, c) == c;
      } else {
        LitAtChar(t, e - 2, "}}", 0);
        SkipWordUnique(t, e - 2, e - 2);
        assert SkipWs(t, c) == e - 2 && SkipWord(t, e - 2) == e - 2;
      }
    }
  }

  /** A word read right after `{{` that starts with the helper's name holds all of it. */
  lemma HelperNameKey(t: string, j: nat, b: nat, k: string)
    requires j + 2 <= |t| && SkipWs(t, j + 2) == b && WordAt(t, b, k) && LitAt(t, j + 2, HelperName)
    ensures b == j + 2 && |k| >= |HelperName|
  {
    LitAtChar(t, j + 2, HelperName, 0);
    HelperNameLetters(0);
    SkipWsUnique(t, j + 2, j + 2);
    LitAtCharImp(t, j + 2, HelperName, |k|);
    HelperNameLetters(|k|);
  }

  /** A word longer than the helper's name leaves no white space after the name. */
  lemma LongKeyNoSpace(t: string, j: nat, k: string)
    requires IsWordString(k) && |k| > |HelperName| && LitAt(t, j + 2, k)
    ensures SkipWs(t, j + 2 + |HelperName|) == j + 2 + |HelperName|
  {
    LitAtChar(t, j + 2, k, |HelperName|);
    WordNotSpace(k[|HelperName|]);
    SkipWsUnique(t, j + 2 + |HelperName|, j + 2 + |HelperName|);
  }


  /** A placeholder token is free of conditional tags. */
  lemma PlaceholderCondFree(w1: string, k: string, w2: string)
    requires AllSpace(w1) && IsWordString(k) && AllSpace(w2)
    ensures CondFree(PlaceholderToken(w1, k, w2))
  {
    var t := PlaceholderToken(w1, k, w2);
    PlaceholderShape(w1, k, w2);
    LitAtChar(t, 2 + |w1|, k, 0);
    assert IsWord(k[0]);
    forall m: nat | 1 <= m < |t|
      ensures !OpensAt(t, m)
    {
      BracedDead(w1 + k + w2, m);
    }
  }

  /** The helper pass leaves a placeholder token alone. */
  lemma PlaceholderHelperPass(w1: string, k: string, w2: string, vars: Vars)
    requires AllSpace(w1) && IsWordString(k) && AllSpace(w2)
    ensures HelperRewrite(vars, PlaceholderToken(w1, k, w2), 0) == Ok(PlaceholderToken(w1, k, w2))
  {
    var t := PlaceholderToken(w1, k, w2);
    PlaceholderShape(w1, k, w2);
    forall m | 0 <= m < |t|
      ensures MatchAt(Helper, t, m).None?
    {
      if m == 0 {
        LitAtSelf(t);
        PlaceholderNoHelper(t, 0, w1, k, w2);
      } else {
        BracedDead(w1 + k + w2, m);
        DeadNoMatch(t, m, Helper);
      }
    }
    HelperRewriteUnmatched(vars, t, 0);
    assert t[0..] == t;
  }

  /** No other key's placeholder pass matches anywhere in the token. */
  lemma PlaceholderOtherKey(w1: string, k: string, w2: string, k': string)
    requires AllSpace(w1) && IsWordString(k) && AllSpace(w2) && IsWordString(k') && k' != k
    ensures NoMatchIn(Placeholder(k'), PlaceholderToken(w1, k, w2), 0, |PlaceholderToken(w1, k, w2)|)
  {
    var t := PlaceholderToken(w1, k, w2);
    PlaceholderShape(w1, k, w2);
    forall m | 0 <= m < |t|
      ensures MatchAt(Placeholder(k'), t, m).None?
    {
      if m == 0 {
        LitAtSelf(t);
        PlaceholderMatch(t, 0, w1, k, w2, k');
      } else {
        BracedDead(w1 + k + w2, m);
        DeadNoMatch(t, m, Placeholder(k'));
      }
    }
  }

  /** The key's own placeholder pass replaces the token by the value's string form. */
  lemma PlaceholderOwnKey(w1: string, k: string, w2: string, vars: Vars)
    requires AllSpace(w1) && IsWordString(k) && AllSpace(w2)
    ensures Rewrite(Placeholder(k), vars, PlaceholderToken(w1, k, w2), 0) == ToStringForm(ValueOf(vars, k))
  {
    var t := PlaceholderToken(w1, k, w2);
    var val := ToStringForm(ValueOf(vars, k));
    LitAtSelf(t);
    PlaceholderMatch(t, 0, w1, k, w2, k);
    assert Rewrite(Placeholder(k), vars, t, |t|) == "";
    assert val + "" == val;
  }

  /** `{{ k }}` renders to the string form of `vars[k]` (`""` for an empty or undefined
      value) when `k` is a key, and stays verbatim when it is not. */
  lemma PlaceholderRenders(w1: string, k: string, w2: string, vars: Vars)
    requires ValidVars(vars) && AllSpace(w1) && IsWordString(k) && AllSpace(w2)
    ensures k in Keys(vars) && NoOpen(ToStringForm(ValueOf(vars, k)))
        ==> Render(PlaceholderToken(w1, k, w2), vars) == Ok(ToStringForm(ValueOf(vars, k)))
    ensures k !in Keys(vars) ==> Render(PlaceholderToken(w1, k, w2), vars) == Ok(PlaceholderToken(w1, k, w2))
  {
    var t := PlaceholderToken(w1, k, w2);
    var ks := Keys(vars);
    var val := ToStringForm(ValueOf(vars, k));
    PlaceholderCondFree(w1, k, w2);
    CondFreeConditionals(t, vars);
    PlaceholderHelperPass(w1, k, w2, vars);
    if k in ks {
      if NoOpen(val) {
        var i :| 0 <= i < |ks| && ks[i] == k;
        forall j | 0 <= j < i
          ensures NoMatchIn(Placeholder(ks[j]), t, 0, |t|)
        {
          PlaceholderOtherKey(w1, k, w2, ks[j]);
        }
        PlaceholderOwnKey(w1, k, w2, vars);
        forall j | i < j < |ks|
          ensures NoMatchIn(Placeholder(ks[j]), val, 0, |val|)
        {
          NoOpenNoMatch(Placeholder(ks[j]), val);
        }
        PlaceholdersThrough(t, vars, ks, i, val);
      }
    } else {
      forall j | 0 <= j < |ks|
        ensures NoMatchIn(Placeholder(ks[j]), t, 0, |t|)
      {
        PlaceholderOtherKey(w1, k, w2, ks[j]);
      }
      PlaceholdersFixed(t, vars, ks);
    }
  }

  /** Conditionals run before placeholders: a placeholder inside a kept `#if` block is
      still substituted, and one inside a dropped block disappears with it. */
  lemma PlaceholderInsideBlock(k: string, j: string, vars: Vars)
    requires ValidVars(vars) && IsWordString(k) && IsWordString(j)
    requires k in Keys(vars) && j in Keys(vars)
    requires NoOpen(ToStringForm(ValueOf(vars, j)))
    ensures Render(BlockText(When(k), PlaceholderToken(" ", j, " ")), vars)
         == Ok(if Truthy(ValueOf(vars, k)) then ToStringForm(ValueOf(vars, j)) else "")
  {
    var x := PlaceholderToken(" ", j, " ");
    assert AllSpace(" ") by {
      assert IsSpace(' ');
    }
    PlaceholderCondFree(" ", j, " ");
    BlockRenders(When(k), x, vars);
    PlaceholderRenders(" ", j, " ", vars);
    NoOpenRendersVerbatim("", vars);
  }
}
