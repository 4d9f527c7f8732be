/** Hand-written scanners for the token shapes the template renderer's regular
    expressions recognise. Each scanner tries to match at one position, the way a
    global JavaScript regex is tried at successive positions.

    Every `\s*`, `\s+` and `\w+` in those expressions is followed by a character
    outside its own class (`#`, `!`, `=`, `}` or a key's first word character), so
    the greedy run is the only one that can lead to a match, and scanning greedily
    without backtracking finds exactly the regex's matches. */
module Scan {
  import opened Wrappers
  import opened Text

  /** One rewriting pass of the renderer. The conditional passes and the
      placeholder pass are instantiated per key; the helper pass is not. */
  datatype Pass =
    | IfTruthy(key: string)   // {{#if key}}…{{/if}}
    | IfFalsy(key: string)    // {{#if !key}}…{{/if}}
    | IfEq(key: string)       // {{#if_eq key = word}}…{{/if_eq}}
    | Helper                  // {{capitalizeFirstLetter word}}
    | Placeholder(key: string) // {{ key }}
  {
    predicate IsConditional() {
      IfTruthy? || IfFalsy? || IfEq?
    }
  }

  /** A match: where it ends, the captured word (the `if_eq` literal or the
      helper's argument) and the block content (for conditional blocks). */
  datatype Hit = Hit(end: nat, word: string, content: string)

  const HelperName: string := "capitalizeFirstLetter"
  const CloseIf: string := "/if"
  const CloseIfEq: string := "/if_eq"

  /** `NAME\s*}}` at `b`: the end of the tag when it closes there. */
  function NameThenClose(s: string, b: nat, name: string): (r: Option<nat>)
    requires b <= |s|
    ensures r.Some? ==> LitAt(s, b, name) && b + |name| + 2 <= r.value <= |s|
    ensures r.Some? ==> LitAt(s, r.value - 2, "}}")
    ensures r.Some? ==> r.value == SkipWs(s, b + |name|) + 2
  {
    if !LitAt(s, b, name) then None
    else
      var c := SkipWs(s, b + |name|);
      if LitAt(s, c, "}}") then Some(c + 2) else None
  }

  /** `{{\s*NAME\s*}}` at `j`: a closing tag such as `{{/if}}`. */
  function CloseTagAt(s: string, j: nat, name: string): (r: Option<nat>)
    requires j <= |s|
    ensures r.Some? ==> LitAt(s, j, "{{") && j + 4 + |name| <= r.value <= |s|
    ensures r.Some? ==> LitAt(s, SkipWs(s, j + 2), name)
  {
    if !LitAt(s, j, "{{") then None else NameThenClose(s, SkipWs(s, j + 2), name)
  }

  /** The lazy `[\s\S]*?` followed by a closing tag: the FIRST closing tag at or after `j`,
      as (start, end). */
  function FindClose(s: string, j: nat, name: string): (r: Option<(nat, nat)>)
    requires j <= |s|
    ensures r.Some? ==> j <= r.value.0 < r.value.1 <= |s|
    decreases |s| - j
  {
    if j == |s| then None
    else match CloseTagAt(s, j, name)
      case Some(e) => Some((j, e))
      case None => FindClose(s, j + 1, name)
  }

  /** A position where no closing tag starts is passed over. */
  lemma FindCloseStep(s: string, j: nat, name: string)
    requires j < |s| && CloseTagAt(s, j, name).None?
    ensures FindClose(s, j, name) == FindClose(s, j + 1, name)
  {
  }

  /** No closing tag starts in `[a, b)`. */
  predicate NoCloseIn(s: string, name: string, a: nat, b: nat)
    requires b <= |s| + 1
  {
    forall m :: a <= m < b ==> CloseTagAt(s, m, name).None?
  }

  /** The search finds a closing tag, and none starts before it. */
  lemma {:induction false} FindCloseFirst(s: string, j: nat, name: string)
    requires j <= |s| && FindClose(s, j, name).Some?
    ensures CloseTagAt(s, FindClose(s, j, name).value.0, name) == Some(FindClose(s, j, name).value.1)
    ensures NoCloseIn(s, name, j, FindClose(s, j, name).value.0)
    decreases |s| - j
  {
    var r := FindClose(s, j, name).value;
    if CloseTagAt(s, j, name).None? {
      FindCloseStep(s, j, name);
      FindCloseFirst(s, j + 1, name);
      forall m | j <= m < r.0
        ensures CloseTagAt(s, m, name).None?
      {
        if m > j {
          assert j + 1 <= m < FindClose(s, j + 1, name).value.0;
        }
      }
    }
  }

  /** The search fails only when no closing tag starts at or after `j`. */
  lemma {:induction false} FindCloseNone(s: string, j: nat, name: string)
    requires j <= |s| && FindClose(s, j, name).None?
    ensures NoCloseIn(s, name, j, |s| + 1)
    decreases |s| - j
  {
    if j < |s| {
      FindCloseStep(s, j, name);
      FindCloseNone(s, j + 1, name);
      forall m | j <= m < |s| + 1
        ensures CloseTagAt(s, m, name).None?
      {
        if m > j {
          assert j + 1 <= m < |s| + 1;
        }
      }
    }
  }

  /** `{{\s*#if\s+KEY\s*}}`, or `{{\s*#if\s+!KEY\s*}}` when `negated`: the end of the opening tag. */
  function IfOpenAt(s: string, i: nat, negated: bool, k: string): (r: Option<nat>)
    requires i <= |s|
    ensures r.Some? ==> LitAt(s, i, "{{") && LitAt(s, SkipWs(s, i + 2), "#if")
    ensures r.Some? ==> i + 6 + |k| <= r.value <= |s|
  {
    if !LitAt(s, i, "{{") then None
    else
      var a := SkipWs(s, i + 2);
      if !LitAt(s, a, "#if") then None
      else
        var b := SkipWs(s, a + 3);
        if b == a + 3 then None
        else if !negated then NameThenClose(s, b, k)
        else if LitAt(s, b, "!") then NameThenClose(s, b + 1, k)
        else None
  }

  /** `\s+=\s+(\w+)\s*}}` from `c0`, the tail of an `if_eq` opening tag after its key:
      the end of the tag and the captured word. */
  function EqTail(s: string, c0: nat): (r: Option<(nat, string)>)
    requires c0 <= |s|
    ensures r.Some? ==> c0 + 6 <= r.value.0 <= |s| && IsWordString(r.value.1)
  {
    var c := SkipWs(s, c0);
    if c == c0 || !LitAt(s, c, "=") then None
    else
      var d := SkipWs(s, c + 1);
      var e := SkipWord(s, d);
      if d == c + 1 || e == d then None
      else
        var f := SkipWs(s, e);
        if !LitAt(s, f, "}}") then None
        else
          SkipWordChars(s, d);
          Some((f + 2, s[d..e]))
  }

  /** `{{\s*#if_eq\s+KEY\s+=\s+(\w+)\s*}}`: the end of the opening tag and the captured word. */
  function IfEqOpenAt(s: string, i: nat, k: string): (r: Option<(nat, string)>)
    requires i <= |s|
    ensures r.Some? ==> LitAt(s, i, "{{") && LitAt(s, SkipWs(s, i + 2), "#if_eq")
    ensures r.Some? ==> i + 12 + |k| <= r.value.0 <= |s| && IsWordString(r.value.1)
  {
    if !LitAt(s, i, "{{") then None
    else
      var a := SkipWs(s, i + 2);
      if !LitAt(s, a, "#if_eq") then None
      else
        var b := SkipWs(s, a + 6);
        if b == a + 6 || !LitAt(s, b, k) then None
        else EqTail(s, b + |k|)
  }

  /** An `#if_eq` tag also starts with `#if`. */
  lemma IfEqStartsWithIf(s: string, a: nat)
    requires LitAt(s, a, "#if_eq")
    ensures LitAt(s, a, "#if")
  {
    assert s[a..a + 3] == s[a..a + 6][..3];
  }

  /** `{{capitalizeFirstLetter\s+(\w+)}}`: the end of the token and the captured word. */
  function HelperAt(s: string, i: nat): (r: Option<(nat, string)>)
    requires i <= |s|
    ensures r.Some? ==> LitAt(s, i, "{{") && LitAt(s, i + 2, HelperName)
    ensures r.Some? ==> i < r.value.0 <= |s| && IsWordString(r.value.1)
  {
    if !LitAt(s, i, "{{") || !LitAt(s, i + 2, HelperName) then None
    else
      var b := SkipWs(s, i + 2 + |HelperName|);
      var e := SkipWord(s, b);
      if b == i + 2 + |HelperName| || e == b || !LitAt(s, e, "}}") then None
      else
        SkipWordChars(s, b);
        Some((e + 2, s[b..e]))
  }

  /** A conditional block: an opening tag ending at `q`, then content up to the
      first closing tag named `name`. */
  function BlockFrom(s: string, q: nat, name: string, word: string): (r: Option<Hit>)
    requires q <= |s|
    ensures r.Some? ==> q < r.value.end <= |s|
    ensures r.Some? ==> r.value.word == word
  {
    match FindClose(s, q, name)
    case None => None
    case Some((j, e)) => Some(Hit(e, word, s[q..j]))
  }

  /** `{{#if KEY}}…{{/if}}` (or the negated form) at `i`. */
  function IfBlockAt(s: string, i: nat, negated: bool, k: string): (r: Option<Hit>)
    requires i <= |s|
    ensures r.Some? ==> i < r.value.end <= |s|
    ensures r.Some? ==> LitAt(s, i, "{{") && LitAt(s, SkipWs(s, i + 2), "#if")
  {
    match IfOpenAt(s, i, negated, k)
    case None => None
    case Some(q) => BlockFrom(s, q, CloseIf, "")
  }

  /** `{{#if_eq KEY = word}}…{{/if_eq}}` at `i`. */
  function IfEqBlockAt(s: string, i: nat, k: string): (r: Option<Hit>)
    requires i <= |s|
    ensures r.Some? ==> i < r.value.end <= |s|
    ensures r.Some? ==> LitAt(s, i, "{{") && LitAt(s, SkipWs(s, i + 2), "#if")
  {
    match IfEqOpenAt(s, i, k)
    case None => None
    case Some((q, w)) =>
      IfEqStartsWithIf(s, SkipWs(s, i + 2));
      BlockFrom(s, q, CloseIfEq, w)
  }

  /** `{{\s*KEY\s*}}` at `i`. */
  function PlaceholderAt(s: string, i: nat, k: string): (r: Option<Hit>)
    requires i <= |s|
    ensures r.Some? ==> i < r.value.end <= |s|
    ensures r.Some? ==> LitAt(s, i, "{{") && LitAt(s, SkipWs(s, i + 2), k)
  {
    if !LitAt(s, i, "{{") then None
    else
      match NameThenClose(s, SkipWs(s, i + 2), k)
      case None => None
      case Some(e) => Some(Hit(e, "", ""))
  }

  /** Tries pass `p` at position `i` of `s`. */
  function MatchAt(p: Pass, s: string, i: nat): (r: Option<Hit>)
    requires i <= |s|
    ensures r.Some? ==> i < r.value.end <= |s|
    ensures r.Some? ==> LitAt(s, i, "{{")
    ensures r.Some? && p.IsConditional() ==> LitAt(s, SkipWs(s, i + 2), "#if")
    ensures r.Some? && p.Helper? ==> LitAt(s, i + 2, HelperName)
    ensures r.Some? && p.Placeholder? ==> LitAt(s, SkipWs(s, i + 2), p.key)
  {
    match p
    case IfTruthy(k) => IfBlockAt(s, i, false, k)
    case IfFalsy(k) => IfBlockAt(s, i, true, k)
    case IfEq(k) => IfEqBlockAt(s, i, k)
    case Helper =>
      (match HelperAt(s, i)
       case None => None
       case Some((e, w)) => Some(Hit(e, w, "")))
    case Placeholder(k) => PlaceholderAt(s, i, k)
  }
}
