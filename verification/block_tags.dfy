/** How the scanners read the opening and closing tags of a block written in its
    plainest form. */
module BlockTags {
  import opened Wrappers
  import opened Text
  import opened Values
  import opened Scan
  import opened Blocks

  /** `{{` followed by `#if` at `j`. */
  lemma OpenPrefix(t: string, j: nat, o: string)
    requires LitAt(t, j, o) && |o| >= 6 && o[..5] == "{{#if"
    ensures LitAt(t, j, "{{") && SkipWs(t, j + 2) == j + 2 && LitAt(t, j + 2, "#if")
    ensures j + 6 <= |t| && t[j + 5] == o[5]
  {
    LitAtSub(t, j, o, 0, 2);
    assert o[0..2] == "{{";
    LitAtSub(t, j, o, 2, 5);
    assert o[2..5] == "#if";
    LitAtChar(t, j, o, 2);
    SkipWsUnique(t, j + 2, j + 2);
    LitAtChar(t, j, o, 5);
  }

  /** The word `k` at `b`, closed by `}}` right after it: only `k` reads there. */
  lemma KeyCloseAt(t: string, b: nat, k: string, k': string)
    requires IsWordString(k) && IsWordString(k')
    requires LitAt(t, b, k) && LitAt(t, b + |k|, "}}")
    ensures NameThenClose(t, b, k') == (if k' == k then Some(b + |k| + 2) else None)
  {
    LitAtChar(t, b + |k|, "}}", 0);
    SkipWsUnique(t, b + |k|, b + |k|);
    WordAtUniqueImp(t, b, k, k');
    NameThenCloseWord(t, b, k');
  }

  /** White space at `a`, then a word at `a + 1`: the skip stops at the word. */
  lemma SpaceThenWordAt(t: string, a: nat, k: string)
    requires IsWordString(k) && a < |t| && IsSpace(t[a]) && LitAt(t, a + 1, k)
    ensures SkipWs(t, a) == a + 1
  {
    LitAtChar(t, a + 1, k, 0);
    WordNotSpace(k[0]);
    SkipWsUnique(t, a, a + 1);
  }

  /** The length of each opening tag. */
  lemma OpenTagLength(c: Cond)
    ensures |OpenTag(c)| == match c
      case When(k) => 8 + |k|
      case Unless(k) => 9 + |k|
      case WhenEq(k, w) => 14 + |k| + |w|
  {
  }

  /** Reading `{{#if k}}` at `j`: only the plain pass for `k` opens there. */
  lemma WhenOpener(t: string, j: nat, k: string, k': string)
    requires IsWordString(k) && IsWordString(k')
    requires LitAt(t, j, OpenTag(When(k)))
    ensures IfOpenAt(t, j, false, k') == (if k' == k then Some(j + |OpenTag(When(k))|) else None)
    ensures IfOpenAt(t, j, true, k').None?
    ensures IfEqOpenAt(t, j, k').None?
  {
    OpenTagLength(When(k));
    LitAtSplit3(t, j, "{{#if ", k, "}}");
    OpenPrefix(t, j, "{{#if ");
    SpaceThenWordAt(t, j + 5, k);
    KeyCloseAt(t, j + 6, k, k');
    LitAtChar(t, j + 6, k, 0);
    IfRead(t, j, false, k', if k' == k then Some(j + |OpenTag(When(k))|) else None);
  }

  /** Reading `{{#if !k}}` at `j`: only the negated pass for `k` opens there. */
  lemma UnlessOpener(t: string, j: nat, k: string, k': string)
    requires IsWordString(k) && IsWordString(k')
    requires LitAt(t, j, OpenTag(Unless(k)))
    ensures IfOpenAt(t, j, true, k') == (if k' == k then Some(j + |OpenTag(Unless(k))|) else None)
    ensures IfOpenAt(t, j, false, k').None?
    ensures IfEqOpenAt(t, j, k').None?
  {
    var h := "{{#if !";
    OpenTagLength(Unless(k));
    LitAtSplit3(t, j, h, k, "}}");
    OpenPrefix(t, j, h);
    LitAtChar(t, j, h, 6);
    SkipWsUnique(t, j + 5, j + 6);
    KeyCloseAt(t, j + 7, k, k');
    IfRead(t, j, true, k', if k' == k then Some(j + |OpenTag(Unless(k))|) else None);
  }

  /** `{{#if`, one space, then (for a negated tag) `!`, with the key's reading at the
      following position being `r`: the opener of that polarity reads `r`, the other
      polarity and `if_eq` read nothing. */
  lemma IfRead(t: string, j: nat, negated: bool, k': string, r: Option<nat>)
    requires IsWordString(k')
    requires LitAt(t, j, "{{") && SkipWs(t, j + 2) == j + 2 && LitAt(t, j + 2, "#if")
    requires j + 7 <= |t| && t[j + 5] == ' ' && SkipWs(t, j + 5) == j + 6
    requires negated <==> t[j + 6] == '!'
    requires NameThenClose(t, if negated then j + 7 else j + 6, k') == r
    ensures IfOpenAt(t, j, negated, k') == r
    ensures IfOpenAt(t, j, !negated, k').None?
    ensures IfEqOpenAt(t, j, k').None?
  {
    BangAt(t, j + 6);
    LitAtHead(t, j + 6, k');
    NotEqOpen(t, j, k');
  }

  /** `!` is found at `i` exactly when it is the character there. */
  lemma BangAt(t: string, i: nat)
    requires i < |t|
    ensures LitAt(t, i, "!") <==> t[i] == '!'
  {
    LitAtHead(t, i, "!");
    if t[i] == '!' {
      assert t[i..i + 1][0] == t[i];
    }
  }

  /** A space where `#if_eq` would have its `_`: no `if_eq` tag opens at `j`. */
  lemma NotEqOpen(t: string, j: nat, k': string)
    requires LitAt(t, j, "{{") && SkipWs(t, j + 2) == j + 2 && j + 5 < |t| && t[j + 5] == ' '
    ensures IfEqOpenAt(t, j, k').None?
  {
    LitAtChar(t, j + 2, "#if_eq", 3);
  }

  /** The tail ` = w}}` of an `if_eq` opening tag, from `c0`. */
  lemma EqTailAt(t: string, c0: nat, w: string)
    requires IsWordString(w)
    requires LitAt(t, c0, " = ") && LitAt(t, c0 + 3, w) && LitAt(t, c0 + 3 + |w|, "}}")
    ensures EqTail(t, c0) == Some((c0 + 5 + |w|, w))
  {
    EqSignAt(t, c0);
    SpaceThenWordAt(t, c0 + 2, w);
    EqWordAt(t, c0 + 3, w);
  }

  /** ` = `: one space, the sign, one space. */
  lemma EqSignAt(t: string, c0: nat)
    requires LitAt(t, c0, " = ")
    ensures SkipWs(t, c0) == c0 + 1 && LitAt(t, c0 + 1, "=") && c0 + 2 < |t| && IsSpace(t[c0 + 2])
  {
    var s := " = ";
    LitAtChar(t, c0, s, 0);
    LitAtChar(t, c0, s, 1);
    LitAtChar(t, c0, s, 2);
    SkipWsUnique(t, c0, c0 + 1);
    LitAtSub(t, c0, s, 1, 2);
    assert s[1..2] == "=";
  }

  /** The captured word and the closing braces. */
  lemma EqWordAt(t: string, d: nat, w: string)
    requires IsWordString(w) && LitAt(t, d, w) && LitAt(t, d + |w|, "}}")
    ensures SkipWord(t, d) == d + |w| && t[d..d + |w|] == w
    ensures SkipWs(t, d + |w|) == d + |w| && LitAt(t, d + |w|, "}}")
  {
    LitAtChar(t, d + |w|, "}}", 0);
    SkipWsUnique(t, d + |w|, d + |w|);
    assert WordAt(t, d, w);
    WordAtIsRun(t, d, w);
  }

  /** After a key read inside a longer word, `\s+` cannot follow. */
  lemma EqTailNeedsSpace(t: string, c0: nat)
    requires c0 <= |t|
    ensures EqTail(t, c0).Some? ==> c0 < |t| && !IsWord(t[c0])
  {
    if EqTail(t, c0).Some? {
      WordNotSpace(t[c0]);
    }
  }

  /** A key read at `b` must be the whole word there for the tail to follow. */
  lemma KeyThenEqTail(t: string, b: nat, k: string, k': string, r: Option<(nat, string)>)
    requires b <= |t| && IsWordString(k')
    requires WordAt(t, b, k) && EqTail(t, b + |k|) == r
    ensures (if LitAt(t, b, k') then EqTail(t, b + |k'|) else None) == (if k' == k then r else None)
  {
    WordAtUniqueImp(t, b, k, k');
    if LitAt(t, b, k') && k' != k {
      EqTailNeedsSpace(t, b + |k'|);
    }
  }

  /** The pieces of an `if_eq` opening tag found at `j`. */
  lemma EqTagSplit(t: string, j: nat, k: string, w: string, o: string)
    requires o == "{{#if_eq " + k + " = " + w + "}}" && LitAt(t, j, o)
    ensures LitAt(t, j, "{{#if_eq ") && LitAt(t, j + 9, k) && LitAt(t, j + 9 + |k|, " = ")
    ensures LitAt(t, j + 12 + |k|, w) && LitAt(t, j + 12 + |k| + |w|, "}}")
    ensures |o| == 14 + |k| + |w|
  {
    LitAtSplit5(t, j, "{{#if_eq ", k, " = ", w, "}}");
  }

  /** Reading `{{#if_eq k = w}}`, given piece by piece and ending at `e`, at `j`: only
      the `if_eq` pass for `k` opens there, capturing `w`. */
  lemma EqOpenerParts(t: string, j: nat, k: string, w: string, k': string, e: nat)
    requires IsWordString(k) && IsWordString(w) && IsWordString(k')
    requires LitAt(t, j, "{{#if_eq ") && LitAt(t, j + 9, k) && LitAt(t, j + 9 + |k|, " = ")
    requires LitAt(t, j + 12 + |k|, w) && LitAt(t, j + 12 + |k| + |w|, "}}")
    requires e == j + 14 + |k| + |w|
    ensures IfEqOpenAt(t, j, k') == (if k' == k then Some((e, w)) else None)
    ensures IfOpenAt(t, j, false, k').None?
    ensures IfOpenAt(t, j, true, k').None?
  {
    EqPrefixFacts(t, j, k);
    EqTailAt(t, j + 9 + |k|, w);
    EqOpenerAssembly(t, j, k, k', Some((e, w)));
  }

  /** `{{#if_eq`, a space, then the word `k` whose tail reads `r`: the `if_eq` opener
      yields `r` for `k` alone, and no `{{#if …` opener reads anything. */
  lemma EqOpenerAssembly(t: string, j: nat, k: string, k': string, r: Option<(nat, string)>)
    requires IsWordString(k')
    requires LitAt(t, j, "{{") && SkipWs(t, j + 2) == j + 2 && LitAt(t, j + 2, "#if")
    requires LitAt(t, j + 2, "#if_eq") && j + 5 < |t| && t[j + 5] == '_'
    requires SkipWs(t, j + 8) == j + 9 && WordAt(t, j + 9, k) && EqTail(t, j + 9 + |k|) == r
    ensures IfEqOpenAt(t, j, k') == (if k' == k then r else None)
    ensures IfOpenAt(t, j, false, k').None?
    ensures IfOpenAt(t, j, true, k').None?
  {
    EqNotIf(t, j, k');
    KeyThenEqTail(t, j + 9, k, k', r);
    EqOpenerRead(t, j, k', if k' == k then r else None);
  }

  /** What `{{#if_eq ` followed by the word `k` gives the scanners, character by
      character. */
  lemma EqPrefixFacts(t: string, j: nat, k: string)
    requires IsWordString(k)
    requires LitAt(t, j, "{{#if_eq ") && LitAt(t, j + 9, k) && LitAt(t, j + 9 + |k|, " = ")
    ensures LitAt(t, j, "{{") && SkipWs(t, j + 2) == j + 2 && LitAt(t, j + 2, "#if")
    ensures LitAt(t, j + 2, "#if_eq") && j + 5 < |t| && t[j + 5] == '_'
    ensures SkipWs(t, j + 8) == j + 9 && WordAt(t, j + 9, k)
  {
    var h := "{{#if_eq ";
    OpenPrefix(t, j, h);
    LitAtSub(t, j, h, 2, 8);
    assert h[2..8] == "#if_eq";
    LitAtChar(t, j, h, 8);
    SpaceThenWordAt(t, j + 8, k);
    LitAtChar(t, j + 9 + |k|, " = ", 0);
  }

  /** `{{#if_` at `j`: no white space follows `#if`, so no `{{#if …` tag opens there. */
  lemma EqNotIf(t: string, j: nat, k': string)
    requires LitAt(t, j, "{{") && SkipWs(t, j + 2) == j + 2 && LitAt(t, j + 2, "#if")
    requires j + 5 < |t| && t[j + 5] == '_'
    ensures IfOpenAt(t, j, false, k').None?
    ensures IfOpenAt(t, j, true, k').None?
  {
    SkipWsUnique(t, j + 5, j + 5);
  }

  /** The `if_eq` scanner, once `#if_eq` and a space are read, yields what the key and
      the tail read from `j + 9`. */
  lemma EqOpenerRead(t: string, j: nat, k': string, r: Option<(nat, string)>)
    requires LitAt(t, j, "{{") && SkipWs(t, j + 2) == j + 2 && LitAt(t, j + 2, "#if_eq")
    requires SkipWs(t, j + 8) == j + 9
    requires (if LitAt(t, j + 9, k') then EqTail(t, j + 9 + |k'|) else None) == r
    ensures IfEqOpenAt(t, j, k') == r
  {
  }

  /** The opening tag `o` of `c` at `j`, with the block read from its end as `h`. */
  lemma OpenerMatchAt(t: string, j: nat, c: Cond, o: string, h: Hit, p: Pass)
    requires ValidCond(c) && p.IsConditional() && IsWordString(p.key)
    requires o == OpenTag(c) && LitAt(t, j, o)
    requires BlockFrom(t, j + |o|, CloseName(c), WordOf(c)) == Some(h)
    ensures MatchAt(p, t, j) == (if p == PassOf(c) then Some(h) else None)
  {
    match c
    case When(k) => WhenMatchAt(t, j, k, o, h, p);
    case Unless(k) => UnlessMatchAt(t, j, k, o, h, p);
    case WhenEq(k, w) => WhenEqMatchAt(t, j, k, w, o, h, p);
  }

  lemma WhenMatchAt(t: string, j: nat, k: string, o: string, h: Hit, p: Pass)
    requires IsWordString(k) && p.IsConditional() && IsWordString(p.key)
    requires o == OpenTag(When(k)) && LitAt(t, j, o)
    requires BlockFrom(t, j + |o|, CloseIf, "") == Some(h)
    ensures MatchAt(p, t, j) == (if p == IfTruthy(k) then Some(h) else None)
  {
    WhenOpener(t, j, k, p.key);
    OpenedMatch(t, j, p, IfTruthy(k), j + |o|, h);
  }

  lemma UnlessMatchAt(t: string, j: nat, k: string, o: string, h: Hit, p: Pass)
    requires IsWordString(k) && p.IsConditional() && IsWordString(p.key)
    requires o == OpenTag(Unless(k)) && LitAt(t, j, o)
    requires BlockFrom(t, j + |o|, CloseIf, "") == Some(h)
    ensures MatchAt(p, t, j) == (if p == IfFalsy(k) then Some(h) else None)
  {
    UnlessOpener(t, j, k, p.key);
    OpenedMatch(t, j, p, IfFalsy(k), j + |o|, h);
  }

  lemma WhenEqMatchAt(t: string, j: nat, k: string, w: string, o: string, h: Hit, p: Pass)
    requires IsWordString(k) && IsWordString(w) && p.IsConditional() && IsWordString(p.key)
    requires o == OpenTag(WhenEq(k, w)) && LitAt(t, j, o)
    requires BlockFrom(t, j + |o|, CloseIfEq, w) == Some(h)
    ensures MatchAt(p, t, j) == (if p == IfEq(k) then Some(h) else None)
  {
    var e := j + |o|;
    EqTagSplit(t, j, k, w, o);
    EqOpenerParts(t, j, k, w, p.key, e);
    EqOpenedMatch(t, j, k, w, e, h, p);
  }

  /** Where only the `if_eq` opener for `k` reads a tag at `j`, ending at `q` and
      capturing `w`, pass `p` matches the block from `q` exactly when it is `IfEq(k)`. */
  lemma EqOpenedMatch(t: string, j: nat, k: string, w: string, q: nat, h: Hit, p: Pass)
    requires p.IsConditional() && j <= q <= |t|
    requires IfEqOpenAt(t, j, p.key) == (if p.key == k then Some((q, w)) else None)
    requires IfOpenAt(t, j, false, p.key).None? && IfOpenAt(t, j, true, p.key).None?
    requires BlockFrom(t, q, CloseIfEq, w) == Some(h)
    ensures MatchAt(p, t, j) == (if p == IfEq(k) then Some(h) else None)
  {
    OpenedMatch(t, j, p, IfEq(k), q, h);
  }

  /** Where only the opener of pass `own` reads a tag at `j`, ending at `q`, and the
      block from `q` is `h`, pass `p` matches `h` exactly when it is `own`. */
  lemma OpenedMatch(t: string, j: nat, p: Pass, own: Pass, q: nat, h: Hit)
    requires p.IsConditional() && own.IsConditional() && j <= |t| && q <= |t|
    requires IfOpenAt(t, j, false, p.key) == (if own == IfTruthy(p.key) then Some(q) else None)
    requires IfOpenAt(t, j, true, p.key) == (if own == IfFalsy(p.key) then Some(q) else None)
    requires IfEqOpenAt(t, j, p.key) == (if own == IfEq(p.key) then Some((q, h.word)) else None)
    requires own.IfEq? ==> BlockFrom(t, q, CloseIfEq, h.word) == Some(h)
    requires !own.IfEq? ==> BlockFrom(t, q, CloseIf, "") == Some(h)
    ensures MatchAt(p, t, j) == (if p == own then Some(h) else None)
  {
  }

  /** Content `x` at `q`, then the first closing tag, ending at `e`. */
  lemma BlockFromAt(t: string, q: nat, name: string, x: string, e: nat)
    requires LitAt(t, q, x) && FindClose(t, q, name) == Some((q + |x|, e))
    ensures forall word :: BlockFrom(t, q, name, word) == Some(Hit(e, word, x))
  {
  }

  /** The pieces of a closing tag, by position. */
  lemma CloseTagPieces(c: Cond)
    ensures var o, n := CloseTag(c), CloseName(c);
      && |o| == |n| + 4 && |n| > 0 && n[0] == '/'
      && o[0..2] == "{{" && o[2..2 + |n|] == n && o[2 + |n|..] == "}}"
  {
  }

  /** Reading the closing tag of `c` at `j`. */
  lemma CloserAt(t: string, j: nat, e: nat, c: Cond)
    requires LitAt(t, j, CloseTag(c)) && e == j + |CloseTag(c)|
    ensures CloseTagAt(t, j, CloseName(c)) == Some(e)
  {
    CloseTagPieces(c);
    CloserRead(t, j, CloseTag(c), CloseName(c));
  }

  /** Reading a closing tag `o` of `n`, given by its pieces, at `j`. */
  lemma CloserRead(t: string, j: nat, o: string, n: string)
    requires LitAt(t, j, o) && |o| == |n| + 4 && |n| > 0 && n[0] == '/'
    requires o[0..2] == "{{" && o[2..2 + |n|] == n && o[2 + |n|..] == "}}"
    ensures CloseTagAt(t, j, n) == Some(j + |o|)
  {
    LitAtSub(t, j, o, 0, 2);
    LitAtChar(t, j, o, 2);
    SkipWsUnique(t, j + 2, j + 2);
    LitAtSub(t, j, o, 2, 2 + |n|);
    LitAtSub(t, j, o, 2 + |n|, |o|);
    LitAtChar(t, j, o, 2 + |n|);
    SkipWsUnique(t, j + 2 + |n|, j + 2 + |n|);
  }
}
