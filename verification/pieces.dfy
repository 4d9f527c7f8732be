/** Templates written as a sequence of pieces: plain text, conditional blocks,
    placeholders, helper calls and stray closing tags. Each piece is what one of the
    renderer's patterns can match as a whole, so the passes act on a template piece
    by piece; the following modules state and prove that. */
module Pieces {
  import opened Wrappers
  import opened Text
  import opened Values
  import opened Scan
  import opened Blocks
  import opened Tokens

  datatype Piece =
    | Verbatim(s: string)                      // text with no `{{`
    | Block(c: Cond, x: string)                // a conditional block with plain content
    | Hole(w1: string, k: string, w2: string)  // the placeholder `{{ k }}`
    | Call(v: string)                          // `{{capitalizeFirstLetter v}}`
    | Stray(eq: bool)                          // `{{/if_eq}}` or `{{/if}}` outside any block

  /** Text that holds no `{{` and does not end in `{`, so it cannot start a `{{`
      together with whatever follows it. */
  predicate PlainText(s: string) {
    NoOpen(s) && (s == [] || s[|s| - 1] != '{')
  }

  function StrayTag(eq: bool): string {
    if eq then "{{/if_eq}}" else "{{/if}}"
  }

  /** The template text a piece stands for. */
  function Src(q: Piece): string {
    match q
    case Verbatim(s) => s
    case Block(c, x) => BlockText(c, x)
    case Hole(w1, k, w2) => PlaceholderToken(w1, k, w2)
    case Call(v) => HelperToken(v)
    case Stray(eq) => StrayTag(eq)
  }

  /** The template written by a sequence of pieces. */
  function Join(ps: seq<Piece>): string {
    if ps == [] then [] else Src(ps[0]) + Join(ps[1..])
  }

  /** Keys and words are `\w+`, white space around a key is white space, and text
      (including a block's content) is plain. */
  predicate WellFormed(q: Piece) {
    match q
    case Verbatim(s) => PlainText(s)
    case Block(c, x) => ValidCond(c) && PlainText(x)
    case Hole(w1, k, w2) => AllSpace(w1) && IsWordString(k) && AllSpace(w2)
    case Call(v) => IsWordString(v)
    case Stray(_) => true
  }

  predicate AllWellFormed(ps: seq<Piece>) {
    forall i :: 0 <= i < |ps| ==> WellFormed(ps[i])
  }

  /** What a value substituted for the piece must be for the rest of the template to
      keep its pieces: plain text. A helper call must also not name a property every
      JavaScript object inherits, unless the map has it as its own key: the lookup
      `vars[v]` would find the inherited function there and the helper would throw. */
  predicate Fits(vars: Vars, q: Piece) {
    match q
    case Hole(_, k, _) => PlainText(ToStringForm(ValueOf(vars, k)))
    case Call(v) =>
      && (v in Keys(vars) || !Inherited(v))
      && (ValueOf(vars, v).Str? ==> PlainText(ValueOf(vars, v).s))
    case _ => true
  }

  predicate AllFit(vars: Vars, ps: seq<Piece>) {
    forall i :: 0 <= i < |ps| ==> Fits(vars, ps[i])
  }

  /** A pass built for a `\w+` key, or the helper pass. */
  predicate Keyed(p: Pass) {
    p.Helper? || IsWordString(p.key)
  }

  /** Whether pass `p` matches the piece as a whole. */
  predicate Reads(p: Pass, q: Piece) {
    match q
    case Block(c, _) => p == PassOf(c)
    case Hole(_, k, _) => p == Placeholder(k)
    case Call(_) => p == Helper
    case _ => false
  }

  /** The match a reading pass makes of the piece found at `j`. */
  function HitOf(q: Piece, j: nat): Hit {
    match q
    case Block(c, x) => Hit(j + |Src(q)|, WordOf(c), x)
    case Call(v) => Hit(j + |Src(q)|, v, "")
    case _ => Hit(j + |Src(q)|, "", "")
  }

  /** A suffix that is a concatenation holds its first part, then the second. */
  lemma SuffixSplit(t: string, j: nat, a: string, b: string)
    requires j <= |t| && t[j..] == a + b
    ensures LitAt(t, j, a) && j + |a| <= |t| && t[j + |a|..] == b
  {
    assert t[j..j + |a|] == t[j..][..|a|];
    assert t[j + |a|..] == t[j..][|a|..];
  }

  /** A sequence of pieces sits at `j` of `t`: its first piece there, the rest after it. */
  lemma JoinHead(t: string, j: nat, ps: seq<Piece>)
    requires ps != [] && j <= |t| && t[j..] == Join(ps)
    ensures LitAt(t, j, Src(ps[0]))
    ensures j + |Src(ps[0])| <= |t| && t[j + |Src(ps[0])|..] == Join(ps[1..])
  {
    SuffixSplit(t, j, Src(ps[0]), Join(ps[1..]));
  }

  lemma JoinCons(q: Piece, ps: seq<Piece>)
    ensures Join([q] + ps) == Src(q) + Join(ps)
  {
    assert ([q] + ps)[1..] == ps;
  }

  /** The whole text is its own suffix from 0. */
  lemma SuffixZero(t: string)
    ensures t[0..] == t
  {
  }
}
