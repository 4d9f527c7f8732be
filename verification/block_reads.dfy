/** Reading a whole conditional block at any position of a text: the opening tag, the
    content up to the first closing tag of its kind, and that closing tag. */
module BlockReads {
  import opened Wrappers
  import opened Text
  import opened Values
  import opened Scan
  import opened Blocks
  import opened BlockTags

  /** White space skipped inside `x` is skipped the same way in a text holding `x` at
      `q` and a non-space character right after it. */
  lemma SkipWsThrough(t: string, q: nat, x: string, a: nat)
    requires LitAt(t, q, x) && a <= |x| && q + |x| < |t| && !IsSpace(t[q + |x|])
    ensures SkipWs(t, q + a) == q + SkipWs(x, a)
  {
    var b := SkipWs(x, a);
    SkipWsSpaces(x, a);
    forall m | q + a <= m < q + b
      ensures IsSpace(t[m])
    {
      LitAtChar(t, q, x, m - q);
    }
    if b < |x| {
      LitAtChar(t, q, x, b);
    }
    SkipWsUnique(t, q + a, q + b);
  }

  /** Content free of conditional tags, followed by `{{`, starts no conditional or
      closing tag anywhere: a `{{` near its end runs into the braces that follow. */
  lemma ContentCondDead(t: string, q: nat, x: string, m: nat)
    requires LitAt(t, q, x) && CondFree(x)
    requires q + |x| + 1 < |t| && t[q + |x|] == '{' && t[q + |x| + 1] == '{'
    requires q <= m < q + |x|
    ensures CondDead(t, m)
  {
    var m' := m - q;
    if OpensAt(t, m) {
      if m' + 1 < |x| {
        LitAtChar(t, q, x, m');
        LitAtChar(t, q, x, m' + 1);
        assert OpensAt(x, m');
        var a := SkipWs(x, m' + 2);
        SkipWsThrough(t, q, x, m' + 2);
        if a < |x| {
          LitAtChar(t, q, x, a);
        }
      } else {
        SkipWsUnique(t, m + 2, m + 2);
      }
    }
  }

  /** Every position of such content is free of conditional and closing tags. */
  lemma ContentCondDeadAll(t: string, q: nat, x: string)
    requires LitAt(t, q, x) && CondFree(x)
    requires q + |x| + 1 < |t| && t[q + |x|] == '{' && t[q + |x| + 1] == '{'
    ensures forall m :: q <= m < q + |x| ==> CondDead(t, m)
  {
    forall m | q <= m < q + |x|
      ensures CondDead(t, m)
    {
      ContentCondDead(t, q, x, m);
    }
  }

  /** When no conditional tag starts in `[m, d)` and a closing tag of `name` starts at
      `d`, the lazy block body from `m` stops at `d`. */
  lemma {:induction false} FirstCloseAt(t: string, m: nat, d: nat, name: string, e: nat)
    requires m <= d <= |t| && |name| > 0 && name[0] == '/'
    requires forall i :: m <= i < d ==> CondDead(t, i)
    requires CloseTagAt(t, d, name) == Some(e)
    ensures FindClose(t, m, name) == Some((d, e))
    decreases d - m
  {
    if m < d {
      CondDeadNoMatch(t, m, IfTruthy(""), name);
      FindCloseStep(t, m, name);
      FirstCloseAt(t, m + 1, d, name, e);
    }
  }

  /** The first closing tag after content free of conditional tags is the one right
      after it. */
  lemma FindCloseAt(t: string, q: nat, x: string, c: Cond)
    requires LitAt(t, q, x) && CondFree(x) && LitAt(t, q + |x|, CloseTag(c))
    ensures FindClose(t, q, CloseName(c)) == Some((q + |x|, q + |x| + |CloseTag(c)|))
  {
    var d := q + |x|;
    LitAtChar(t, d, CloseTag(c), 0);
    LitAtChar(t, d, CloseTag(c), 1);
    ContentCondDeadAll(t, q, x);
    CloserAt(t, d, d + |CloseTag(c)|, c);
    FirstCloseAt(t, q, d, CloseName(c), d + |CloseTag(c)|);
  }

  /** A block at `j`, given by its opening tag `o`, content `x` free of conditional
      tags, and closing tag `z`: only the block's own pass matches there, reading up
      to the end of the closing tag. */
  lemma BlockMatchAt(t: string, j: nat, c: Cond, o: string, x: string, z: string, p: Pass)
    requires ValidCond(c) && CondFree(x) && o == OpenTag(c) && z == CloseTag(c)
    requires p.IsConditional() && IsWordString(p.key)
    requires LitAt(t, j, o) && LitAt(t, j + |o|, x) && LitAt(t, j + |o| + |x|, z)
    ensures MatchAt(p, t, j)
         == (if p == PassOf(c) then Some(Hit(j + |o| + |x| + |z|, WordOf(c), x)) else None)
  {
    BlockBodyAt(t, j + |o|, c, x, WordOf(c));
    OpenerMatchAt(t, j, c, o, Hit(j + |o| + |x| + |z|, WordOf(c), x), p);
  }

  /** From the end of an opening tag, the block reads content `x` free of conditional
      tags and ends after the closing tag that follows it. */
  lemma BlockBodyAt(t: string, q: nat, c: Cond, x: string, word: string)
    requires CondFree(x) && LitAt(t, q, x) && LitAt(t, q + |x|, CloseTag(c))
    ensures BlockFrom(t, q, CloseName(c), word) == Some(Hit(q + |x| + |CloseTag(c)|, word, x))
  {
    FindCloseAt(t, q, x, c);
    BlockFromAt(t, q, CloseName(c), x, q + |x| + |CloseTag(c)|);
  }
}
