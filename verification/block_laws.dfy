/** What rendering does to a conditional block whose key is in the variable map. */
module BlockLaws {
  import opened Wrappers
  import opened Text
  import opened Values
  import opened Scan
  import opened Template
  import opened RenderLaws
  import opened Blocks
  import opened BlockPositions
  import opened BlockTags
  import opened BlockReads

  lemma LitAtFront(a: string, b: string)
    ensures LitAt(a + b, 0, a)
  {
    assert (a + b)[0..|a|] == a;
  }

  /** The pieces of a block text where the scanners look for them. */
  lemma BlockPieces(c: Cond, x: string)
    requires ValidCond(c)
    ensures OpenShape(OpenTag(c)) && CloseShape(CloseTag(c))
    ensures LitAt(BlockText(c, x), 0, OpenTag(c))
    ensures LitAt(BlockText(c, x), |OpenTag(c)| + |x|, CloseTag(c))
    ensures BlockText(c, x)[|OpenTag(c)|..|OpenTag(c)| + |x|] == x
  {
    var o, e := OpenTag(c), CloseTag(c);
    OpenTagShape(c);
    CloseTagShape(c);
    BlockOpenLit(c, x);
    BlockCloseLit(c, x);
    assert (o + x + e)[|o|..|o| + |x|] == x;
  }

  lemma BlockOpenLit(c: Cond, x: string)
    ensures LitAt(BlockText(c, x), 0, OpenTag(c))
  {
    var o, e := OpenTag(c), CloseTag(c);
    LitAtFront(o, x + e);
    assert o + (x + e) == o + x + e;
  }

  lemma BlockContentLit(c: Cond, x: string)
    ensures LitAt(BlockText(c, x), |OpenTag(c)|, x)
  {
    LitAtMiddle(OpenTag(c), x, CloseTag(c));
  }

  lemma BlockCloseLit(c: Cond, x: string)
    ensures LitAt(BlockText(c, x), |OpenTag(c)| + |x|, CloseTag(c))
  {
    var o, e := OpenTag(c), CloseTag(c);
    LitAtMiddle(o + x, e, "");
    assert o + x + e + "" == o + x + e;
  }

  /** At the start of a block only the block's own pass matches, spanning the whole block. */
  lemma BlockMatch(c: Cond, x: string, p: Pass)
    requires ValidCond(c) && CondFree(x)
    requires p.IsConditional() && IsWordString(p.key)
    ensures MatchAt(p, BlockText(c, x), 0)
         == (if p == PassOf(c) then Some(Hit(|BlockText(c, x)|, WordOf(c), x)) else None)
  {
    BlockMatchIn(BlockText(c, x), c, x, p);
  }

  lemma BlockMatchIn(t: string, c: Cond, x: string, p: Pass)
    requires t == BlockText(c, x)
    requires ValidCond(c) && CondFree(x)
    requires p.IsConditional() && IsWordString(p.key)
    ensures MatchAt(p, t, 0) == (if p == PassOf(c) then Some(Hit(|t|, WordOf(c), x)) else None)
  {
    BlockOpenLit(c, x);
    BlockContentLit(c, x);
    BlockCloseLit(c, x);
    BlockMatchSplit(t, c, OpenTag(c), x, CloseTag(c), p);
  }

  /** The same, from the three parts of the block found at their offsets. */
  lemma BlockMatchSplit(t: string, c: Cond, o: string, x: string, z: string, p: Pass)
    requires ValidCond(c) && CondFree(x) && o == OpenTag(c) && z == CloseTag(c)
    requires p.IsConditional() && IsWordString(p.key)
    requires LitAt(t, 0, o) && LitAt(t, |o|, x) && LitAt(t, |o| + |x|, z) && |t| == |o| + |x| + |z|
    ensures MatchAt(p, t, 0) == (if p == PassOf(c) then Some(Hit(|t|, WordOf(c), x)) else None)
  {
    BlockMatchAt(t, 0, c, o, x, z, p);
  }


  /** The block's own pass replaces it by its content or by nothing; every other
      conditional pass leaves it alone. */
  lemma BlockRewrite(c: Cond, x: string, p: Pass, vars: Vars)
    requires ValidCond(c) && CondFree(x)
    requires p.IsConditional() && IsWordString(p.key)
    ensures Rewrite(p, vars, BlockText(c, x), 0)
         == (if p != PassOf(c) then BlockText(c, x) else if Kept(c, vars) then x else "")
  {
    var t := BlockText(c, x);
    BlockMatch(c, x, p);
    BlockPieces(c, x);
    TailNoCond(OpenTag(c), x, CloseTag(c), p);
    if p != PassOf(c) {
      RewriteUnmatched(p, vars, t);
    }
  }

  /** Text without conditional tags holds no match of any conditional pass. */
  lemma CondFreeInert(y: string, k: string)
    requires CondFree(y) && IsWordString(k)
    ensures CondInert(y, k)
  {
    forall m | 0 <= m < |y|
      ensures MatchAt(IfTruthy(k), y, m).None?
      ensures MatchAt(IfFalsy(k), y, m).None?
      ensures MatchAt(IfEq(k), y, m).None?
    {
      CondDeadNoMatch(y, m, IfTruthy(k), "/if");
      CondDeadNoMatch(y, m, IfFalsy(k), "/if");
      CondDeadNoMatch(y, m, IfEq(k), "/if");
    }
  }

  /** The passes of another key leave the block alone. */
  lemma BlockOtherKey(c: Cond, x: string, k: string)
    requires ValidCond(c) && CondFree(x)
    requires IsWordString(k) && k != c.key
    ensures CondInert(BlockText(c, x), k)
  {
    var t := BlockText(c, x);
    BlockPieces(c, x);
    BlockMatch(c, x, IfTruthy(k));
    BlockMatch(c, x, IfFalsy(k));
    BlockMatch(c, x, IfEq(k));
    TailNoCond(OpenTag(c), x, CloseTag(c), IfTruthy(k));
    TailNoCond(OpenTag(c), x, CloseTag(c), IfFalsy(k));
    TailNoCond(OpenTag(c), x, CloseTag(c), IfEq(k));
  }

  /** The three passes of the block's key turn it into its content or into nothing. */
  lemma BlockOwnKey(c: Cond, x: string, vars: Vars)
    requires ValidCond(c) && CondFree(x)
    ensures ConditionalsFor(BlockText(c, x), vars, c.key) == (if Kept(c, vars) then x else "")
  {
    var k := c.key;
    var y := if Kept(c, vars) then x else "";
    var t := BlockText(c, x);
    BlockRewrite(c, x, IfTruthy(k), vars);
    var a := Rewrite(IfTruthy(k), vars, t, 0);
    CondFreeInert(y, k);
    if c.When? {
      assert a == y;
      RewriteUnmatched(IfFalsy(k), vars, y);
      RewriteUnmatched(IfEq(k), vars, y);
    } else {
      assert a == t;
      BlockRewrite(c, x, IfFalsy(k), vars);
      var b := Rewrite(IfFalsy(k), vars, a, 0);
      BlockRewrite(c, x, IfEq(k), vars);
      if c.Unless? {
        assert b == y;
        RewriteUnmatched(IfEq(k), vars, y);
      } else {
        assert b == t;
      }
    }
  }

  /** The conditional phase turns a block of a known key into its content or into
      nothing; no other key's passes touch it before or after. */
  lemma BlockConditionals(c: Cond, x: string, vars: Vars)
    requires ValidVars(vars) && ValidCond(c) && CondFree(x)
    requires c.key in Keys(vars)
    ensures Conditionals(BlockText(c, x), vars, Keys(vars)) == (if Kept(c, vars) then x else "")
  {
    var t := BlockText(c, x);
    var y := if Kept(c, vars) then x else "";
    var ks := Keys(vars);
    var i :| 0 <= i < |ks| && ks[i] == c.key;
    forall j | 0 <= j < i
      ensures CondInert(t, ks[j])
    {
      BlockOtherKey(c, x, ks[j]);
    }
    BlockOwnKey(c, x, vars);
    forall j | i < j < |ks|
      ensures CondInert(y, ks[j])
    {
      CondFreeInert(y, ks[j]);
    }
    ConditionalsThrough(t, vars, ks, i, y);
  }

  /** Text without conditional tags is left alone by the conditional phase. */
  lemma CondFreeConditionals(y: string, vars: Vars)
    requires ValidVars(vars) && CondFree(y)
    ensures Conditionals(y, vars, Keys(vars)) == y
  {
    var ks := Keys(vars);
    forall j | 0 <= j < |ks|
      ensures CondInert(y, ks[j])
    {
      CondFreeInert(y, ks[j]);
    }
    ConditionalsFixed(y, vars, ks);
  }

  /** A block whose key is in the map renders exactly as its content would when the
      content is kept (truthy for `#if`, falsy for `#if !`, the same string for
      `#if_eq`), and as the empty text otherwise. The content's own placeholders and
      helper calls are therefore still substituted. */
  lemma BlockRenders(c: Cond, x: string, vars: Vars)
    requires ValidVars(vars) && ValidCond(c) && CondFree(x)
    requires c.key in Keys(vars)
    ensures Render(BlockText(c, x), vars) == Render(if Kept(c, vars) then x else "", vars)
  {
    BlockConditionals(c, x, vars);
    CondFreeConditionals(if Kept(c, vars) then x else "", vars);
  }

  /** With plain content the block renders to its content or to nothing. */
  lemma PlainBlockRenders(c: Cond, x: string, vars: Vars)
    requires ValidVars(vars) && ValidCond(c) && NoOpen(x)
    requires c.key in Keys(vars)
    ensures Render(BlockText(c, x), vars) == Ok(if Kept(c, vars) then x else "")
  {
    BlockRenders(c, x, vars);
    NoOpenRendersVerbatim(if Kept(c, vars) then x else "", vars);
  }

  /** `#if_eq` compares with `===`: a boolean or number value never equals the
      literal, so such a block always renders to nothing. */
  lemma IfEqNeedsString(k: string, w: string, x: string, vars: Vars)
    requires ValidVars(vars) && IsWordString(k) && IsWordString(w) && NoOpen(x)
    requires k in Keys(vars) && !ValueOf(vars, k).Str?
    ensures Render(BlockText(WhenEq(k, w), x), vars) == Ok("")
  {
    PlainBlockRenders(WhenEq(k, w), x, vars);
  }

  /** `#if` and `#if !` on the same key keep complementary contents. */
  lemma WhenUnlessComplement(k: string, x: string, vars: Vars)
    requires ValidVars(vars) && IsWordString(k) && NoOpen(x) && x != ""
    requires k in Keys(vars)
    ensures Render(BlockText(When(k), x), vars) == Ok(x)
        <==> Render(BlockText(Unless(k), x), vars) == Ok("")
  {
    PlainBlockRenders(When(k), x, vars);
    PlainBlockRenders(Unless(k), x, vars);
  }

  /** No helper call and no placeholder starts a block. */
  lemma BlockStartNoToken(c: Cond, x: string, p: Pass)
    requires ValidCond(c)
    requires p.Helper? || (p.Placeholder? && IsWordString(p.key))
    ensures MatchAt(p, BlockText(c, x), 0).None?
  {
    var t := BlockText(c, x);
    BlockPieces(c, x);
    LitAtChar(t, 0, OpenTag(c), 2);
    SkipWsUnique(t, 2, 2);
    LitAtHead(t, 2, HelperName);
    if p.Placeholder? {
      LitAtHead(t, 2, p.key);
    }
  }

  /** A block with plain content whose key is not in the map is left verbatim: every
      pass is instantiated only for the map's keys. */
  lemma AbsentKeyBlockVerbatim(c: Cond, x: string, vars: Vars)
    requires ValidVars(vars) && ValidCond(c) && NoOpen(x)
    requires c.key !in Keys(vars)
    ensures Render(BlockText(c, x), vars) == Ok(BlockText(c, x))
  {
    var t := BlockText(c, x);
    var ks := Keys(vars);
    BlockPieces(c, x);
    forall j | 0 <= j < |ks|
      ensures CondInert(t, ks[j])
    {
      BlockOtherKey(c, x, ks[j]);
    }
    ConditionalsFixed(t, vars, ks);
    forall m | 0 <= m < |t|
      ensures MatchAt(Helper, t, m).None?
    {
      if m == 0 {
        BlockStartNoToken(c, x, Helper);
      } else {
        PlainInteriorDead(OpenTag(c), x, CloseTag(c), m);
        DeadNoMatch(t, m, Helper);
      }
    }
    HelperRewriteUnmatched(vars, t, 0);
    assert t[0..] == t;
    forall j, m | 0 <= j < |ks| && 0 <= m < |t|
      ensures MatchAt(Placeholder(ks[j]), t, m).None?
    {
      if m == 0 {
        BlockStartNoToken(c, x, Placeholder(ks[j]));
      } else {
        PlainInteriorDead(OpenTag(c), x, CloseTag(c), m);
        DeadNoMatch(t, m, Placeholder(ks[j]));
      }
    }
    PlaceholdersFixed(t, vars, ks);
  }
}
