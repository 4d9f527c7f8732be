/** `processTemplate` over a template made of pieces: every piece renders on its own,
    whatever stands around it, and the first helper call that throws decides the
    outcome. Rendering a concatenation of such templates is the concatenation of
    their renderings. */
module PieceRender {
  import opened Wrappers
  import opened Text
  import opened Values
  import opened Template
  import opened RenderLaws
  import opened Blocks
  import opened Tokens
  import opened Pieces
  import opened PiecePasses

  /** Every key of the map is a `\w+` word. */
  predicate WordKeys(vars: Vars) {
    forall i :: 0 <= i < |vars| ==> IsWordString(vars[i].0)
  }

  lemma ValidWordKeys(vars: Vars)
    requires ValidVars(vars)
    ensures WordKeys(vars)
  {
  }

  /** What rendering makes of one piece: a block of a key in the map becomes its content
      or nothing, a placeholder of a key in the map becomes the value's string form, a
      helper call on a string becomes the capitalised string; anything else, including
      every piece whose key the map lacks, stays as written. */
  function Out(vars: Vars, q: Piece): string {
    match q
    case Verbatim(s) => s
    case Block(c, x) =>
      if c.key in Keys(vars) then (if Kept(c, vars) then x else "") else BlockText(c, x)
    case Hole(w1, k, w2) =>
      if k in Keys(vars) then ToStringForm(ValueOf(vars, k)) else PlaceholderToken(w1, k, w2)
    case Call(v) =>
      if ValueOf(vars, v).Str? then Capitalize(ValueOf(vars, v).s) else HelperToken(v)
    case Stray(eq) => StrayTag(eq)
  }

  function JoinOut(vars: Vars, ps: seq<Piece>): string {
    if ps == [] then [] else Out(vars, ps[0]) + JoinOut(vars, ps[1..])
  }

  /** Two renderings side by side: the first throw wins, otherwise the texts join. */
  function Both(a: Result<string>, b: Result<string>): Result<string> {
    match a
    case Err(e) => Err(e)
    case Ok(s) => Prepend(s, b)
  }

  /** The outcome the renderer gives a sequence of pieces. */
  function Outcome(vars: Vars, ps: seq<Piece>): Result<string> {
    match FirstThrow(vars, ps)
    case Some(v) => Err(v)
    case None => Ok(JoinOut(vars, ps))
  }

  // ---- the three phases composed ----

  /** Resolving blocks creates and removes no helper call. */
  lemma {:induction false} FirstThrowBlocks(vars: Vars, keys: seq<string>, ps: seq<Piece>)
    ensures FirstThrow(vars, BlocksOut(vars, keys, ps)) == FirstThrow(vars, ps)
    decreases |ps|
  {
    if ps != [] {
      var bs := BlocksOut(vars, keys, ps);
      assert bs[1..] == BlocksOut(vars, keys, ps[1..]);
      FirstThrowBlocks(vars, keys, ps[1..]);
      FirstThrowHead(vars, ps);
      FirstThrowHead(vars, bs);
    }
  }

  /** The three phases, applied one after the other to one piece. */
  function Phases(vars: Vars, q: Piece): Piece {
    ResolveHole(vars, Keys(vars), CallStep(vars, ResolveBlock(vars, Keys(vars), q)))
  }

  lemma PhasesOut(vars: Vars, q: Piece)
    ensures Src(Phases(vars, q)) == Out(vars, q)
  {
  }

  lemma {:induction false} JoinPhases(vars: Vars, ps: seq<Piece>)
    ensures Join(HolesOut(vars, Keys(vars), CallSteps(vars, BlocksOut(vars, Keys(vars), ps))))
         == JoinOut(vars, ps)
    decreases |ps|
  {
    if ps != [] {
      var ks := Keys(vars);
      var m := HolesOut(vars, ks, CallSteps(vars, BlocksOut(vars, ks, ps)));
      var m1 := HolesOut(vars, ks, CallSteps(vars, BlocksOut(vars, ks, ps[1..])));
      assert m == [Phases(vars, ps[0])] + m1;
      JoinCons(Phases(vars, ps[0]), m1);
      PhasesOut(vars, ps[0]);
      JoinPhases(vars, ps[1..]);
    }
  }

  /** Rendering a template made of pieces renders each piece on its own and joins the
      results; it throws, naming the variable, exactly when some helper call is on a
      boolean or a number, and then at the first such call. */
  lemma RenderPieces(vars: Vars, ps: seq<Piece>)
    requires WordKeys(vars) && AllWellFormed(ps) && AllFit(vars, ps)
    ensures Render(Join(ps), vars) == Outcome(vars, ps)
  {
    var ks := Keys(vars);
    var bs := BlocksOut(vars, ks, ps);
    ConditionalsPieces(vars, ks, ps);
    BlocksOutWellFormed(vars, ks, ps);
    FirstThrowBlocks(vars, ks, ps);
    SuffixZero(Join(bs));
    HelperPieces(vars, Join(bs), 0, bs);
    if FirstThrow(vars, ps).None? {
      var cs := CallSteps(vars, bs);
      CallStepsWellFormed(vars, bs);
      PlaceholdersPieces(vars, ks, cs);
      JoinPhases(vars, ps);
    }
  }

  // ---- concatenation ----

  lemma JoinOutCons(vars: Vars, q: Piece, ps: seq<Piece>)
    ensures JoinOut(vars, [q] + ps) == Out(vars, q) + JoinOut(vars, ps)
  {
    assert ([q] + ps)[1..] == ps;
  }

  lemma FirstThrowCons(vars: Vars, q: Piece, ps: seq<Piece>)
    ensures FirstThrow(vars, [q] + ps) == if Throws(vars, q) then Some(q.v) else FirstThrow(vars, ps)
  {
    assert ([q] + ps)[1..] == ps;
  }

  lemma {:induction false} JoinAppend(ps: seq<Piece>, qs: seq<Piece>)
    ensures Join(ps + qs) == Join(ps) + Join(qs)
    decreases |ps|
  {
    if ps == [] {
      assert ps + qs == qs;
    } else {
      var q, rest := ps[0], ps[1..];
      ConsAppend(ps, qs);
      JoinAppend(rest, qs);
      JoinCons(q, rest);
      JoinCons(q, rest + qs);
      AppendAssoc(Src(q), Join(rest), Join(qs));
    }
  }

  lemma {:induction false} JoinOutAppend(vars: Vars, ps: seq<Piece>, qs: seq<Piece>)
    ensures JoinOut(vars, ps + qs) == JoinOut(vars, ps) + JoinOut(vars, qs)
    decreases |ps|
  {
    if ps == [] {
      assert ps + qs == qs;
    } else {
      var q, rest := ps[0], ps[1..];
      ConsAppend(ps, qs);
      JoinOutAppend(vars, rest, qs);
      JoinOutCons(vars, q, rest);
      JoinOutCons(vars, q, rest + qs);
      AppendAssoc(Out(vars, q), JoinOut(vars, rest), JoinOut(vars, qs));
    }
  }

  /** A non-empty sequence is its head in front of its tail, also with more after it. */
  lemma ConsAppend(ps: seq<Piece>, qs: seq<Piece>)
    requires ps != []
    ensures ps == [ps[0]] + ps[1..] && ps + qs == [ps[0]] + (ps[1..] + qs)
  {
  }

  lemma {:induction false} FirstThrowAppend(vars: Vars, ps: seq<Piece>, qs: seq<Piece>)
    ensures FirstThrow(vars, ps + qs)
         == if FirstThrow(vars, ps).Some? then FirstThrow(vars, ps) else FirstThrow(vars, qs)
    decreases |ps|
  {
    if ps == [] {
      assert ps + qs == qs;
    } else {
      var q, rest := ps[0], ps[1..];
      ConsAppend(ps, qs);
      FirstThrowAppend(vars, rest, qs);
      FirstThrowCons(vars, q, rest);
      FirstThrowCons(vars, q, rest + qs);
    }
  }

  lemma AllWellFormedAppend(vars: Vars, ps: seq<Piece>, qs: seq<Piece>)
    requires AllWellFormed(ps) && AllFit(vars, ps) && AllWellFormed(qs) && AllFit(vars, qs)
    ensures AllWellFormed(ps + qs) && AllFit(vars, ps + qs)
  {
    forall i | 0 <= i < |ps + qs|
      ensures WellFormed((ps + qs)[i]) && Fits(vars, (ps + qs)[i])
    {
      if i < |ps| {
        assert (ps + qs)[i] == ps[i];
      } else {
        assert (ps + qs)[i] == qs[i - |ps|];
      }
    }
  }

  /** Rendering is compositional: a template made of pieces followed by another renders
      as the two do apart, joined, with the first throw winning. */
  lemma RenderJoin(vars: Vars, ps: seq<Piece>, qs: seq<Piece>)
    requires WordKeys(vars)
    requires AllWellFormed(ps) && AllFit(vars, ps) && AllWellFormed(qs) && AllFit(vars, qs)
    ensures Render(Join(ps) + Join(qs), vars) == Both(Render(Join(ps), vars), Render(Join(qs), vars))
  {
    JoinAppend(ps, qs);
    JoinOutAppend(vars, ps, qs);
    FirstThrowAppend(vars, ps, qs);
    AllWellFormedAppend(vars, ps, qs);
    RenderPieces(vars, ps + qs);
    RenderPieces(vars, ps);
    RenderPieces(vars, qs);
  }

  // ---- one piece in plain surroundings ----

  /** Plain text, then one piece, then plain text, renders as the piece does, with the
      text around it unchanged. */
  lemma PieceInContext(vars: Vars, pre: string, q: Piece, post: string)
    requires WordKeys(vars) && PlainText(pre) && PlainText(post) && WellFormed(q) && Fits(vars, q)
    ensures Render(pre + Src(q) + post, vars)
         == if Throws(vars, q) then Err(q.v) else Ok(pre + Out(vars, q) + post)
  {
    Trio(vars, Verbatim(pre), q, Verbatim(post));
    TrioWellFormed(vars, Verbatim(pre), q, Verbatim(post));
    RenderPieces(vars, [Verbatim(pre), q, Verbatim(post)]);
  }

  /** Three pieces in a row. */
  lemma Trio(vars: Vars, q1: Piece, q2: Piece, q3: Piece)
    ensures Join([q1, q2, q3]) == Src(q1) + Src(q2) + Src(q3)
    ensures JoinOut(vars, [q1, q2, q3]) == Out(vars, q1) + Out(vars, q2) + Out(vars, q3)
    ensures !Throws(vars, q1) && !Throws(vars, q3) ==>
      FirstThrow(vars, [q1, q2, q3]) == if Throws(vars, q2) then Some(q2.v) else None
  {
    TrioJoin(q1, q2, q3);
    TrioJoinOut(vars, q1, q2, q3);
    TrioThrow(vars, q1, q2, q3);
  }

  lemma TrioJoin(q1: Piece, q2: Piece, q3: Piece)
    ensures Join([q1, q2, q3]) == Src(q1) + Src(q2) + Src(q3)
  {
    JoinCons(q3, []);
    assert [q3] + [] == [q3] && Src(q3) + [] == Src(q3);
    JoinCons(q2, [q3]);
    assert [q2] + [q3] == [q2, q3];
    JoinCons(q1, [q2, q3]);
    assert [q1] + [q2, q3] == [q1, q2, q3];
    AppendAssoc(Src(q1), Src(q2), Src(q3));
  }

  lemma TrioJoinOut(vars: Vars, q1: Piece, q2: Piece, q3: Piece)
    ensures JoinOut(vars, [q1, q2, q3]) == Out(vars, q1) + Out(vars, q2) + Out(vars, q3)
  {
    JoinOutCons(vars, q3, []);
    assert [q3] + [] == [q3] && Out(vars, q3) + [] == Out(vars, q3);
    JoinOutCons(vars, q2, [q3]);
    assert [q2] + [q3] == [q2, q3];
    JoinOutCons(vars, q1, [q2, q3]);
    assert [q1] + [q2, q3] == [q1, q2, q3];
    AppendAssoc(Out(vars, q1), Out(vars, q2), Out(vars, q3));
  }

  lemma TrioThrow(vars: Vars, q1: Piece, q2: Piece, q3: Piece)
    ensures !Throws(vars, q1) && !Throws(vars, q3) ==>
      FirstThrow(vars, [q1, q2, q3]) == if Throws(vars, q2) then Some(q2.v) else None
  {
    FirstThrowCons(vars, q3, []);
    assert [q3] + [] == [q3];
    FirstThrowCons(vars, q2, [q3]);
    FirstThrowCons(vars, q1, [q2, q3]);
    assert [q2] + [q3] == [q2, q3] && [q1] + [q2, q3] == [q1, q2, q3];
  }

  /** Three well-formed pieces that fit form a template of pieces. */
  lemma TrioWellFormed(vars: Vars, q1: Piece, q2: Piece, q3: Piece)
    requires WellFormed(q1) && WellFormed(q2) && WellFormed(q3)
    requires Fits(vars, q1) && Fits(vars, q2) && Fits(vars, q3)
    ensures AllWellFormed([q1, q2, q3]) && AllFit(vars, [q1, q2, q3])
  {
    var ps := [q1, q2, q3];
    forall i | 0 <= i < |ps|
      ensures WellFormed(ps[i]) && Fits(vars, ps[i])
    {
      assert i == 0 || i == 1 || i == 2;
    }
  }

  /** A conditional block in plain surroundings: when its key is in the map it becomes
      its content or nothing, and otherwise it stays as written. */
  lemma BlockInContext(vars: Vars, pre: string, c: Cond, x: string, post: string)
    requires WordKeys(vars) && PlainText(pre) && PlainText(post) && ValidCond(c) && PlainText(x)
    ensures c.key in Keys(vars) ==>
      Render(pre + BlockText(c, x) + post, vars) == Ok(pre + (if Kept(c, vars) then x else "") + post)
    ensures c.key !in Keys(vars) ==>
      Render(pre + BlockText(c, x) + post, vars) == Ok(pre + BlockText(c, x) + post)
  {
    PieceInContext(vars, pre, Block(c, x), post);
  }

  /** A placeholder in plain surroundings becomes the value's string form when its key is
      in the map and stays as written otherwise. */
  lemma PlaceholderInContext(vars: Vars, pre: string, w1: string, k: string, w2: string, post: string)
    requires WordKeys(vars) && PlainText(pre) && PlainText(post)
    requires AllSpace(w1) && IsWordString(k) && AllSpace(w2)
    requires PlainText(ToStringForm(ValueOf(vars, k)))
    ensures k in Keys(vars) ==>
      Render(pre + PlaceholderToken(w1, k, w2) + post, vars) == Ok(pre + ToStringForm(ValueOf(vars, k)) + post)
    ensures k !in Keys(vars) ==>
      Render(pre + PlaceholderToken(w1, k, w2) + post, vars) == Ok(pre + PlaceholderToken(w1, k, w2) + post)
  {
    PieceInContext(vars, pre, Hole(w1, k, w2), post);
  }

  /** A helper call in plain surroundings: the capitalised string, a throw on a boolean
      or a number, and the call as written when the variable is undefined. */
  lemma HelperInContext(vars: Vars, pre: string, v: string, post: string)
    requires WordKeys(vars) && PlainText(pre) && PlainText(post) && IsWordString(v)
    requires v in Keys(vars) || !Inherited(v)
    requires ValueOf(vars, v).Str? ==> PlainText(ValueOf(vars, v).s)
    ensures ValueOf(vars, v).Bool? || ValueOf(vars, v).Int? ==>
      Render(pre + HelperToken(v) + post, vars) == Err(v)
    ensures ValueOf(vars, v).Str? ==>
      Render(pre + HelperToken(v) + post, vars) == Ok(pre + Capitalize(ValueOf(vars, v).s) + post)
    ensures ValueOf(vars, v).Undefined? ==>
      Render(pre + HelperToken(v) + post, vars) == Ok(pre + HelperToken(v) + post)
  {
    PieceInContext(vars, pre, Call(v), post);
  }

  /** The block pattern is lazy: a block followed by more text and a second closing tag
      ends at the first closing tag, and the second one stays in the output. */
  lemma NonGreedy(vars: Vars, c: Cond, x: string, y: string, eq: bool)
    requires WordKeys(vars) && ValidCond(c) && PlainText(x) && PlainText(y)
    requires c.key in Keys(vars)
    ensures Render(BlockText(c, x) + y + StrayTag(eq), vars)
         == Ok((if Kept(c, vars) then x else "") + y + StrayTag(eq))
  {
    Trio(vars, Block(c, x), Verbatim(y), Stray(eq));
    TrioWellFormed(vars, Block(c, x), Verbatim(y), Stray(eq));
    RenderPieces(vars, [Block(c, x), Verbatim(y), Stray(eq)]);
  }

  // ---- worked examples ----

  /** Three blocks on two keys, one of them used twice: each block is resolved on its own
      and the text between them is kept. */
  lemma ThreeBlocksExample(t: string, vars: Vars)
    requires t == "p{{#if a}}X{{/if}}q" + "{{#if b}}Y{{/if}}r" + "{{#if a}}Z{{/if}}s"
    requires vars == [("a", Bool(true)), ("b", Bool(false))]
    ensures Render(t, vars) == Ok("pXqrZs")
  {
    ExampleTextA();
    ExampleTextB();
    ExampleTextC();
    ThreeBlocksParts();
    TwoKeys(vars);
    var t1 := BlockTrio(vars, "p", When("a"), "X", "q");
    var t2 := BlockTrio(vars, "", When("b"), "Y", "r");
    var t3 := BlockTrio(vars, "", When("a"), "Z", "s");
    JoinAppend(t1, t2);
    AllWellFormedAppend(vars, t1, t2);
    RenderJoin(vars, t1, t2);
    RenderJoin(vars, t1 + t2, t3);
  }

  /** A block between plain texts, as pieces, and what it renders to. */
  lemma BlockTrio(vars: Vars, pre: string, c: Cond, x: string, post: string) returns (ps: seq<Piece>)
    requires WordKeys(vars) && PlainText(pre) && PlainText(post) && ValidCond(c) && PlainText(x)
    requires c.key in Keys(vars)
    ensures Join(ps) == pre + BlockText(c, x) + post
    ensures AllWellFormed(ps) && AllFit(vars, ps)
    ensures Render(Join(ps), vars) == Ok(pre + (if Kept(c, vars) then x else "") + post)
  {
    ps := [Verbatim(pre), Block(c, x), Verbatim(post)];
    Trio(vars, Verbatim(pre), Block(c, x), Verbatim(post));
    TrioWellFormed(vars, Verbatim(pre), Block(c, x), Verbatim(post));
    RenderPieces(vars, ps);
  }

  /** The example's text, block by block. */
  lemma ExampleTextA()
    ensures "p" + BlockText(When("a"), "X") + "q" == "p{{#if a}}X{{/if}}q"
  {
    WhenText("p", "a", "X", "q", "p{{#if a}}X{{/if}}q");
  }

  lemma ExampleTextB()
    ensures "" + BlockText(When("b"), "Y") + "r" == "{{#if b}}Y{{/if}}r"
  {
    WhenText("", "b", "Y", "r", "{{#if b}}Y{{/if}}r");
  }

  lemma ExampleTextC()
    ensures "" + BlockText(When("a"), "Z") + "s" == "{{#if a}}Z{{/if}}s"
  {
    WhenText("", "a", "Z", "s", "{{#if a}}Z{{/if}}s");
  }

  /** An `#if` block between texts, spelled out. */
  lemma WhenText(pre: string, k: string, x: string, post: string, t: string)
    requires t == pre + "{{#if " + k + "}}" + x + "{{/if}}" + post
    ensures pre + BlockText(When(k), x) + post == t
  {
  }

  lemma ThreeBlocksParts()
    ensures "p" + "X" + "q" + ("" + "" + "r") + ("" + "Z" + "s") == "pXqrZs"
    ensures IsWordString("a") && IsWordString("b") && ValidCond(When("a")) && ValidCond(When("b"))
    ensures PlainText("p") && PlainText("q") && PlainText("r") && PlainText("s") && PlainText("")
    ensures PlainText("X") && PlainText("Y") && PlainText("Z")
  {
  }

  /** The map `{a: true, b: false}`. */
  lemma TwoKeys(vars: Vars)
    requires vars == [("a", Bool(true)), ("b", Bool(false))]
    ensures WordKeys(vars) && Keys(vars) == ["a", "b"]
    ensures ValueOf(vars, "a") == Bool(true) && ValueOf(vars, "b") == Bool(false)
  {
    assert IsWordString("a") && IsWordString("b");
  }

  /** A second `{{/if}}` after a block is left in the output. */
  lemma NonGreedyExample(t: string, vars: Vars)
    requires t == "{{#if a}}1{{/if}}2{{/if}}" && vars == [("a", Bool(true))]
    ensures Render(t, vars) == Ok("12{{/if}}")
  {
    NonGreedyText();
    OneTrueKey(vars, "a");
    NonGreedy(vars, When("a"), "1", "2", false);
  }

  lemma NonGreedyText()
    ensures BlockText(When("a"), "1") + "2" + StrayTag(false) == "{{#if a}}1{{/if}}2{{/if}}"
    ensures "1" + "2" + StrayTag(false) == "12{{/if}}"
    ensures IsWordString("a") && ValidCond(When("a")) && PlainText("1") && PlainText("2")
  {
    assert OpenTag(When("a")) == "{{#if a}}";
  }

  /** A map of one key holding `true`. */
  lemma OneTrueKey(vars: Vars, k: string)
    requires vars == [(k, Bool(true))] && IsWordString(k)
    ensures WordKeys(vars) && Keys(vars) == [k] && ValueOf(vars, k) == Bool(true)
  {
  }
}
