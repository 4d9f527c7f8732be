/** The renderer's passes over a template made of pieces: each pass replaces exactly
    the pieces it reads, so each phase of `processTemplate` maps the pieces one by one. */
module PiecePasses {
  import opened Wrappers
  import opened Text
  import opened Values
  import opened Scan
  import opened Template
  import opened RenderLaws
  import opened Blocks
  import opened Tokens
  import opened Pieces
  import opened PieceReads

  // ---- one conditional or placeholder pass ----

  /** What a pass leaves of a piece: the block's content when kept and nothing when
      dropped, the value's string form for a placeholder, the piece itself otherwise. */
  function StepPiece(p: Pass, vars: Vars, q: Piece): Piece
    requires !p.Helper?
  {
    if !Reads(p, q) then q
    else match q
      case Block(c, x) => Verbatim(if Kept(c, vars) then x else "")
      case Hole(_, k, _) => Verbatim(ToStringForm(ValueOf(vars, k)))
      case _ => q
  }

  function Steps(p: Pass, vars: Vars, ps: seq<Piece>): (r: seq<Piece>)
    requires !p.Helper?
    ensures |r| == |ps| && forall i :: 0 <= i < |ps| ==> r[i] == StepPiece(p, vars, ps[i])
  {
    if ps == [] then [] else [StepPiece(p, vars, ps[0])] + Steps(p, vars, ps[1..])
  }

  /** The text the source's replacement callback returns for a piece it reads. */
  lemma ReplacementOf(p: Pass, vars: Vars, q: Piece, j: nat)
    requires !p.Helper? && Reads(p, q)
    ensures Replacement(p, vars, HitOf(q, j)) == Src(StepPiece(p, vars, q))
  {
  }

  /** A piece a pass reads is not empty, and the match ends where the piece does. */
  lemma ReadsSrc(p: Pass, q: Piece, j: nat)
    requires Reads(p, q)
    ensures |Src(q)| > 0 && HitOf(q, j).end == j + |Src(q)|
  {
  }

  /** Where a match starts, its replacement `a` is emitted and scanning resumes at
      `e`, where the match ends. */
  lemma RewriteHitAt(p: Pass, vars: Vars, t: string, j: nat, e: nat, h: Hit, a: string)
    requires !p.Helper? && j < |t| && MatchAt(p, t, j) == Some(h)
    requires h.end == e && Replacement(p, vars, h) == a
    ensures Rewrite(p, vars, t, j) == a + Rewrite(p, vars, t, e)
  {
  }

  /** A pass over a piece at `j`, ending at `e`: the piece's replacement, then the
      pass over the rest. */
  lemma RewritePiece(p: Pass, vars: Vars, t: string, j: nat, e: nat, q: Piece)
    requires !p.Helper? && Keyed(p) && WellFormed(q) && LitAt(t, j, Src(q)) && e == j + |Src(q)|
    ensures Rewrite(p, vars, t, j) == Src(StepPiece(p, vars, q)) + Rewrite(p, vars, t, e)
  {
    PieceMatch(p, t, j, q);
    if Reads(p, q) {
      RewriteReadPiece(p, vars, t, j, e, q, HitOf(q, j));
    } else {
      RewriteSkipOver(p, vars, t, j, e, Src(q));
    }
  }

  /** A pass that reads the piece at `j` emits its replacement and goes on at `e`. */
  lemma RewriteReadPiece(p: Pass, vars: Vars, t: string, j: nat, e: nat, q: Piece, h: Hit)
    requires !p.Helper? && Reads(p, q) && LitAt(t, j, Src(q)) && e == j + |Src(q)|
    requires h == HitOf(q, j) && MatchAt(p, t, j) == Some(h)
    ensures Rewrite(p, vars, t, j) == Src(StepPiece(p, vars, q)) + Rewrite(p, vars, t, e)
  {
    ReadsSrc(p, q, j);
    ReplacementOf(p, vars, q, j);
    RewriteHitAt(p, vars, t, j, e, h, Src(StepPiece(p, vars, q)));
  }

  /** A pass copies the text `a` at `j` when it matches nowhere in it, and goes on at
      `e`, after it. */
  lemma RewriteSkipOver(p: Pass, vars: Vars, t: string, j: nat, e: nat, a: string)
    requires !p.Helper? && e == j + |a| && LitAt(t, j, a) && NoMatchIn(p, t, j, e)
    ensures Rewrite(p, vars, t, j) == a + Rewrite(p, vars, t, e)
  {
    RewriteSkip(p, vars, t, j, e);
    assert t[j..e] == a;
  }

  /** The text of a mapped sequence, split at its first piece. */
  lemma StepsHead(p: Pass, vars: Vars, ps: seq<Piece>)
    requires !p.Helper? && ps != []
    ensures Join(Steps(p, vars, ps)) == Src(StepPiece(p, vars, ps[0])) + Join(Steps(p, vars, ps[1..]))
  {
    assert Steps(p, vars, ps) == [StepPiece(p, vars, ps[0])] + Steps(p, vars, ps[1..]);
    JoinCons(StepPiece(p, vars, ps[0]), Steps(p, vars, ps[1..]));
  }

  lemma AllWellFormedTail(ps: seq<Piece>)
    requires ps != [] && AllWellFormed(ps)
    ensures WellFormed(ps[0]) && AllWellFormed(ps[1..])
  {
    assert forall i :: 0 <= i < |ps[1..]| ==> ps[1..][i] == ps[i + 1];
  }

  /** A pass over pieces from `j` on is the pass applied to each piece. */
  lemma {:induction false} RewritePieces(p: Pass, vars: Vars, t: string, j: nat, ps: seq<Piece>)
    requires !p.Helper? && Keyed(p) && AllWellFormed(ps)
    requires j <= |t| && t[j..] == Join(ps)
    ensures Rewrite(p, vars, t, j) == Join(Steps(p, vars, ps))
    decreases |ps|
  {
    if ps == [] {
      assert j == |t|;
    } else {
      var e := j + |Src(ps[0])|;
      JoinHead(t, j, ps);
      AllWellFormedTail(ps);
      RewritePiece(p, vars, t, j, e, ps[0]);
      RewritePieces(p, vars, t, e, ps[1..]);
      StepsHead(p, vars, ps);
    }
  }

  /** One global `replace` over a template of pieces replaces each piece it reads, and
      only those. */
  lemma PassPieces(p: Pass, vars: Vars, ps: seq<Piece>)
    requires !p.Helper? && Keyed(p) && AllWellFormed(ps)
    ensures Rewrite(p, vars, Join(ps), 0) == Join(Steps(p, vars, ps))
  {
    SuffixZero(Join(ps));
    RewritePieces(p, vars, Join(ps), 0, ps);
  }

  /** A conditional pass keeps pieces well formed; a placeholder pass does too when the
      value it substitutes fits. */
  lemma StepWellFormed(p: Pass, vars: Vars, q: Piece)
    requires !p.Helper? && WellFormed(q) && Fits(vars, q)
    ensures WellFormed(StepPiece(p, vars, q)) && Fits(vars, StepPiece(p, vars, q))
  {
  }

  lemma StepsWellFormed(p: Pass, vars: Vars, ps: seq<Piece>)
    requires !p.Helper? && AllWellFormed(ps) && AllFit(vars, ps)
    ensures AllWellFormed(Steps(p, vars, ps)) && AllFit(vars, Steps(p, vars, ps))
  {
    forall i | 0 <= i < |ps|
      ensures WellFormed(StepPiece(p, vars, ps[i])) && Fits(vars, StepPiece(p, vars, ps[i]))
    {
      StepWellFormed(p, vars, ps[i]);
    }
  }

  // ---- the conditional phase ----

  /** A block whose key is among `keys` is resolved to its kept content or to nothing;
      every other piece is left alone. */
  function ResolveBlock(vars: Vars, keys: seq<string>, q: Piece): Piece {
    if q.Block? && q.c.key in keys then Verbatim(if Kept(q.c, vars) then q.x else "") else q
  }

  function BlocksOut(vars: Vars, keys: seq<string>, ps: seq<Piece>): (r: seq<Piece>)
    ensures |r| == |ps| && forall i :: 0 <= i < |ps| ==> r[i] == ResolveBlock(vars, keys, ps[i])
  {
    if ps == [] then [] else [ResolveBlock(vars, keys, ps[0])] + BlocksOut(vars, keys, ps[1..])
  }

  /** The three conditional passes of the first key, then the blocks of the remaining
      keys, resolve a piece as the blocks of all the keys do. */
  lemma ResolveBlockStep(vars: Vars, keys: seq<string>, q: Piece)
    requires keys != []
    ensures var k := keys[0];
      ResolveBlock(vars, keys[1..],
        StepPiece(IfEq(k), vars, StepPiece(IfFalsy(k), vars, StepPiece(IfTruthy(k), vars, q))))
      == ResolveBlock(vars, keys, q)
  {
    assert keys == [keys[0]] + keys[1..];
  }

  lemma ResolveNoKeys(vars: Vars, ps: seq<Piece>)
    ensures BlocksOut(vars, [], ps) == ps
  {
  }

  lemma BlocksOutWellFormed(vars: Vars, keys: seq<string>, ps: seq<Piece>)
    requires AllWellFormed(ps) && AllFit(vars, ps)
    ensures AllWellFormed(BlocksOut(vars, keys, ps)) && AllFit(vars, BlocksOut(vars, keys, ps))
  {
  }

  /** The conditional phase, split at its first key. */
  lemma ConditionalsCons(s: string, vars: Vars, keys: seq<string>)
    requires keys != []
    ensures Conditionals(s, vars, keys) == Conditionals(ConditionalsFor(s, vars, keys[0]), vars, keys[1..])
  {
  }

  /** The three passes of one key, over pieces. */
  function KeySteps(vars: Vars, k: string, ps: seq<Piece>): seq<Piece> {
    Steps(IfEq(k), vars, Steps(IfFalsy(k), vars, Steps(IfTruthy(k), vars, ps)))
  }

  /** The three conditional passes of a `\w+` key map the pieces one by one. */
  lemma KeyStepsPieces(vars: Vars, k: string, ps: seq<Piece>)
    requires IsWordString(k) && AllWellFormed(ps) && AllFit(vars, ps)
    ensures ConditionalsFor(Join(ps), vars, k) == Join(KeySteps(vars, k, ps))
    ensures AllWellFormed(KeySteps(vars, k, ps)) && AllFit(vars, KeySteps(vars, k, ps))
  {
    var ps1 := Steps(IfTruthy(k), vars, ps);
    var ps2 := Steps(IfFalsy(k), vars, ps1);
    PassPieces(IfTruthy(k), vars, ps);
    StepsWellFormed(IfTruthy(k), vars, ps);
    PassPieces(IfFalsy(k), vars, ps1);
    StepsWellFormed(IfFalsy(k), vars, ps1);
    PassPieces(IfEq(k), vars, ps2);
    StepsWellFormed(IfEq(k), vars, ps2);
  }

  /** The first key's passes, then the remaining keys' blocks, resolve the blocks of
      all the keys. */
  lemma BlocksOutStep(vars: Vars, keys: seq<string>, ps: seq<Piece>)
    requires keys != []
    ensures BlocksOut(vars, keys[1..], KeySteps(vars, keys[0], ps)) == BlocksOut(vars, keys, ps)
  {
    forall i | 0 <= i < |ps|
      ensures BlocksOut(vars, keys[1..], KeySteps(vars, keys[0], ps))[i] == BlocksOut(vars, keys, ps)[i]
    {
      ResolveBlockStep(vars, keys, ps[i]);
    }
  }

  lemma WordKeysTail(keys: seq<string>)
    requires keys != [] && forall i :: 0 <= i < |keys| ==> IsWordString(keys[i])
    ensures IsWordString(keys[0]) && forall i :: 0 <= i < |keys[1..]| ==> IsWordString(keys[1..][i])
  {
  }

  /** The conditional phase over `\w+` keys resolves exactly the blocks whose key is
      among them, each by its own condition, and leaves everything else in place. */
  lemma {:induction false} ConditionalsPieces(vars: Vars, keys: seq<string>, ps: seq<Piece>)
    requires AllWellFormed(ps) && AllFit(vars, ps)
    requires forall i :: 0 <= i < |keys| ==> IsWordString(keys[i])
    ensures Conditionals(Join(ps), vars, keys) == Join(BlocksOut(vars, keys, ps))
    decreases |keys|
  {
    if keys == [] {
      ResolveNoKeys(vars, ps);
    } else {
      var ps3 := KeySteps(vars, keys[0], ps);
      WordKeysTail(keys);
      ConditionalsCons(Join(ps), vars, keys);
      KeyStepsPieces(vars, keys[0], ps);
      ConditionalsPieces(vars, keys[1..], ps3);
      BlocksOutStep(vars, keys, ps);
    }
  }

  // ---- the helper phase ----

  /** A helper call whose variable holds a boolean or a number: the source throws there. */
  predicate Throws(vars: Vars, q: Piece) {
    q.Call? && (ValueOf(vars, q.v).Bool? || ValueOf(vars, q.v).Int?)
  }

  /** The variable of the first call that throws, if any. */
  function FirstThrow(vars: Vars, ps: seq<Piece>): (r: Option<string>)
    ensures r.Some? <==> exists i :: 0 <= i < |ps| && Throws(vars, ps[i])
    ensures r.Some? ==> exists i :: 0 <= i < |ps| && Throws(vars, ps[i]) && r.value == ps[i].v
                                   && forall j :: 0 <= j < i ==> !Throws(vars, ps[j])
  {
    if ps == [] then None
    else if Throws(vars, ps[0]) then Some(ps[0].v)
    else
      var r := FirstThrow(vars, ps[1..]);
      assert forall i :: 1 <= i < |ps| ==> ps[i] == ps[1..][i - 1];
      if r.Some? then
        var i :| 0 <= i < |ps[1..]| && Throws(vars, ps[1..][i]) && r.value == ps[1..][i].v
                 && forall j :: 0 <= j < i ==> !Throws(vars, ps[1..][j]);
        assert Throws(vars, ps[i + 1]) && r.value == ps[i + 1].v;
        assert forall j :: 0 <= j < i + 1 ==> !Throws(vars, ps[j]);
        r
      else r
  }

  /** A call whose variable holds a string becomes that string capitalised; every other
      piece is left alone. */
  function CallStep(vars: Vars, q: Piece): Piece {
    if q.Call? && ValueOf(vars, q.v).Str? then Verbatim(Capitalize(ValueOf(vars, q.v).s)) else q
  }

  function CallSteps(vars: Vars, ps: seq<Piece>): (r: seq<Piece>)
    ensures |r| == |ps| && forall i :: 0 <= i < |ps| ==> r[i] == CallStep(vars, ps[i])
  {
    if ps == [] then [] else [CallStep(vars, ps[0])] + CallSteps(vars, ps[1..])
  }

  /** `a` in front of a successful result. */
  function Prepend(a: string, r: Result<string>): Result<string> {
    match r
    case Ok(s) => Ok(a + s)
    case Err(e) => Err(e)
  }

  lemma PrependTwice(a: string, b: string, r: Result<string>)
    ensures Prepend(a, Prepend(b, r)) == Prepend(a + b, r)
  {
    if r.Ok? {
      assert a + (b + r.value) == (a + b) + r.value;
    }
  }

  /** Where no helper call starts, one character is copied. */
  lemma HelperNoMatchStep(vars: Vars, s: string, i: nat)
    requires i < |s| && MatchAt(Helper, s, i).None?
    ensures HelperRewrite(vars, s, i) == Prepend([s[i]], HelperRewrite(vars, s, i + 1))
  {
  }

  /** The helper pass copies a stretch without helper calls and goes on after it. */
  lemma {:induction false} HelperSkip(vars: Vars, s: string, i: nat, j: nat)
    requires i <= j <= |s| && NoMatchIn(Helper, s, i, j)
    ensures HelperRewrite(vars, s, i) == Prepend(s[i..j], HelperRewrite(vars, s, j))
    decreases j - i
  {
    if i == j {
      PrependEmpty(HelperRewrite(vars, s, j));
      assert s[i..j] == [];
    } else {
      var last := HelperRewrite(vars, s, j);
      HelperNoMatchStep(vars, s, i);
      HelperSkip(vars, s, i + 1, j);
      PrependTwice([s[i]], s[i + 1..j], last);
      ConsSlice(s, i, j);
    }
  }

  lemma PrependEmpty(r: Result<string>)
    ensures Prepend([], r) == r
  {
    if r.Ok? {
      assert [] + r.value == r.value;
    }
  }

  /** Where a helper call of `v` spanning the text `a` starts, the helper throws or
      emits the call's result, then goes on at `e`, after it. */
  lemma HelperHit(vars: Vars, t: string, j: nat, e: nat, v: string, a: string)
    requires e == j + |a| && LitAt(t, j, a) && |a| > 0 && MatchAt(Helper, t, j) == Some(Hit(e, v, ""))
    ensures var x := ValueOf(vars, v);
      HelperRewrite(vars, t, j)
      == if x.Bool? || x.Int? then Err(v)
         else Prepend(if x.Str? then Capitalize(x.s) else a, HelperRewrite(vars, t, e))
  {
    assert t[j..e] == a;
  }

  /** The helper pass copies the text `a` at `j` when no helper call starts in it, and
      goes on at `e`, after it. */
  lemma HelperSkipOver(vars: Vars, t: string, j: nat, e: nat, a: string)
    requires e == j + |a| && LitAt(t, j, a) && NoMatchIn(Helper, t, j, e)
    ensures HelperRewrite(vars, t, j) == Prepend(a, HelperRewrite(vars, t, e))
  {
    HelperSkip(vars, t, j, e);
    assert t[j..e] == a;
  }

  /** The helper pass over a piece at `j`, ending at `e`: it throws at a call whose
      variable holds a boolean or a number, and otherwise puts the piece's result
      before the rest. */
  lemma HelperPiece(vars: Vars, t: string, j: nat, e: nat, q: Piece)
    requires WellFormed(q) && LitAt(t, j, Src(q)) && e == j + |Src(q)|
    ensures HelperRewrite(vars, t, j)
         == if Throws(vars, q) then Err(q.v)
            else Prepend(Src(CallStep(vars, q)), HelperRewrite(vars, t, e))
  {
    if q.Call? {
      HelperCallPiece(vars, t, j, e, q);
    } else {
      HelperOtherPiece(vars, t, j, e, q);
    }
  }

  lemma HelperOtherPiece(vars: Vars, t: string, j: nat, e: nat, q: Piece)
    requires !q.Call? && WellFormed(q) && LitAt(t, j, Src(q)) && e == j + |Src(q)|
    ensures HelperRewrite(vars, t, j) == Prepend(Src(q), HelperRewrite(vars, t, e))
    ensures !Throws(vars, q) && CallStep(vars, q) == q
  {
    PieceMatch(Helper, t, j, q);
    HelperSkipOver(vars, t, j, e, Src(q));
  }

  lemma HelperCallPiece(vars: Vars, t: string, j: nat, e: nat, q: Piece)
    requires q.Call? && WellFormed(q) && LitAt(t, j, Src(q)) && e == j + |Src(q)|
    ensures HelperRewrite(vars, t, j)
         == if Throws(vars, q) then Err(q.v)
            else Prepend(Src(CallStep(vars, q)), HelperRewrite(vars, t, e))
  {
    PieceMatch(Helper, t, j, q);
    CallHitWord(q, j);
    HelperHit(vars, t, j, e, q.v, Src(q));
    CallStepSrc(vars, q);
  }

  /** What the helper makes of a call: a throw for a boolean or a number, the capitalised
      string for a string, the call itself otherwise. */
  lemma CallStepSrc(vars: Vars, q: Piece)
    requires q.Call?
    ensures var x := ValueOf(vars, q.v);
      && Throws(vars, q) == (x.Bool? || x.Int?)
      && Src(CallStep(vars, q)) == if x.Str? then Capitalize(x.s) else Src(q)
  {
  }

  lemma CallHitWord(q: Piece, j: nat)
    requires q.Call?
    ensures HitOf(q, j).word == q.v && HitOf(q, j).end == j + |Src(q)|
  {
  }

  /** The text of the helper-mapped sequence, split at its first piece. */
  lemma CallStepsHead(vars: Vars, ps: seq<Piece>)
    requires ps != []
    ensures Join(CallSteps(vars, ps)) == Src(CallStep(vars, ps[0])) + Join(CallSteps(vars, ps[1..]))
  {
    assert CallSteps(vars, ps) == [CallStep(vars, ps[0])] + CallSteps(vars, ps[1..]);
    JoinCons(CallStep(vars, ps[0]), CallSteps(vars, ps[1..]));
  }

  /** The outcome of the helper pass over pieces, in terms of the first piece. */
  function HelperOutcome(vars: Vars, ps: seq<Piece>): Result<string> {
    match FirstThrow(vars, ps)
    case Some(v) => Err(v)
    case None => Ok(Join(CallSteps(vars, ps)))
  }

  lemma HelperOutcomeHead(vars: Vars, ps: seq<Piece>)
    requires ps != []
    ensures HelperOutcome(vars, ps)
         == if Throws(vars, ps[0]) then Err(ps[0].v)
            else Prepend(Src(CallStep(vars, ps[0])), HelperOutcome(vars, ps[1..]))
  {
    CallStepsHead(vars, ps);
    FirstThrowHead(vars, ps);
    if !Throws(vars, ps[0]) {
      var rest := Join(CallSteps(vars, ps[1..]));
      match FirstThrow(vars, ps[1..])
      case Some(v) =>
      case None =>
        assert HelperOutcome(vars, ps[1..]) == Ok(rest);
    }
  }

  lemma FirstThrowHead(vars: Vars, ps: seq<Piece>)
    requires ps != []
    ensures FirstThrow(vars, ps)
         == if Throws(vars, ps[0]) then Some(ps[0].v) else FirstThrow(vars, ps[1..])
  {
  }

  /** The helper pass over pieces from `j` on throws at the first call that throws, and
      otherwise applies `CallStep` to each piece. */
  lemma {:induction false} HelperPieces(vars: Vars, t: string, j: nat, ps: seq<Piece>)
    requires AllWellFormed(ps) && j <= |t| && t[j..] == Join(ps)
    ensures HelperRewrite(vars, t, j) == HelperOutcome(vars, ps)
    decreases |ps|
  {
    if ps == [] {
      assert j == |t|;
    } else {
      var e := j + |Src(ps[0])|;
      JoinHead(t, j, ps);
      AllWellFormedTail(ps);
      HelperPieces(vars, t, e, ps[1..]);
      HelperPiecesStep(vars, t, j, e, ps);
    }
  }

  /** The helper pass over the first piece, given its outcome over the rest. */
  lemma HelperPiecesStep(vars: Vars, t: string, j: nat, e: nat, ps: seq<Piece>)
    requires ps != [] && WellFormed(ps[0]) && LitAt(t, j, Src(ps[0])) && e == j + |Src(ps[0])|
    requires HelperRewrite(vars, t, e) == HelperOutcome(vars, ps[1..])
    ensures HelperRewrite(vars, t, j) == HelperOutcome(vars, ps)
  {
    HelperPiece(vars, t, j, e, ps[0]);
    HelperOutcomeHead(vars, ps);
  }

  lemma CallStepsWellFormed(vars: Vars, ps: seq<Piece>)
    requires AllWellFormed(ps) && AllFit(vars, ps)
    ensures AllWellFormed(CallSteps(vars, ps)) && AllFit(vars, CallSteps(vars, ps))
  {
    forall i | 0 <= i < |ps| && ps[i].Call? && ValueOf(vars, ps[i].v).Str?
      ensures PlainText(Capitalize(ValueOf(vars, ps[i].v).s))
    {
      CapitalizePlain(ValueOf(vars, ps[i].v).s);
    }
  }

  /** Capitalising plain text keeps it plain. */
  lemma CapitalizePlain(s: string)
    requires PlainText(s)
    ensures PlainText(Capitalize(s))
  {
    CapitalizeKeepsNoOpen(s);
    if |s| > 0 {
      assert Capitalize(s)[|s| - 1] == ToUpper(s[|s| - 1]) || Capitalize(s)[|s| - 1] == s[|s| - 1];
    }
  }

  // ---- the placeholder phase ----

  /** A placeholder whose key is among `keys` is replaced by the value's string form;
      every other piece is left alone. */
  function ResolveHole(vars: Vars, keys: seq<string>, q: Piece): Piece {
    if q.Hole? && q.k in keys then Verbatim(ToStringForm(ValueOf(vars, q.k))) else q
  }

  function HolesOut(vars: Vars, keys: seq<string>, ps: seq<Piece>): (r: seq<Piece>)
    ensures |r| == |ps| && forall i :: 0 <= i < |ps| ==> r[i] == ResolveHole(vars, keys, ps[i])
  {
    if ps == [] then [] else [ResolveHole(vars, keys, ps[0])] + HolesOut(vars, keys, ps[1..])
  }

  lemma ResolveHoleStep(vars: Vars, keys: seq<string>, q: Piece)
    requires keys != []
    ensures ResolveHole(vars, keys[1..], StepPiece(Placeholder(keys[0]), vars, q))
         == ResolveHole(vars, keys, q)
  {
    assert keys == [keys[0]] + keys[1..];
  }

  lemma HolesNoKeys(vars: Vars, ps: seq<Piece>)
    ensures HolesOut(vars, [], ps) == ps
  {
  }

  /** The placeholder phase, split at its first key. */
  lemma PlaceholdersCons(s: string, vars: Vars, keys: seq<string>)
    requires keys != []
    ensures Placeholders(s, vars, keys)
         == Placeholders(Rewrite(Placeholder(keys[0]), vars, s, 0), vars, keys[1..])
  {
  }

  lemma HolesOutStep(vars: Vars, keys: seq<string>, ps: seq<Piece>)
    requires keys != []
    ensures HolesOut(vars, keys[1..], Steps(Placeholder(keys[0]), vars, ps)) == HolesOut(vars, keys, ps)
  {
    forall i | 0 <= i < |ps|
      ensures HolesOut(vars, keys[1..], Steps(Placeholder(keys[0]), vars, ps))[i] == HolesOut(vars, keys, ps)[i]
    {
      ResolveHoleStep(vars, keys, ps[i]);
    }
  }

  /** The placeholder phase over `\w+` keys replaces exactly the placeholders whose key
      is among them and leaves everything else in place. */
  lemma {:induction false} PlaceholdersPieces(vars: Vars, keys: seq<string>, ps: seq<Piece>)
    requires AllWellFormed(ps) && AllFit(vars, ps)
    requires forall i :: 0 <= i < |keys| ==> IsWordString(keys[i])
    ensures Placeholders(Join(ps), vars, keys) == Join(HolesOut(vars, keys, ps))
    decreases |keys|
  {
    if keys == [] {
      HolesNoKeys(vars, ps);
    } else {
      var ps1 := Steps(Placeholder(keys[0]), vars, ps);
      WordKeysTail(keys);
      PlaceholdersCons(Join(ps), vars, keys);
      PassPieces(Placeholder(keys[0]), vars, ps);
      StepsWellFormed(Placeholder(keys[0]), vars, ps);
      PlaceholdersPieces(vars, keys[1..], ps1);
      HolesOutStep(vars, keys, ps);
    }
  }
}
