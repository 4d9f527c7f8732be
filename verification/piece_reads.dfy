/** What each pass finds at a piece sitting anywhere in a text: a reading pass matches
    the whole piece at its start, and no other match starts inside it. */
module PieceReads {
  import opened Wrappers
  import opened Text
  import opened Scan
  import opened Template
  import opened Blocks
  import opened BlockPositions
  import opened BlockReads
  import opened Tokens
  import opened Pieces

  // ---- positions where nothing starts ----

  /** No match starts inside plain text, whatever follows it. */
  lemma PlainDead(t: string, j: nat, s: string, i: nat)
    requires PlainText(s) && LitAt(t, j, s) && i < |s|
    ensures Dead(t, j + i)
  {
    LitAtChar(t, j, s, i);
    if i + 1 < |s| {
      LitAtChar(t, j, s, i + 1);
      assert !OpensAt(s, i);
    }
  }

  /** Inside a block with plain content, past its first character, no match starts. */
  lemma BlockInteriorDead(t: string, j: nat, c: Cond, x: string, m: nat)
    requires ValidCond(c) && NoOpen(x) && LitAt(t, j, BlockText(c, x))
    requires 1 <= m < |BlockText(c, x)|
    ensures Dead(t, j + m)
  {
    var b := BlockText(c, x);
    OpenTagShape(c);
    CloseTagShape(c);
    PlainInteriorDead(OpenTag(c), x, CloseTag(c), m);
    assert b[|b| - 1] == CloseTag(c)[|CloseTag(c)| - 1];
    DeadIn(t, j, b, m);
  }

  /** Inside `{{body}}` with a brace-free body, past its first character, no match starts. */
  lemma BracedInteriorDead(t: string, j: nat, body: string, m: nat)
    requires NoBrace(body) && LitAt(t, j, "{{" + body + "}}")
    requires 1 <= m < |body| + 4
    ensures Dead(t, j + m)
  {
    var w := "{{" + body + "}}";
    BracedDead(body, m);
    assert w[|w| - 1] == '}';
    DeadIn(t, j, w, m);
  }

  /** A stray closing tag starts no match anywhere. */
  lemma StrayDead(t: string, j: nat, eq: bool, m: nat)
    requires LitAt(t, j, StrayTag(eq)) && m < |StrayTag(eq)|
    ensures Dead(t, j + m)
  {
    var body := if eq then "/if_eq" else "/if";
    assert StrayTag(eq) == "{{" + body + "}}";
    if m == 0 {
      LitAtChar(t, j, StrayTag(eq), 2);
    } else {
      BracedInteriorDead(t, j, body, m);
    }
  }

  // ---- the first position of a piece ----

  /** At `{{#`, neither the helper pass nor a placeholder pass matches. */
  lemma HashStartNoToken(t: string, j: nat, p: Pass)
    requires LitAt(t, j, "{{") && j + 2 < |t| && t[j + 2] == '#'
    requires p.Helper? || (p.Placeholder? && IsWordString(p.key))
    ensures MatchAt(p, t, j).None?
  {
    SkipWsUnique(t, j + 2, j + 2);
    LitAtHead(t, j + 2, HelperName);
    if p.Placeholder? {
      LitAtHead(t, j + 2, p.key);
    }
  }

  /** An opening tag starts with `{{#`. */
  lemma OpenTagHash(c: Cond)
    ensures |OpenTag(c)| > 2 && OpenTag(c)[..2] == "{{" && OpenTag(c)[2] == '#'
  {
  }

  /** A block at `j`: its own pass reads all of it, every other keyed pass nothing. */
  lemma BlockStart(t: string, j: nat, e: nat, c: Cond, x: string, p: Pass)
    requires ValidCond(c) && NoOpen(x) && Keyed(p) && LitAt(t, j, BlockText(c, x))
    requires e == j + |BlockText(c, x)|
    ensures MatchAt(p, t, j) == (if p == PassOf(c) then Some(Hit(e, WordOf(c), x)) else None)
  {
    var o, z := OpenTag(c), CloseTag(c);
    LitAtSplit3(t, j, o, x, z);
    assert e == j + |o| + |x| + |z|;
    if p.IsConditional() {
      BlockMatchAt(t, j, c, o, x, z, p);
    } else {
      BlockStartToken(t, j, c, o, p);
    }
  }

  /** Neither the helper pass nor a placeholder pass reads an opening tag. */
  lemma BlockStartToken(t: string, j: nat, c: Cond, o: string, p: Pass)
    requires o == OpenTag(c) && LitAt(t, j, o)
    requires p.Helper? || (p.Placeholder? && IsWordString(p.key))
    ensures MatchAt(p, t, j).None?
  {
    OpenTagHash(c);
    LitAtSub(t, j, o, 0, 2);
    LitAtChar(t, j, o, 2);
    HashStartNoToken(t, j, p);
  }

  /** `{{` then white space up to a word character: no conditional pass matches. */
  lemma WordStartNoCond(t: string, j: nat, b: nat, p: Pass)
    requires j + 2 <= |t| && SkipWs(t, j + 2) == b && b < |t| && IsWord(t[b])
    requires p.IsConditional()
    ensures MatchAt(p, t, j).None?
  {
    assert CondDead(t, j);
    CondDeadNoMatch(t, j, p, "/if");
  }

  /** A placeholder at `j`: only the pass of its own key reads it. */
  lemma HoleStart(t: string, j: nat, w1: string, k: string, w2: string, p: Pass)
    requires AllSpace(w1) && IsWordString(k) && AllSpace(w2) && Keyed(p)
    requires LitAt(t, j, PlaceholderToken(w1, k, w2))
    ensures MatchAt(p, t, j)
         == (if p == Placeholder(k) then Some(Hit(j + |PlaceholderToken(w1, k, w2)|, "", "")) else None)
  {
    match p
    case Placeholder(k') =>
      PlaceholderMatch(t, j, w1, k, w2, k');
    case Helper =>
      PlaceholderNoHelper(t, j, w1, k, w2);
    case _ =>
      Tokens.PlaceholderAt(t, j, w1, k, w2);
      LitAtChar(t, j + 2 + |w1|, k, 0);
      WordStartNoCond(t, j, j + 2 + |w1|, p);
  }

  /** A helper call at `j`: only the helper pass reads it. */
  lemma CallStart(t: string, j: nat, v: string, p: Pass)
    requires IsWordString(v) && Keyed(p) && LitAt(t, j, HelperToken(v))
    ensures MatchAt(p, t, j)
         == (if p == Helper then Some(Hit(j + |HelperToken(v)|, v, "")) else None)
  {
    match p
    case Helper =>
      HelperTokenMatch(t, j, v);
    case Placeholder(k) =>
      HelperTokenStartNoPlaceholder(t, j, v, k);
    case _ =>
      CallNoCond(t, j, v, p);
  }

  /** No conditional pass reads a helper call: its name follows the `{{` directly. */
  lemma CallNoCond(t: string, j: nat, v: string, p: Pass)
    requires IsWordString(v) && p.IsConditional() && LitAt(t, j, HelperToken(v))
    ensures MatchAt(p, t, j).None?
  {
    LitAtSplit5(t, j, "{{", HelperName, " ", v, "}}");
    LitAtChar(t, j + 2, HelperName, 0);
    HelperNameLetters(0);
    SkipWsUnique(t, j + 2, j + 2);
    WordStartNoCond(t, j, j + 2, p);
  }

  // ---- a whole piece ----

  /** No keyed pass matches inside a piece, past its first position. */
  lemma PieceInterior(p: Pass, t: string, j: nat, q: Piece)
    requires WellFormed(q) && Keyed(p) && LitAt(t, j, Src(q))
    ensures NoMatchIn(p, t, j + 1, j + |Src(q)|)
  {
    forall m | j + 1 <= m < j + |Src(q)|
      ensures MatchAt(p, t, m).None?
    {
      PieceDeadAt(t, j, q, m - j);
      DeadNoMatch(t, m, p);
    }
  }

  /** The positions of a piece past its first one start nothing; in plain text and a
      stray tag not even the first one does. */
  lemma PieceDeadAt(t: string, j: nat, q: Piece, i: nat)
    requires WellFormed(q) && LitAt(t, j, Src(q)) && i < |Src(q)|
    requires i > 0 || q.Verbatim? || q.Stray?
    ensures Dead(t, j + i)
  {
    match q
    case Verbatim(s) =>
      PlainDead(t, j, s, i);
    case Block(c, x) =>
      BlockInteriorDead(t, j, c, x, i);
    case Hole(w1, k, w2) =>
      PlaceholderBody(w1, k, w2);
      BracedInteriorDead(t, j, w1 + k + w2, i);
    case Call(v) =>
      HelperBody(v);
      BracedInteriorDead(t, j, HelperName + " " + v, i);
    case Stray(eq) =>
      StrayDead(t, j, eq, i);
  }

  /** What a keyed pass finds at the first position of a piece. */
  lemma PieceStart(p: Pass, t: string, j: nat, q: Piece)
    requires WellFormed(q) && Keyed(p) && LitAt(t, j, Src(q)) && |Src(q)| > 0
    ensures MatchAt(p, t, j) == (if Reads(p, q) then Some(HitOf(q, j)) else None)
  {
    match q
    case Verbatim(_) =>
      DeadPieceStart(p, t, j, q);
    case Block(c, x) =>
      BlockPieceStart(p, t, j, q, c, x);
    case Hole(w1, k, w2) =>
      HolePieceStart(p, t, j, q, w1, k, w2);
    case Call(v) =>
      CallPieceStart(p, t, j, q, v);
    case Stray(_) =>
      DeadPieceStart(p, t, j, q);
  }

  lemma DeadPieceStart(p: Pass, t: string, j: nat, q: Piece)
    requires q.Verbatim? || q.Stray?
    requires WellFormed(q) && Keyed(p) && LitAt(t, j, Src(q)) && |Src(q)| > 0
    ensures MatchAt(p, t, j) == (if Reads(p, q) then Some(HitOf(q, j)) else None)
  {
    PieceDeadAt(t, j, q, 0);
    DeadNoMatch(t, j, p);
  }

  lemma BlockPieceStart(p: Pass, t: string, j: nat, q: Piece, c: Cond, x: string)
    requires q == Block(c, x) && ValidCond(c) && NoOpen(x) && Keyed(p)
    requires LitAt(t, j, BlockText(c, x))
    ensures MatchAt(p, t, j) == (if Reads(p, q) then Some(HitOf(q, j)) else None)
  {
    var e := j + |BlockText(c, x)|;
    BlockStart(t, j, e, c, x, p);
    BlockHit(p, j, e, q, c, x);
  }

  lemma BlockHit(p: Pass, j: nat, e: nat, q: Piece, c: Cond, x: string)
    requires q == Block(c, x) && e == j + |BlockText(c, x)|
    ensures (if Reads(p, q) then Some(HitOf(q, j)) else None)
         == (if p == PassOf(c) then Some(Hit(e, WordOf(c), x)) else None)
  {
  }

  lemma HolePieceStart(p: Pass, t: string, j: nat, q: Piece, w1: string, k: string, w2: string)
    requires q == Hole(w1, k, w2) && AllSpace(w1) && IsWordString(k) && AllSpace(w2) && Keyed(p)
    requires LitAt(t, j, PlaceholderToken(w1, k, w2))
    ensures MatchAt(p, t, j) == (if Reads(p, q) then Some(HitOf(q, j)) else None)
  {
    HoleStart(t, j, w1, k, w2, p);
    HoleHit(p, j, q, w1, k, w2);
  }

  lemma HoleHit(p: Pass, j: nat, q: Piece, w1: string, k: string, w2: string)
    requires q == Hole(w1, k, w2)
    ensures (if Reads(p, q) then Some(HitOf(q, j)) else None)
         == (if p == Placeholder(k) then Some(Hit(j + |PlaceholderToken(w1, k, w2)|, "", "")) else None)
  {
  }

  lemma CallPieceStart(p: Pass, t: string, j: nat, q: Piece, v: string)
    requires q == Call(v) && IsWordString(v) && Keyed(p) && LitAt(t, j, HelperToken(v))
    ensures MatchAt(p, t, j) == (if Reads(p, q) then Some(HitOf(q, j)) else None)
  {
    CallStart(t, j, v, p);
    CallHit(p, j, q, v);
  }

  lemma CallHit(p: Pass, j: nat, q: Piece, v: string)
    requires q == Call(v)
    ensures (if Reads(p, q) then Some(HitOf(q, j)) else None)
         == (if p == Helper then Some(Hit(j + |HelperToken(v)|, v, "")) else None)
  {
  }

  /** A keyed pass at a piece: it reads the whole piece when the piece is its own, and
      otherwise finds no match anywhere in it. */
  lemma PieceMatch(p: Pass, t: string, j: nat, q: Piece)
    requires WellFormed(q) && Keyed(p) && LitAt(t, j, Src(q))
    ensures Reads(p, q) ==> MatchAt(p, t, j) == Some(HitOf(q, j))
    ensures !Reads(p, q) ==> NoMatchIn(p, t, j, j + |Src(q)|)
  {
    if |Src(q)| > 0 {
      PieceStart(p, t, j, q);
      PieceInterior(p, t, j, q);
    }
  }
}
