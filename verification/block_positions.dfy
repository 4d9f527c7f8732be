/** Where matches can start inside a block `open + x + close`: only at the opening
    tag, and the block's closing tag is the first one after it. */
module BlockPositions {
  import opened Wrappers
  import opened Text
  import opened Values
  import opened Scan
  import opened Template
  import opened Blocks

  /** An opening tag: `{{#…` with no further `{`. */
  predicate OpenShape(o: string) {
    |o| >= 3 && o[0] == '{' && o[1] == '{' && o[2] == '#' &&
    forall i :: 2 <= i < |o| ==> o[i] != '{'
  }

  /** A closing tag: `{{/…` with no further `{`. */
  predicate CloseShape(c: string) {
    |c| >= 3 && c[0] == '{' && c[1] == '{' && c[2] == '/' &&
    forall i :: 2 <= i < |c| ==> c[i] != '{'
  }

  lemma WordNoBrace(w: string, i: nat)
    requires IsWordString(w) && i < |w|
    ensures w[i] != '{'
  {
    assert IsWord(w[i]);
  }

  lemma OpenTagShape(c: Cond)
    requires ValidCond(c)
    ensures OpenShape(OpenTag(c))
  {
    var o := OpenTag(c);
    var k := c.key;
    forall i | 2 <= i < |o|
      ensures o[i] != '{'
    {
      match c
      case When(_) =>
        if 6 <= i < 6 + |k| { WordNoBrace(k, i - 6); }
      case Unless(_) =>
        if 7 <= i < 7 + |k| { WordNoBrace(k, i - 7); }
      case WhenEq(_, w) =>
        if 9 <= i < 9 + |k| { WordNoBrace(k, i - 9); }
        else if 12 + |k| <= i < 12 + |k| + |w| { WordNoBrace(w, i - 12 - |k|); }
    }
  }

  lemma CloseTagShape(c: Cond)
    ensures CloseShape(CloseTag(c))
  {
  }

  /** Inside the opening tag (after its first character) no `{{` starts. */
  lemma OpenDead(o: string, x: string, c: string, m: nat)
    requires OpenShape(o) && |c| > 0
    requires 1 <= m < |o|
    ensures Dead(o + x + c, m)
  {
    var t := o + x + c;
    if m == 1 {
      assert t[2] == o[2];
    } else {
      assert t[m] == o[m];
    }
  }

  /** At and after the closing tag's start no match of a keyed pass starts. */
  lemma CloseDead(o: string, x: string, c: string, m: nat)
    requires CloseShape(c)
    requires |o| + |x| <= m < |o| + |x| + |c|
    ensures Dead(o + x + c, m)
  {
    var t := o + x + c;
    var j := |o| + |x|;
    if m == j {
      assert t[m + 2] == c[2];
    } else if m == j + 1 {
      assert t[m + 1] == c[2];
    } else {
      assert t[m] == c[m - j];
    }
  }

  /** Inside the content, a `{{` starts no conditional or closing tag. */
  lemma InteriorCondDead(o: string, x: string, c: string, m: nat)
    requires CloseShape(c) && CondFree(x)
    requires |o| <= m < |o| + |x|
    ensures CondDead(o + x + c, m)
  {
    var t := o + x + c;
    var m' := m - |o|;
    if OpensAt(t, m) {
      if m' + 1 < |x| {
        assert x[m'] == t[m] && x[m' + 1] == t[m + 1];
        assert OpensAt(x, m');
        SkipWsInfix(o, x, c, m' + 2);
        var a := SkipWs(x, m' + 2);
        if a == |x| {
          assert t[|o| + a] == c[0];
        } else {
          assert t[|o| + a] == x[a];
        }
      } else {
        assert t[m + 2] == c[1];
        SkipWsUnique(t, m + 2, m + 2);
      }
    }
  }

  /** No conditional pass with a word key matches anywhere after position 0. */
  lemma TailNoCond(o: string, x: string, c: string, p: Pass)
    requires OpenShape(o) && CloseShape(c) && CondFree(x)
    requires p.IsConditional() && IsWordString(p.key)
    ensures NoMatchIn(p, o + x + c, 1, |o + x + c|)
  {
    var t := o + x + c;
    forall m | 1 <= m < |t|
      ensures MatchAt(p, t, m).None?
    {
      if m < |o| {
        OpenDead(o, x, c, m);
        DeadNoMatch(t, m, p);
      } else if m < |o| + |x| {
        InteriorCondDead(o, x, c, m);
        CondDeadNoMatch(t, m, p, "/if");
      } else {
        CloseDead(o, x, c, m);
        DeadNoMatch(t, m, p);
      }
    }
  }

  /** With plain content, no match of a keyed pass starts after position 0. */
  lemma PlainInteriorDead(o: string, x: string, c: string, m: nat)
    requires OpenShape(o) && CloseShape(c) && NoOpen(x)
    requires 1 <= m < |o + x + c|
    ensures Dead(o + x + c, m)
  {
    var t := o + x + c;
    if m < |o| {
      OpenDead(o, x, c, m);
    } else if m >= |o| + |x| {
      CloseDead(o, x, c, m);
    } else if m + 1 < |o| + |x| {
      assert t[m] == x[m - |o|] && t[m + 1] == x[m - |o| + 1];
      assert !OpensAt(x, m - |o|);
    } else {
      assert t[m + 1] == c[0] && t[m + 2] == c[1];
    }
  }
}
