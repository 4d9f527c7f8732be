/** Character classes and small string scanners shared by the template
    renderer and the file-name tables. Strings are `seq<char>`. */
module Text {

  /** JavaScript's `\s`: the ECMAScript white-space and line-terminator code points. */
  predicate IsSpace(c: char) {
    var n := c as int;
    (0x09 <= n <= 0x0D) || n == 0x20 || n == 0xA0 || n == 0x1680
    || (0x2000 <= n <= 0x200A) || n == 0x2028 || n == 0x2029
    || n == 0x202F || n == 0x205F || n == 0x3000 || n == 0xFEFF
  }

  /** JavaScript's `\w`: ASCII letters, digits and underscore. */
  predicate IsWord(c: char) {
    ('a' <= c <= 'z') || ('A' <= c <= 'Z') || ('0' <= c <= '9') || c == '_'
  }

  predicate AllSpace(s: string) {
    forall i :: 0 <= i < |s| ==> IsSpace(s[i])
  }

  /** A non-empty run of word characters: the shape of `\w+`. */
  predicate IsWordString(s: string) {
    |s| > 0 && forall i :: 0 <= i < |s| ==> IsWord(s[i])
  }

  /** `lit` occurs in `s` starting at position `i`. */
  predicate LitAt(s: string, i: nat, lit: string) {
    i + |lit| <= |s| && s[i..i + |lit|] == lit
  }

  /** A `{{` starts at position `i`. */
  predicate OpensAt(s: string, i: nat) {
    i + 1 < |s| && s[i] == '{' && s[i + 1] == '{'
  }

  /** `s` contains no `{{` anywhere. */
  predicate NoOpen(s: string) {
    forall i: nat :: i < |s| ==> !OpensAt(s, i)
  }

  /** Greedy `\s*` from `i`: the first position at or after `i` that is not white space. */
  function SkipWs(s: string, i: nat): (j: nat)
    requires i <= |s|
    ensures i <= j <= |s|
    ensures j == |s| || !IsSpace(s[j])
    decreases |s| - i
  {
    if i < |s| && IsSpace(s[i]) then SkipWs(s, i + 1) else i
  }

  /** Greedy `\w*` from `i`: the first position at or after `i` that is not a word character. */
  function SkipWord(s: string, i: nat): (j: nat)
    requires i <= |s|
    ensures i <= j <= |s|
    ensures j == |s| || !IsWord(s[j])
    decreases |s| - i
  {
    if i < |s| && IsWord(s[i]) then SkipWord(s, i + 1) else i
  }

  /** Everything `\s*` passes over is white space. */
  lemma {:induction false} SkipWsSpaces(s: string, i: nat)
    requires i <= |s|
    ensures forall m :: i <= m < SkipWs(s, i) ==> IsSpace(s[m])
    decreases |s| - i
  {
    if i < |s| && IsSpace(s[i]) {
      SkipWsSpaces(s, i + 1);
    }
  }

  /** Everything `\w*` passes over is a word character. */
  lemma {:induction false} SkipWordChars(s: string, i: nat)
    requires i <= |s|
    ensures forall m :: i <= m < SkipWord(s, i) ==> IsWord(s[m])
    decreases |s| - i
  {
    if i < |s| && IsWord(s[i]) {
      SkipWordChars(s, i + 1);
    }
  }

  /** The end of a white-space run is determined by its two defining properties. */
  lemma {:induction false} SkipWsUnique(s: string, i: nat, j: nat)
    requires i <= j <= |s|
    requires forall m :: i <= m < j ==> IsSpace(s[m])
    requires j == |s| || !IsSpace(s[j])
    ensures SkipWs(s, i) == j
    decreases j - i
  {
    if i < j {
      SkipWsUnique(s, i + 1, j);
    }
  }

  /** The end of a word run is determined by its two defining properties. */
  lemma {:induction false} SkipWordUnique(s: string, i: nat, j: nat)
    requires i <= j <= |s|
    requires forall m :: i <= m < j ==> IsWord(s[m])
    requires j == |s| || !IsWord(s[j])
    ensures SkipWord(s, i) == j
    decreases j - i
  {
    if i < j {
      SkipWordUnique(s, i + 1, j);
    }
  }

  /** The word `w` sits at `b` and is not followed by another word character. */
  predicate WordAt(s: string, b: nat, w: string) {
    IsWordString(w) && LitAt(s, b, w) && (b + |w| == |s| || !IsWord(s[b + |w|]))
  }

  /** A maximal word at a position is the word run found there. */
  lemma WordAtIsRun(s: string, b: nat, w: string)
    requires WordAt(s, b, w)
    ensures SkipWord(s, b) == b + |w|
    ensures s[b..SkipWord(s, b)] == w
  {
    forall m | b <= m < b + |w|
      ensures IsWord(s[m])
    {
      assert s[m] == s[b..b + |w|][m - b];
    }
    SkipWordUnique(s, b, b + |w|);
  }

  /** Two maximal words at the same position are the same word. */
  lemma WordAtUnique(s: string, b: nat, w1: string, w2: string)
    requires WordAt(s, b, w1) && WordAt(s, b, w2)
    ensures w1 == w2
  {
    WordAtIsRun(s, b, w1);
    WordAtIsRun(s, b, w2);
  }

  /** ASCII `toUpperCase`. */
  function ToUpper(c: char): (u: char)
    ensures 'a' <= c <= 'z' ==> 'A' <= u <= 'Z' && u as int == c as int - 32
    ensures !('a' <= c <= 'z') ==> u == c
  {
    if 'a' <= c <= 'z' then (c as int - 32) as char else c
  }

  /** `str.charAt(0).toUpperCase() + str.slice(1)`. */
  function Capitalize(s: string): (r: string)
    ensures |r| == |s|
    ensures |s| > 0 ==> r[0] == ToUpper(s[0])
    ensures forall i :: 1 <= i < |s| ==> r[i] == s[i]
  {
    if s == [] then [] else [ToUpper(s[0])] + s[1..]
  }

  /** Capitalising twice is capitalising once. */
  lemma CapitalizeIdempotent(s: string)
    ensures Capitalize(Capitalize(s)) == Capitalize(s)
  {
  }

  /** Capitalising never creates a `{{`. */
  lemma CapitalizeKeepsNoOpen(s: string)
    requires NoOpen(s)
    ensures NoOpen(Capitalize(s))
  {
    var r := Capitalize(s);
    forall i | 0 <= i < |r|
      ensures r[i] == '{' ==> s[i] == '{'
    {
    }
    forall i: nat | i < |r|
      ensures !OpensAt(r, i)
    {
      assert !OpensAt(s, i);
    }
  }

  function DigitChar(d: nat): (c: char)
    requires d < 10
    ensures '0' <= c <= '9'
  {
    ('0' as int + d) as char
  }

  /** Decimal form of a natural number, most significant digit first. */
  function NatToString(n: nat): (r: string)
    ensures |r| > 0
    ensures forall i :: 0 <= i < |r| ==> '0' <= r[i] <= '9'
    decreases n
  {
    if n < 10 then [DigitChar(n)] else NatToString(n / 10) + [DigitChar(n % 10)]
  }

  /** JavaScript's `Number.prototype.toString()` on an integer. */
  function IntToString(n: int): (r: string)
    ensures |r| > 0
    ensures forall i :: 0 <= i < |r| ==> r[i] == '-' || '0' <= r[i] <= '9'
    ensures (r[0] == '-') <==> n < 0
  {
    if n < 0 then "-" + NatToString(-n) else NatToString(n)
  }

  /** A string without `{` has no `{{`. */
  lemma NoBraceNoOpen(s: string)
    requires forall i :: 0 <= i < |s| ==> s[i] != '{'
    ensures NoOpen(s)
  {
    forall i: nat | i < |s|
      ensures !OpensAt(s, i)
    {
    }
  }

  /** `pat` occurs in `s` at some position. */
  predicate Contains(s: string, pat: string) {
    exists i: nat :: i < |s| && LitAt(s, i, pat)
  }

  /** JavaScript's `s.replace(pat, rep)` with a string pattern: only the first
      occurrence is replaced. */
  function ReplaceFirst(s: string, pat: string, rep: string): (r: string)
    requires |pat| > 0
    ensures !Contains(s, pat) ==> r == s
    decreases |s|
  {
    if |s| < |pat| then s
    else if s[..|pat|] == pat then
      assert LitAt(s, 0, pat);
      rep + s[|pat|..]
    else
      var rest := ReplaceFirst(s[1..], pat, rep);
      assert !Contains(s, pat) ==> !Contains(s[1..], pat) by {
        if Contains(s[1..], pat) {
          var i: nat :| i < |s[1..]| && LitAt(s[1..], i, pat);
          assert s[i + 1..i + 1 + |pat|] == s[1..][i..i + |pat|];
          assert LitAt(s, i + 1, pat);
        }
      }
      [s[0]] + rest
  }
}
