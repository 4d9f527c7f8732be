/** The template renderer `processTemplate`: conditional passes per key, then the
    `capitalizeFirstLetter` helper, then placeholder substitution per key. Each pass
    is one global `String.replace`: it scans left to right, replaces each match and
    resumes after it, never re-reading replaced text within the same pass. */
module Template {
  import opened Wrappers
  import opened Text
  import opened Values
  import opened Scan

  /** The text a conditional or placeholder match is replaced with. */
  function Replacement(p: Pass, vars: Vars, h: Hit): string
    requires !p.Helper?
  {
    match p
    case IfTruthy(k) => if Truthy(ValueOf(vars, k)) then h.content else ""
    case IfFalsy(k) => if !Truthy(ValueOf(vars, k)) then h.content else ""
    case IfEq(k) => if ValueOf(vars, k) == Str(h.word) then h.content else ""
    case Placeholder(k) => ToStringForm(ValueOf(vars, k))
  }

  /** No match of `p` starts in `[i, j)`. */
  predicate NoMatchIn(p: Pass, s: string, i: nat, j: nat)
    requires j <= |s|
  {
    forall m :: i <= m < j ==> MatchAt(p, s, m).None?
  }

  /** `s.replace(globalRegexOf(p), …)` on the suffix of `s` from `i`. */
  function Rewrite(p: Pass, vars: Vars, s: string, i: nat): (r: string)
    requires !p.Helper?
    requires i <= |s|

    decreases |s| - i
  {
    if i == |s| then ""
    else match MatchAt(p, s, i)
      case Some(h) => Replacement(p, vars, h) + Rewrite(p, vars, s, h.end)
      case None => [s[i]] + Rewrite(p, vars, s, i + 1)
  }

  /** The helper pass: `{{capitalizeFirstLetter v}}` becomes the capitalised value of
      `v`, stays verbatim when `v` is undefined, and throws (`Err(v)`) when the value
      is not a string, since `charAt` does not exist on booleans and numbers. */
  function HelperRewrite(vars: Vars, s: string, i: nat): (r: Result<string>)
    requires i <= |s|
    decreases |s| - i
  {
    if i == |s| then Ok("")
    else match MatchAt(Helper, s, i)
      case None =>
        (match HelperRewrite(vars, s, i + 1)
         case Ok(rest) => Ok([s[i]] + rest)
         case Err(e) => Err(e))
      case Some(h) =>
        var v := ValueOf(vars, h.word);
        if v.Bool? || v.Int? then Err(h.word)
        else
          var out := if v.Str? then Capitalize(v.s) else s[i..h.end];
          match HelperRewrite(vars, s, h.end)
          case Ok(rest) => Ok(out + rest)
          case Err(e) => Err(e)
  }

  /** The three conditional passes for one key, in source order. */
  function ConditionalsFor(s: string, vars: Vars, k: string): string {
    var t := Rewrite(IfTruthy(k), vars, s, 0);
    var f := Rewrite(IfFalsy(k), vars, t, 0);
    Rewrite(IfEq(k), vars, f, 0)
  }

  /** The first `forEach`: conditional passes for every key in order. */
  function Conditionals(s: string, vars: Vars, keys: seq<string>): string
    decreases |keys|
  {
    if keys == [] then s else Conditionals(ConditionalsFor(s, vars, keys[0]), vars, keys[1..])
  }

  /** The second `forEach`: placeholder passes for every key in order. */
  function Placeholders(s: string, vars: Vars, keys: seq<string>): string
    decreases |keys|
  {
    if keys == [] then s
    else Placeholders(Rewrite(Placeholder(keys[0]), vars, s, 0), vars, keys[1..])
  }

  /** `processTemplate(template, vars)`. */
  function Render(template: string, vars: Vars): Result<string> {
    var c := Conditionals(template, vars, Keys(vars));
    match HelperRewrite(vars, c, 0)
    case Err(e) => Err(e)
    case Ok(h) => Ok(Placeholders(h, vars, Keys(vars)))
  }

  /** One match of the diagnostic `{{.*?}}`: from `{{` to the first `}}` with no
      line terminator in between (`.` does not cross line ends). */
  predicate IsLineTerminator(c: char) {
    c == '\n' || c == '\r' || c as int == 0x2028 || c as int == 0x2029
  }

  function LeftoverEnd(s: string, j: nat): (r: Option<nat>)
    requires j <= |s|
    ensures r.Some? ==> j + 2 <= r.value <= |s| && LitAt(s, r.value - 2, "}}")
    decreases |s| - j
  {
    if LitAt(s, j, "}}") then Some(j + 2)
    else if j == |s| || IsLineTerminator(s[j]) then None
    else LeftoverEnd(s, j + 1)
  }

  /** `result.match(/{{.*?}}/g)`: the tokens left after rendering, which the source
      only reports as a warning. */
  function Leftovers(s: string, i: nat): (r: seq<string>)
    requires i <= |s|
    ensures forall t :: t in r ==> |t| >= 4 && t[..2] == "{{" && t[|t| - 2..] == "}}"
    ensures (forall m :: i <= m < |s| ==> !OpensAt(s, m)) ==> r == []
    decreases |s| - i
  {
    if i == |s| then []
    else if LitAt(s, i, "{{") then
      assert OpensAt(s, i) by {
        assert s[i] == s[i..i + 2][0] && s[i + 1] == s[i..i + 2][1];
      }
      match LeftoverEnd(s, i + 2)
      case Some(e) =>
        assert s[i..e][..2] == s[i..i + 2];
        assert s[i..e][|s[i..e]| - 2..] == s[e - 2..e];
        [s[i..e]] + Leftovers(s, e)
      case None => Leftovers(s, i + 1)
    else Leftovers(s, i + 1)
  }
}
