/** The values a template can be rendered with, and the variable map. */
module Values {
  import opened Text

  /** A JavaScript value as it reaches the renderer; `Undefined` is JS `undefined`,
      which is also what reading an absent key yields. */
  datatype Value = Str(s: string) | Bool(b: bool) | Int(n: int) | Undefined

  /** JavaScript truthiness: `""`, `false`, `0` and `undefined` are falsy. */
  predicate Truthy(v: Value) {
    match v
    case Str(s) => s != ""
    case Bool(b) => b
    case Int(n) => n != 0
    case Undefined => false
  }

  /** `v?.toString() || ''`: the text a placeholder is replaced with. */
  function ToStringForm(v: Value): (r: string)
    ensures v.Str? ==> r == v.s
    ensures v.Bool? ==> r == (if v.b then "true" else "false")
    ensures v.Int? ==> r == IntToString(v.n)
    ensures v.Undefined? ==> r == ""
    ensures r == "" ==> !Truthy(v)
  {
    match v
    case Str(s) => s
    case Bool(b) => if b then "true" else "false"
    case Int(n) => IntToString(n)
    case Undefined => ""
  }

  /** A variable map in `Object.keys` order: each entry is (key, value). */
  type Vars = seq<(string, Value)>

  function Keys(vars: Vars): (ks: seq<string>)
    ensures |ks| == |vars|
    ensures forall i :: 0 <= i < |vars| ==> ks[i] == vars[i].0
  {
    if vars == [] then [] else [vars[0].0] + Keys(vars[1..])
  }

  /** `vars[k]`: the value bound to `k`, or `undefined` when `k` is not a key. */
  function ValueOf(vars: Vars, k: string): (v: Value)
    ensures k !in Keys(vars) ==> v == Undefined
    ensures forall i :: 0 <= i < |vars| && vars[i].0 == k && (forall j :: 0 <= j < i ==> vars[j].0 != k) ==> v == vars[i].1
  {
    if vars == [] then Undefined
    else if vars[0].0 == k then vars[0].1
    else ValueOf(vars[1..], k)
  }

  /** The keys of a JavaScript object are distinct; the renderer splices them into
      its patterns, so they must be plain identifiers (`\w+`). */
  predicate ValidVars(vars: Vars) {
    && (forall i, j :: 0 <= i < j < |vars| ==> vars[i].0 != vars[j].0)
    && (forall i :: 0 <= i < |vars| ==> IsWordString(vars[i].0))
  }

  /** Every value is a string, as in the module generators' variable maps. */
  predicate AllStrings(vars: Vars) {
    forall i :: 0 <= i < |vars| ==> vars[i].1.Str?
  }

  /** With distinct keys, the value of the i-th key is the i-th value. */
  lemma ValueOfDistinct(vars: Vars, i: nat)
    requires ValidVars(vars) && i < |vars|
    ensures ValueOf(vars, vars[i].0) == vars[i].1
  {
  }

  /** The properties every plain JavaScript object inherits from `Object.prototype`.
      `vars[w]` reads one of them when `w` is not an own key. */
  predicate Inherited(w: string) {
    w in {"constructor", "hasOwnProperty", "isPrototypeOf", "propertyIsEnumerable",
          "toLocaleString", "toString", "valueOf", "__proto__", "__defineGetter__",
          "__defineSetter__", "__lookupGetter__", "__lookupSetter__"}
  }

  /** In an all-string map no lookup yields a non-string value. */
  lemma AllStringsLookup(vars: Vars, k: string)
    requires AllStrings(vars)
    ensures ValueOf(vars, k).Str? || ValueOf(vars, k).Undefined?
  {
    if vars != [] && vars[0].0 != k {
      AllStringsLookup(vars[1..], k);
    }
  }
}
