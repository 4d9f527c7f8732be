/** The generator's options and how `copyTemplate` renders a template with them:
    the options spread into a variable map, overridden by the call's extra variables. */
module Options {
  import opened Wrappers
  import opened Text
  import opened Values
  import opened Template
  import opened RenderLaws

  /** The answers to the project prompts. */
  datatype Options = Options(projectName: string, authentication: bool, swagger: bool, docker: bool, testing: bool)

  /** The options as a variable map, keys in the order the prompts ask them. */
  function OptionVars(o: Options): (r: Vars)
    ensures ValidVars(r)
    ensures Keys(r) == ["projectName", "authentication", "swagger", "docker", "testing"]
  {
    [("projectName", Str(o.projectName)), ("authentication", Bool(o.authentication)),
     ("swagger", Bool(o.swagger)), ("docker", Bool(o.docker)), ("testing", Bool(o.testing))]
  }

  /** Each option reads back under its own key: the name as a string, the features as booleans. */
  lemma OptionValues(o: Options)
    ensures ValueOf(OptionVars(o), "projectName") == Str(o.projectName)
    ensures ValueOf(OptionVars(o), "authentication") == Bool(o.authentication)
    ensures ValueOf(OptionVars(o), "swagger") == Bool(o.swagger)
    ensures ValueOf(OptionVars(o), "docker") == Bool(o.docker)
    ensures ValueOf(OptionVars(o), "testing") == Bool(o.testing)
  {
    var r := OptionVars(o);
    ValueOfDistinct(r, 0);
    ValueOfDistinct(r, 1);
    ValueOfDistinct(r, 2);
    ValueOfDistinct(r, 3);
    ValueOfDistinct(r, 4);
  }

  /** The base keys in their places, each taking the extra value when the extra map has it. */
  function Overlay(base: Vars, extra: Vars): (r: Vars)
    ensures Keys(r) == Keys(base)
    decreases |base|
  {
    if base == [] then []
    else
      var k := base[0].0;
      [(k, if k in Keys(extra) then ValueOf(extra, k) else base[0].1)] + Overlay(base[1..], extra)
  }

  /** The extra entries whose keys the base lacks, in the extra map's order. */
  function Fresh(base: Vars, extra: Vars): (r: Vars)
    ensures forall k :: k in Keys(r) ==> k in Keys(extra) && k !in Keys(base)
    decreases |extra|
  {
    if extra == [] then []
    else (if extra[0].0 in Keys(base) then [] else [extra[0]]) + Fresh(base, extra[1..])
  }

  /** `{ ...base, ...extra }`: the base keys first, in their order, then the new keys. */
  function Merge(base: Vars, extra: Vars): Vars {
    Overlay(base, extra) + Fresh(base, extra)
  }

  lemma {:induction false} KeysConcat(a: Vars, b: Vars)
    ensures Keys(a + b) == Keys(a) + Keys(b)
    decreases |a|
  {
    if a != [] {
      assert (a + b)[1..] == a[1..] + b;
      KeysConcat(a[1..], b);
    }
  }

  /** A lookup in a joined map finds the first map's binding, else the second's. */
  lemma {:induction false} ValueOfConcat(a: Vars, b: Vars, k: string)
    ensures ValueOf(a + b, k) == if k in Keys(a) then ValueOf(a, k) else ValueOf(b, k)
    decreases |a|
  {
    if a != [] {
      assert (a + b)[1..] == a[1..] + b;
      assert (a + b)[0] == a[0];
      ValueOfConcat(a[1..], b, k);
      assert Keys(a) == [a[0].0] + Keys(a[1..]);
    } else {
      assert a + b == b;
    }
  }

  lemma {:induction false} OverlayValue(base: Vars, extra: Vars, k: string)
    ensures ValueOf(Overlay(base, extra), k) ==
      if k !in Keys(base) then Undefined else if k in Keys(extra) then ValueOf(extra, k) else ValueOf(base, k)
    decreases |base|
  {
    if base != [] {
      OverlayValue(base[1..], extra, k);
      assert Keys(base) == [base[0].0] + Keys(base[1..]);
    }
  }

  lemma {:induction false} FreshValue(base: Vars, extra: Vars, k: string)
    requires k !in Keys(base)
    ensures ValueOf(Fresh(base, extra), k) == ValueOf(extra, k)
    decreases |extra|
  {
    if extra != [] {
      FreshValue(base, extra[1..], k);
      var head: Vars := if extra[0].0 in Keys(base) then [] else [extra[0]];
      ValueOfConcat(head, Fresh(base, extra[1..]), k);
    }
  }

  /** Whether a map is valid depends on its keys only. */
  lemma SameKeysValid(a: Vars, b: Vars)
    requires Keys(a) == Keys(b)
    ensures ValidVars(a) == ValidVars(b)
  {
    assert forall i :: 0 <= i < |a| ==> a[i].0 == Keys(a)[i] == b[i].0;
  }

  /** A valid map minus its first entry is valid, and does not hold the first key. */
  lemma TailValid(v: Vars)
    requires ValidVars(v) && v != []
    ensures ValidVars(v[1..]) && v[0].0 !in Keys(v[1..]) && IsWordString(v[0].0)
  {
    var rest := v[1..];
    assert forall i :: 0 <= i < |rest| ==> rest[i] == v[i + 1];
  }

  /** Two valid maps with no key in common join into a valid map. */
  lemma ConcatValid(a: Vars, b: Vars)
    requires ValidVars(a) && ValidVars(b)
    requires forall k :: k in Keys(b) ==> k !in Keys(a)
    ensures ValidVars(a + b)
  {
    var r := a + b;
    forall i, j | 0 <= i < j < |r| ensures r[i].0 != r[j].0 {
      ConcatKeyPair(a, b, i, j);
    }
    forall i | 0 <= i < |r| ensures IsWordString(r[i].0) {
      if i < |a| {
        assert r[i] == a[i];
      } else {
        assert r[i] == b[i - |a|];
      }
    }
  }

  lemma ConcatKeyPair(a: Vars, b: Vars, i: nat, j: nat)
    requires ValidVars(a) && ValidVars(b)
    requires forall k :: k in Keys(b) ==> k !in Keys(a)
    requires i < j < |a + b|
    ensures (a + b)[i].0 != (a + b)[j].0
  {
    var r := a + b;
    if j < |a| {
      assert r[i] == a[i] && r[j] == a[j];
    } else if i < |a| {
      var ka, kb := Keys(a), Keys(b);
      assert r[i].0 == ka[i];
      assert r[j].0 == kb[j - |a|];
      assert kb[j - |a|] in kb;
    } else {
      assert r[i] == b[i - |a|] && r[j] == b[j - |a|];
    }
  }

  lemma {:induction false} FreshValid(base: Vars, extra: Vars)
    requires ValidVars(extra)
    ensures ValidVars(Fresh(base, extra))
    decreases |extra|
  {
    if extra != [] {
      TailValid(extra);
      FreshValid(base, extra[1..]);
      var head: Vars := if extra[0].0 in Keys(base) then [] else [extra[0]];
      ConcatValid(head, Fresh(base, extra[1..]));
    }
  }

  /** The spread keeps the keys distinct and plain. */
  lemma MergeValid(base: Vars, extra: Vars)
    requires ValidVars(base) && ValidVars(extra)
    ensures ValidVars(Merge(base, extra))
  {
    SameKeysValid(Overlay(base, extra), base);
    FreshValid(base, extra);
    ConcatValid(Overlay(base, extra), Fresh(base, extra));
  }

  /** Each key of the spread reads the extra value when the extra map binds it, and the
      base value otherwise. */
  lemma MergeLookup(base: Vars, extra: Vars, k: string)
    ensures ValueOf(Merge(base, extra), k) == if k in Keys(extra) then ValueOf(extra, k) else ValueOf(base, k)
  {
    ValueOfConcat(Overlay(base, extra), Fresh(base, extra), k);
    OverlayValue(base, extra, k);
    if k !in Keys(base) {
      FreshValue(base, extra, k);
    }
  }

  /** Spreading an empty object changes nothing. */
  lemma {:induction false} MergeNothing(base: Vars)
    ensures Merge(base, []) == base
    decreases |base|
  {
    if base != [] {
      MergeNothing(base[1..]);
    }
  }

  /** `copyTemplate(templateFile, destFile, extraVars)`: a missing template is passed
      over (`Ok(None)`); otherwise the template is rendered with the spread options,
      and a throw while rendering ends the generation. */
  function CopyTemplate(store: map<string, string>, o: Options, extra: Vars, templateFile: string, destFile: string)
    : (r: Result<Option<(string, string)>>)
    ensures r == Ok(None) <==> templateFile !in store
    ensures r.Ok? && r.value.Some? ==>
      && templateFile in store
      && r.value.value.0 == destFile
      && Render(store[templateFile], Merge(OptionVars(o), extra)) == Ok(r.value.value.1)
    ensures r.Err? ==>
      && templateFile in store
      && Render(store[templateFile], Merge(OptionVars(o), extra)) == Err(r.error)
      && (ValueOf(Merge(OptionVars(o), extra), r.error).Bool? || ValueOf(Merge(OptionVars(o), extra), r.error).Int?)
    ensures AllStrings(Merge(OptionVars(o), extra)) && templateFile in store ==> r.Ok? && r.value.Some?
  {
    if templateFile !in store then Ok(None)
    else
      var vars := Merge(OptionVars(o), extra);
      RenderErr(store[templateFile], vars);
      assert AllStrings(vars) ==> Render(store[templateFile], vars).Ok? by {
        if AllStrings(vars) {
          RenderStringsOk(store[templateFile], vars);
        }
      }
      match Render(store[templateFile], vars)
      case Ok(text) => Ok(Some((destFile, text)))
      case Err(e) => Err(e)
  }
}
