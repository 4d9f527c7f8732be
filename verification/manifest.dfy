/** The generated project's `package.json`: the fallback manifest used when the
    rendered template is no valid JSON, and the dependencies added for the chosen
    features. */
module Manifest {
  import opened Wrappers

  /** A `package.json` object: its string fields (`name`, `version`, …) and its nested
      string-to-string objects (`scripts`, `dependencies`, `devDependencies`). */
  datatype Manifest = Manifest(fields: map<string, string>, sections: map<string, map<string, string>>)

  /** One assignment `manifest[section][key] = value`. */
  datatype Entry = Entry(section: string, key: string, value: string)

  /** Assigning into a section; a section the manifest lacks is `undefined`, and assigning
      a property of `undefined` throws. The thrown error names the section. */
  function SetEntry(m: Manifest, e: Entry): (r: Result<Manifest>)
    ensures r.Err? <==> e.section !in m.sections
    ensures r.Err? ==> r.error == e.section
    ensures r.Ok? ==> r.value.fields == m.fields && r.value.sections.Keys == m.sections.Keys
    ensures r.Ok? ==> e.key in r.value.sections[e.section] && r.value.sections[e.section][e.key] == e.value
    ensures r.Ok? ==> forall s, k :: s in m.sections && k in m.sections[s] && (s, k) != (e.section, e.key) ==>
      k in r.value.sections[s] && r.value.sections[s][k] == m.sections[s][k]
    ensures r.Ok? ==> forall s, k :: s in m.sections && k in r.value.sections[s] ==>
      k in m.sections[s] || (s, k) == (e.section, e.key)
  {
    if e.section in m.sections then
      Ok(Manifest(m.fields, m.sections[e.section := m.sections[e.section][e.key := e.value]]))
    else Err(e.section)
  }

  /** The assignments in order; the first that throws ends the run. */
  function ApplyAll(m: Manifest, es: seq<Entry>): Result<Manifest>
    decreases |es|
  {
    if es == [] then Ok(m)
    else match SetEntry(m, es[0])
      case Err(e) => Err(e)
      case Ok(m') => ApplyAll(m', es[1..])
  }

  /** The value the last assignment to (section, key) in `es` gives, if any: the
      reference for what a run of assignments leaves behind. */
  function LastValue(es: seq<Entry>, s: string, k: string): Option<string>
  {
    if es == [] then None
    else match LastValue(es[1..], s, k)
      case Some(v) => Some(v)
      case None => if es[0].section == s && es[0].key == k then Some(es[0].value) else None
  }

  /** A run of assignments succeeds exactly when every section it assigns into exists. */
  lemma {:induction false} ApplyAllOk(m: Manifest, es: seq<Entry>)
    ensures ApplyAll(m, es).Ok? <==> forall i :: 0 <= i < |es| ==> es[i].section in m.sections
    ensures ApplyAll(m, es).Ok? ==> ApplyAll(m, es).value.sections.Keys == m.sections.Keys
    ensures ApplyAll(m, es).Ok? ==> ApplyAll(m, es).value.fields == m.fields
    decreases |es|
  {
    if es != [] {
      var r := SetEntry(m, es[0]);
      if r.Ok? {
        ApplyAllOk(r.value, es[1..]);
        assert forall i :: 1 <= i < |es| ==> es[i] == es[1..][i - 1];
      }
    }
  }

  /** After a successful run, each entry holds the last value assigned to it, or its
      old value when nothing was assigned to it; no other entry appears. */
  lemma {:induction false} ApplyAllValues(m: Manifest, es: seq<Entry>, s: string, k: string)
    requires ApplyAll(m, es).Ok? && s in m.sections
    ensures s in ApplyAll(m, es).value.sections
    ensures k in ApplyAll(m, es).value.sections[s] <==> k in m.sections[s] || LastValue(es, s, k).Some?
    ensures k in ApplyAll(m, es).value.sections[s] ==>
      ApplyAll(m, es).value.sections[s][k] ==
        (if LastValue(es, s, k).Some? then LastValue(es, s, k).value else m.sections[s][k])
    decreases |es|
  {
    ApplyAllOk(m, es);
    if es != [] {
      var m' := SetEntry(m, es[0]).value;
      ApplyAllValues(m', es[1..], s, k);
    }
  }

  const AuthEntries: seq<Entry> := [
    Entry("dependencies", "jsonwebtoken", "^9.0.2"),
    Entry("dependencies", "bcrypt", "^5.1.1"),
    Entry("devDependencies", "@types/jsonwebtoken", "^9.0.5"),
    Entry("devDependencies", "@types/bcrypt", "^5.0.2")
  ]

  const SwaggerEntries: seq<Entry> := [
    Entry("dependencies", "swagger-ui-express", "^5.0.0"),
    Entry("devDependencies", "@types/swagger-ui-express", "^4.1.6")
  ]

  const TestingEntries: seq<Entry> := [
    Entry("devDependencies", "jest", "^29.7.0"),
    Entry("devDependencies", "@types/jest", "^29.5.8"),
    Entry("devDependencies", "supertest", "^6.3.3"),
    Entry("devDependencies", "@types/supertest", "^2.0.16"),
    Entry("scripts", "test", "jest")
  ]

  /** The assignments for the chosen features, authentication first, then Swagger,
      then testing. */
  function FeatureEntries(auth: bool, swagger: bool, testing: bool): seq<Entry>
  {
    (if auth then AuthEntries else []) + (if swagger then SwaggerEntries else []) +
    (if testing then TestingEntries else [])
  }

  /** Adding the chosen features' dependencies and the `test` script. */
  function Augment(m: Manifest, auth: bool, swagger: bool, testing: bool): Result<Manifest>
  {
    ApplyAll(m, FeatureEntries(auth, swagger, testing))
  }

  /** With no feature chosen the manifest is left as it is. */
  lemma AugmentNothing(m: Manifest)
    ensures Augment(m, false, false, false) == Ok(m)
  {
    assert FeatureEntries(false, false, false) == [];
  }

  /** Where each feature assignment goes: `scripts` only for testing. */
  lemma FeatureSection(auth: bool, swagger: bool, testing: bool, i: nat)
    requires i < |FeatureEntries(auth, swagger, testing)|
    ensures var s := FeatureEntries(auth, swagger, testing)[i].section;
      s == "dependencies" || s == "devDependencies" || (s == "scripts" && testing)
  {
    var a := if auth then AuthEntries else [];
    var w := if swagger then SwaggerEntries else [];
    var t := if testing then TestingEntries else [];
    var es := FeatureEntries(auth, swagger, testing);
    if i < |a| {
      assert es[i] == a[i];
    } else if i < |a| + |w| {
      assert es[i] == w[i - |a|];
    } else {
      assert es[i] == t[i - |a| - |w|];
    }
  }

  /** The first assignment of each chosen feature group. */
  lemma FeatureFirst(auth: bool, swagger: bool, testing: bool)
    ensures auth || swagger || testing ==> |FeatureEntries(auth, swagger, testing)| > 0
    ensures auth || swagger ==> FeatureEntries(auth, swagger, testing)[0].section == "dependencies"
    ensures !auth && !swagger && testing ==> FeatureEntries(auth, swagger, testing)[0].section == "devDependencies"
    ensures auth ==> FeatureEntries(auth, swagger, testing)[2].section == "devDependencies"
    ensures !auth && swagger ==> FeatureEntries(auth, swagger, testing)[1].section == "devDependencies"
    ensures testing ==> FeatureEntries(auth, swagger, testing)[|FeatureEntries(auth, swagger, testing)| - 1].section == "scripts"
  {
  }

  /** Adding succeeds exactly when every section a chosen feature assigns into exists. */
  lemma AugmentOk(m: Manifest, auth: bool, swagger: bool, testing: bool)
    ensures "dependencies" in m.sections && "devDependencies" in m.sections && ("scripts" in m.sections || !testing) ==>
      Augment(m, auth, swagger, testing).Ok?
    ensures (auth || swagger) && "dependencies" !in m.sections ==> Augment(m, auth, swagger, testing).Err?
    ensures (auth || swagger || testing) && "devDependencies" !in m.sections ==> Augment(m, auth, swagger, testing).Err?
    ensures testing && "scripts" !in m.sections ==> Augment(m, auth, swagger, testing).Err?
  {
    var es := FeatureEntries(auth, swagger, testing);
    ApplyAllOk(m, es);
    forall i | 0 <= i < |es|
      ensures var s := es[i].section; s == "dependencies" || s == "devDependencies" || (s == "scripts" && testing)
    {
      FeatureSection(auth, swagger, testing, i);
    }
    FeatureFirst(auth, swagger, testing);
  }

  /** The entry an assignment writes. */
  function Slot(e: Entry): (string, string) {
    (e.section, e.key)
  }

  /** No two assignments write the same entry. */
  predicate Distinct(es: seq<Entry>) {
    forall i, j :: 0 <= i < j < |es| ==> Slot(es[i]) != Slot(es[j])
  }

  /** Nothing assigned to an entry: no value for it. */
  lemma {:induction false} LastValueAbsent(es: seq<Entry>, s: string, k: string)
    requires forall j :: 0 <= j < |es| ==> Slot(es[j]) != (s, k)
    ensures LastValue(es, s, k).None?
    decreases |es|
  {
    if es != [] {
      LastValueAbsent(es[1..], s, k);
    }
  }

  /** An entry assigned once holds the value of that assignment. */
  lemma {:induction false} LastValueAt(es: seq<Entry>, i: nat)
    requires Distinct(es) && i < |es|
    ensures LastValue(es, es[i].section, es[i].key) == Some(es[i].value)
    decreases |es|
  {
    var rest := es[1..];
    assert Distinct(rest) by {
      forall a, b | 0 <= a < b < |rest| ensures Slot(rest[a]) != Slot(rest[b]) {
        assert rest[a] == es[a + 1] && rest[b] == es[b + 1];
      }
    }
    if i == 0 {
      forall j | 0 <= j < |rest| ensures Slot(rest[j]) != (es[0].section, es[0].key) {
        assert rest[j] == es[j + 1];
      }
      LastValueAbsent(rest, es[0].section, es[0].key);
    } else {
      assert es[i] == rest[i - 1];
      LastValueAt(rest, i - 1);
    }
  }

  /** The eleven feature assignments write eleven different entries. */
  lemma AllFeaturesDistinct()
    ensures Distinct(FeatureEntries(true, true, true))
  {
    var a, w, t := AuthEntries, SwaggerEntries, TestingEntries;
    assert FeatureEntries(true, true, true) == a + w + t;
    DistinctThree(a, w, t);
    GroupsDistinct();
    GroupsDisjoint();
  }

  /** Each feature's own assignments write different entries. */
  lemma GroupsDistinct()
    ensures Distinct(AuthEntries) && Distinct(SwaggerEntries) && Distinct(TestingEntries)
  {
  }

  /** No two features write the same entry. */
  lemma GroupsDisjoint()
    ensures Disjoint(AuthEntries, SwaggerEntries) && Disjoint(AuthEntries, TestingEntries)
    ensures Disjoint(SwaggerEntries, TestingEntries)
  {
  }

  /** No entry is written by both lists. */
  predicate Disjoint(x: seq<Entry>, y: seq<Entry>) {
    forall i, j :: 0 <= i < |x| && 0 <= j < |y| ==> Slot(x[i]) != Slot(y[j])
  }

  /** Two lists together write distinct entries exactly when each does and they share none. */
  lemma DistinctConcat(x: seq<Entry>, y: seq<Entry>)
    ensures Distinct(x + y) <==> Distinct(x) && Distinct(y) && Disjoint(x, y)
  {
    var xy := x + y;
    if Distinct(xy) {
      forall i, j | 0 <= i < j < |y| ensures Slot(y[i]) != Slot(y[j]) {
        assert y[i] == xy[|x| + i] && y[j] == xy[|x| + j];
      }
      forall i, j | 0 <= i < |x| && 0 <= j < |y| ensures Slot(x[i]) != Slot(y[j]) {
        assert x[i] == xy[i] && y[j] == xy[|x| + j];
      }
      forall i, j | 0 <= i < j < |x| ensures Slot(x[i]) != Slot(x[j]) {
        assert x[i] == xy[i] && x[j] == xy[j];
      }
    }
    if Distinct(x) && Distinct(y) && Disjoint(x, y) {
      forall i, j | 0 <= i < j < |xy| ensures Slot(xy[i]) != Slot(xy[j]) {
        if j < |x| {
          assert xy[i] == x[i] && xy[j] == x[j];
        } else if i < |x| {
          assert xy[i] == x[i] && xy[j] == y[j - |x|];
        } else {
          assert xy[i] == y[i - |x|] && xy[j] == y[j - |x|];
        }
      }
    }
  }

  /** A list shares no entry with two lists exactly when it shares none with their join. */
  lemma DisjointConcat(x: seq<Entry>, y: seq<Entry>, z: seq<Entry>)
    ensures Disjoint(x + y, z) <==> Disjoint(x, z) && Disjoint(y, z)
    ensures Disjoint(z, x + y) <==> Disjoint(z, x) && Disjoint(z, y)
  {
    var xy := x + y;
    assert forall i :: 0 <= i < |x| ==> xy[i] == x[i];
    assert forall i :: 0 <= i < |y| ==> xy[|x| + i] == y[i];
    if Disjoint(x, z) && Disjoint(y, z) {
      forall i, j | 0 <= i < |xy| && 0 <= j < |z| ensures Slot(xy[i]) != Slot(z[j]) {
        if i >= |x| {
          assert xy[i] == y[i - |x|];
        }
      }
    }
    if Disjoint(z, x) && Disjoint(z, y) {
      forall i, j | 0 <= i < |z| && 0 <= j < |xy| ensures Slot(z[i]) != Slot(xy[j]) {
        if j >= |x| {
          assert xy[j] == y[j - |x|];
        }
      }
    }
  }

  /** Three lists together write distinct entries exactly when each does and no two
      share one. */
  lemma DistinctThree(a: seq<Entry>, w: seq<Entry>, t: seq<Entry>)
    ensures Distinct(a + w + t) <==>
      Distinct(a) && Distinct(w) && Distinct(t) && Disjoint(a, w) && Disjoint(a, t) && Disjoint(w, t)
  {
    DistinctConcat(a + w, t);
    DistinctConcat(a, w);
    DisjointConcat(a, w, t);
  }

  /** A group either kept or dropped. */
  predicate KeptOrDropped(g': seq<Entry>, g: seq<Entry>) {
    g' == g || g' == []
  }

  /** What a group shares with nothing, or with a kept-or-dropped group. */
  lemma DisjointKept(x: seq<Entry>, g': seq<Entry>, g: seq<Entry>)
    requires KeptOrDropped(g', g) && Disjoint(x, g)
    ensures Disjoint(x, g') && Disjoint(g', g') == (g' == [] || Disjoint(g, g))
  {
  }

  lemma DisjointSym(x: seq<Entry>, y: seq<Entry>)
    ensures Disjoint(x, y) == Disjoint(y, x)
  {
  }

  /** Keeping or dropping whole groups of a distinct list keeps it distinct. */
  lemma Selection(a: seq<Entry>, w: seq<Entry>, t: seq<Entry>, a': seq<Entry>, w': seq<Entry>, t': seq<Entry>)
    requires Distinct(a + w + t)
    requires KeptOrDropped(a', a) && KeptOrDropped(w', w) && KeptOrDropped(t', t)
    ensures Distinct(a' + w' + t')
  {
    DistinctThree(a, w, t);
    DisjointKept(a, w', w);
    DisjointSym(a, w');
    DisjointKept(w', a', a);
    DisjointSym(w', a');
    DisjointKept(a, t', t);
    DisjointSym(a, t');
    DisjointKept(t', a', a);
    DisjointSym(t', a');
    DisjointKept(w, t', t);
    DisjointSym(w, t');
    DisjointKept(t', w', w);
    DisjointSym(t', w');
    DistinctThree(a', w', t');
  }

  /** A dropped group shares no entry with the kept groups. */
  lemma Dropped(x: seq<Entry>, y: seq<Entry>, z: seq<Entry>, y': seq<Entry>, z': seq<Entry>)
    requires Disjoint(x, y) && Disjoint(x, z)
    requires KeptOrDropped(y', y) && KeptOrDropped(z', z)
    ensures Disjoint(x, y' + z')
  {
    DisjointKept(x, y', y);
    DisjointKept(x, z', z);
    DisjointConcat(y', z', x);
  }

  /** Choosing fewer features drops whole groups, so the assignments stay distinct,
      and a dropped group's entries are assigned nowhere else. */
  lemma FeatureSelection(auth: bool, swagger: bool, testing: bool)
    ensures Distinct(FeatureEntries(auth, swagger, testing))
    ensures !auth ==> Disjoint(AuthEntries, FeatureEntries(auth, swagger, testing))
    ensures !swagger ==> Disjoint(SwaggerEntries, FeatureEntries(auth, swagger, testing))
    ensures !testing ==> Disjoint(TestingEntries, FeatureEntries(auth, swagger, testing))
  {
    AllFeaturesDistinct();
    assert FeatureEntries(true, true, true) == AuthEntries + SwaggerEntries + TestingEntries;
    var a, w, t := AuthEntries, SwaggerEntries, TestingEntries;
    var a', w', t' := if auth then a else [], if swagger then w else [], if testing then t else [];
    Selection(a, w, t, a', w', t');
    DistinctThree(a, w, t);
    DisjointSym(a, w);
    DisjointSym(a, t);
    DisjointSym(w, t);
    if !auth {
      Dropped(a, w, t, w', t');
      assert a' + w' + t' == w' + t';
    }
    if !swagger {
      Dropped(w, a, t, a', t');
      assert a' + w' + t' == a' + t';
    }
    if !testing {
      Dropped(t, a, w, a', w');
      assert a' + w' + t' == a' + w';
    }
  }

  /** A chosen feature's assignments are made, and an unchosen feature's are not. */
  lemma FeatureValue(auth: bool, swagger: bool, testing: bool, e: Entry)
    requires e in AuthEntries || e in SwaggerEntries || e in TestingEntries
    ensures var chosen := (e in AuthEntries && auth) || (e in SwaggerEntries && swagger) || (e in TestingEntries && testing);
      LastValue(FeatureEntries(auth, swagger, testing), e.section, e.key) == (if chosen then Some(e.value) else None)
  {
    var es := FeatureEntries(auth, swagger, testing);
    FeatureSelection(auth, swagger, testing);
    var chosen := (e in AuthEntries && auth) || (e in SwaggerEntries && swagger) || (e in TestingEntries && testing);
    if chosen {
      var a := if auth then AuthEntries else [];
      var w := if swagger then SwaggerEntries else [];
      assert es == a + (w + (if testing then TestingEntries else []));
      assert e in es;
      var i :| 0 <= i < |es| && es[i] == e;
      LastValueAt(es, i);
    } else {
      LastValueAbsent(es, e.section, e.key);
    }
  }

  /** After adding, a chosen feature's entries hold their versions; an unchosen
      feature's entries are as they were. */
  lemma AugmentEntry(m: Manifest, auth: bool, swagger: bool, testing: bool, e: Entry)
    requires Augment(m, auth, swagger, testing).Ok? && e.section in m.sections
    requires e in AuthEntries || e in SwaggerEntries || e in TestingEntries
    ensures var r := Augment(m, auth, swagger, testing).value;
      var chosen := (e in AuthEntries && auth) || (e in SwaggerEntries && swagger) || (e in TestingEntries && testing);
      && e.section in r.sections
      && (chosen ==> e.key in r.sections[e.section] && r.sections[e.section][e.key] == e.value)
      && (!chosen ==> (e.key in r.sections[e.section] <==> e.key in m.sections[e.section]))
      && (!chosen && e.key in m.sections[e.section] ==> r.sections[e.section][e.key] == m.sections[e.section][e.key])
  {
    FeatureValue(auth, swagger, testing, e);
    ApplyAllValues(m, FeatureEntries(auth, swagger, testing), e.section, e.key);
  }

  /** Adding leaves every entry no feature assigns as it was, and the top-level fields. */
  lemma AugmentUntouched(m: Manifest, auth: bool, swagger: bool, testing: bool, s: string, k: string)
    requires Augment(m, auth, swagger, testing).Ok? && s in m.sections
    requires forall e :: e in FeatureEntries(true, true, true) ==> Slot(e) != (s, k)
    ensures var r := Augment(m, auth, swagger, testing).value;
      && r.fields == m.fields
      && s in r.sections
      && (k in r.sections[s] <==> k in m.sections[s])
      && (k in m.sections[s] ==> r.sections[s][k] == m.sections[s][k])
  {
    var es := FeatureEntries(auth, swagger, testing);
    var all := FeatureEntries(true, true, true);
    assert all == AuthEntries + SwaggerEntries + TestingEntries;
    forall j | 0 <= j < |es| ensures Slot(es[j]) != (s, k) {
      assert es[j] in es;
      assert es[j] in all;
    }
    LastValueAbsent(es, s, k);
    ApplyAllOk(m, es);
    ApplyAllValues(m, es, s, k);
  }

  /** The sections the chosen features assign into: `dependencies` for authentication
      or Swagger, `devDependencies` for any feature, `scripts` for testing. */
  predicate NeededSections(m: Manifest, auth: bool, swagger: bool, testing: bool) {
    && (auth || swagger ==> "dependencies" in m.sections)
    && (auth || swagger || testing ==> "devDependencies" in m.sections)
    && (testing ==> "scripts" in m.sections)
  }

  /** Adding succeeds exactly when the sections the chosen features need exist. */
  lemma AugmentOkIff(m: Manifest, auth: bool, swagger: bool, testing: bool)
    ensures Augment(m, auth, swagger, testing).Ok? <==> NeededSections(m, auth, swagger, testing)
  {
    var es := FeatureEntries(auth, swagger, testing);
    ApplyAllOk(m, es);
    AugmentOk(m, auth, swagger, testing);
    if NeededSections(m, auth, swagger, testing) {
      forall i | 0 <= i < |es| ensures es[i].section in m.sections {
        FeatureSection(auth, swagger, testing, i);
      }
    }
  }

  /** After adding, every chosen feature's assignment is in place. */
  lemma AugmentChosen(m: Manifest, auth: bool, swagger: bool, testing: bool)
    requires Augment(m, auth, swagger, testing).Ok?
    ensures var r := Augment(m, auth, swagger, testing).value;
      forall e :: e in FeatureEntries(auth, swagger, testing) ==>
        e.section in r.sections && e.key in r.sections[e.section] && r.sections[e.section][e.key] == e.value
  {
    var es := FeatureEntries(auth, swagger, testing);
    FeatureSelection(auth, swagger, testing);
    ApplyAllOk(m, es);
    forall e | e in es
      ensures var r := ApplyAll(m, es).value;
        e.section in r.sections && e.key in r.sections[e.section] && r.sections[e.section][e.key] == e.value
    {
      var i :| 0 <= i < |es| && es[i] == e;
      LastValueAt(es, i);
      ApplyAllValues(m, es, e.section, e.key);
    }
  }

  /** The manifest written when the rendered template is no valid JSON. */
  function Fallback(projectName: string): (r: Manifest)
    ensures "name" in r.fields && r.fields["name"] == projectName
    ensures r.sections.Keys == {"scripts", "dependencies", "devDependencies"}
  {
    Manifest(
      map["name" := projectName, "version" := "1.0.0",
          "description" := "Generated with Express TypeScript Generator", "main" := "dist/index.js"],
      map["scripts" := map["start" := "node dist/index.js", "dev" := "nodemon --exec ts-node src/index.ts",
                           "build" := "tsc"],
          "dependencies" := map["express" := "^4.18.2", "sequelize" := "^6.35.1", "mysql2" := "^3.6.3"],
          "devDependencies" := map["@types/express" := "^4.17.21", "typescript" := "^5.2.2",
                                   "ts-node" := "^10.9.1", "nodemon" := "^3.0.1"]])
  }

  /** `initializePackageJson` after rendering: the parsed template (`None` when it is no
      valid JSON, so the fallback is used), then the features' additions. */
  function PackageJson(parsed: Option<Manifest>, projectName: string, auth: bool, swagger: bool, testing: bool)
    : (r: Result<Manifest>)
    ensures parsed.None? ==> r.Ok? && "name" in r.value.fields && r.value.fields["name"] == projectName
    ensures parsed.Some? && !auth && !swagger && !testing ==> r == Ok(parsed.value)
    ensures r.Ok? <==> NeededSections(parsed.GetOr(Fallback(projectName)), auth, swagger, testing)
    ensures r.Ok? ==> r.value.fields == parsed.GetOr(Fallback(projectName)).fields
    ensures r.Ok? ==> forall e :: e in FeatureEntries(auth, swagger, testing) ==>
      e.section in r.value.sections && e.key in r.value.sections[e.section] &&
      r.value.sections[e.section][e.key] == e.value
  {
    var base := parsed.GetOr(Fallback(projectName));
    AugmentOk(base, auth, swagger, testing);
    AugmentOkIff(base, auth, swagger, testing);
    ApplyAllOk(base, FeatureEntries(auth, swagger, testing));
    AugmentNothing(base);
    assert Augment(base, auth, swagger, testing).Ok? ==>
      var r := Augment(base, auth, swagger, testing).value;
      forall e :: e in FeatureEntries(auth, swagger, testing) ==>
        e.section in r.sections && e.key in r.sections[e.section] && r.sections[e.section][e.key] == e.value
    by {
      if Augment(base, auth, swagger, testing).Ok? {
        AugmentChosen(base, auth, swagger, testing);
      }
    }
    Augment(base, auth, swagger, testing)
  }
}
