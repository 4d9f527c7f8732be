/** `createModuleInProject` of the generator: adding a module to an existing project.
    As written, it looks templates up under the output file names
    (`modules/default/order.controller.ts.tmpl`), while the template catalog names them
    with a literal `{{moduleName}}` (`modules/default/{{moduleName}}.controller.ts.tmpl`),
    so only `index.ts` is ever found. The corrected operation uses the catalog's names,
    the table `createModule` uses. */
module ProjectModule {
  import opened Wrappers
  import opened Text
  import opened Values
  import opened Template
  import opened Files
  import opened Cli
  import opened Generator
  import opened Tokens

  /** Why the command refuses to run. */
  const NotProjectRoot := "not a project root"
  const ModuleExists := "module exists"

  /** The files of a new module, in the order the command writes them. */
  function InProjectFiles(name: string): (r: seq<string>)
    ensures |r| == |ModuleOrder|
  {
    ["index.ts", name + ".controller.ts", name + ".service.ts", name + ".model.ts",
     name + ".interface.ts", name + ".validation.ts", name + ".routes.ts"]
  }

  /** The command's file list is the kind table's list of files. */
  lemma InProjectFilesAreTargets(name: string, j: nat)
    requires j < |ModuleOrder|
    ensures InProjectFiles(name)[j] == KindTarget(ModuleOrder[j], name)
  {
    if j > 0 {
      assert InProjectFiles(name)[j] == name + Ending(ModuleOrder[j]);
    }
  }

  /** The template path the command, as written, looks up for a file: the file name
      with `.tmpl` appended, under the default module templates. */
  function AsWrittenTemplate(file: string): string {
    PathJoin(ModuleTemplateDir, file + ".tmpl")
  }

  /** The destination the command, as written, computes: the first `{{moduleName}}` of
      the file name replaced by the module name. */
  function AsWrittenDest(file: string, name: string): string {
    ReplaceFirst(file, "{{moduleName}}", name)
  }

  function AsWrittenOutcome(store: Store, file: string, name: string): (r: Outcome)
    ensures r.Wrote? <==> AsWrittenTemplate(file) in store
    ensures r.Wrote? ==> r.file == AsWrittenDest(file, name)
    ensures r.Missing? ==> r.template == AsWrittenTemplate(file)
  {
    Produce(store, AsWrittenTemplate(file), AsWrittenDest(file, name), NameVars(name))
  }

  /** `createModuleInProject(name)` as written: refuse outside a project root (no `src`
      or no `package.json`) and when the module folder exists; otherwise go through the
      seven files in order, rendering each whose template is found and warning about
      each that is not. */
  method CreateModuleInProjectAsWritten(hasSrc: bool, hasPackageJson: bool, moduleExists: bool, store: Store, name: string)
    returns (r: Result<seq<Outcome>>)
    ensures !(hasSrc && hasPackageJson) ==> r == Err(NotProjectRoot)
    ensures hasSrc && hasPackageJson && moduleExists ==> r == Err(ModuleExists)
    ensures r.Ok? <==> hasSrc && hasPackageJson && !moduleExists
    ensures r.Ok? ==> |r.value| == |ModuleOrder|
    ensures r.Ok? ==> forall j :: 0 <= j < |r.value| ==> r.value[j] == AsWrittenOutcome(store, InProjectFiles(name)[j], name)
  {
    if !hasSrc || !hasPackageJson {
      return Err(NotProjectRoot);
    }
    if moduleExists {
      return Err(ModuleExists);
    }
    var files := InProjectFiles(name);
    var outcomes: seq<Outcome> := [];
    var i := 0;
    while i < |files|
      invariant 0 <= i <= |files|
      invariant |outcomes| == i
      invariant forall j :: 0 <= j < i ==> outcomes[j] == AsWrittenOutcome(store, files[j], name)
    {
      outcomes := outcomes + [AsWrittenOutcome(store, files[i], name)];
      i := i + 1;
    }
    return Ok(outcomes);
  }

  /** The catalog's template paths, in the order of the module's files. */
  function CatalogTemplate(k: Kind): string {
    PathJoin(ModuleTemplateDir, KindTemplate(k))
  }

  /** A module name that does not start with `{`. */
  predicate PlainStart(name: string) {
    name == "" || name[0] != '{'
  }

  /** The path looked up for any file but the index is no catalog path. */
  lemma AsWrittenMisses(name: string, k: Kind, c: Kind)
    requires k != Index && PlainStart(name)
    ensures AsWrittenTemplate(KindTarget(k, name)) != CatalogTemplate(c)
  {
    var looked := AsWrittenTemplate(KindTarget(k, name));
    var pre := ModuleTemplateDir + "/";
    assert |pre| == 16;
    assert looked == pre + (name + Ending(k) + ".tmpl");
    if c == Index {
      assert |Ending(k)| >= 9;
      assert |looked| >= 30;
    } else {
      var kt := KindTemplate(c);
      assert kt[0] == '{';
      assert CatalogTemplate(c) == pre + kt;
      assert CatalogTemplate(c)[16] == '{';
      assert looked[16] == if name == "" then '.' else name[0];
    }
  }

  /** A store holding nothing but catalog templates. */
  predicate CatalogOnly(store: Store) {
    forall p :: p in store ==> exists c :: p == CatalogTemplate(c)
  }

  /** With only the catalog's templates, the command as written finds the index
      template and no other: of a module's seven files it writes at most `index.ts`. */
  lemma AsWrittenFindsOnlyIndex(store: Store, name: string, j: nat)
    requires CatalogOnly(store) && PlainStart(name)
    requires j < |ModuleOrder|
    ensures AsWrittenOutcome(store, InProjectFiles(name)[j], name).Wrote? <==> j == 0 && CatalogTemplate(Index) in store
  {
    var file := InProjectFiles(name)[j];
    if j == 0 {
      IndexLookedUp(name);
    } else if AsWrittenTemplate(file) in store {
      var k := ModuleOrder[j];
      InProjectFilesAreTargets(name, j);
      var c :| AsWrittenTemplate(file) == CatalogTemplate(c);
      AsWrittenMisses(name, k, c);
    }
  }

  /** The index is looked up under its catalog path. */
  lemma IndexLookedUp(name: string)
    ensures AsWrittenTemplate(InProjectFiles(name)[0]) == CatalogTemplate(Index)
  {
    InProjectFilesAreTargets(name, 0);
  }

  /** The module `order` against the catalog's templates: the controller template is
      missed, and the warning names `modules/default/order.controller.ts.tmpl`. */
  lemma OrderControllerMissed(store: Store)
    requires CatalogOnly(store)
    ensures AsWrittenOutcome(store, InProjectFiles("order")[1], "order")
      == Missing("modules/default/order.controller.ts.tmpl")
  {
    OrderControllerPath();
    AsWrittenFindsOnlyIndex(store, "order", 1);
  }

  /** The path looked up for the controller of the module `order`. */
  lemma OrderControllerPath()
    ensures AsWrittenTemplate(InProjectFiles("order")[1]) == "modules/default/order.controller.ts.tmpl"
  {
    var f := InProjectFiles("order")[1];
    assert f == "order" + ".controller.ts";
    assert f + ".tmpl" == "order.controller.ts.tmpl";
    assert ModuleTemplateDir + "/" == "modules/default/";
  }

  /** The destination computation is a no-op for names without a brace: the file names
      are built from the module name and hold no `{{moduleName}}`. */
  lemma AsWrittenDestIsFile(name: string, j: nat)
    requires NoBrace(name) && j < |ModuleOrder|
    ensures AsWrittenDest(InProjectFiles(name)[j], name) == InProjectFiles(name)[j]
  {
    var file := InProjectFiles(name)[j];
    var k := ModuleOrder[j];
    InProjectFilesAreTargets(name, j);
    KindTargetNoBrace(k, name);
    NoBraceNoModuleToken(file);
  }

  lemma KindTargetNoBrace(k: Kind, name: string)
    requires NoBrace(name)
    ensures NoBrace(KindTarget(k, name))
  {
    var t := KindTarget(k, name);
    if k != Index {
      var tail := Ending(k);
      assert NoBrace(tail);
      assert t == name + tail;
      forall i | 0 <= i < |t| ensures t[i] != '{' {
        if i < |name| {
          assert t[i] == name[i];
        } else {
          assert t[i] == tail[i - |name|];
        }
      }
    }
  }

  lemma NoBraceNoModuleToken(s: string)
    requires NoBrace(s)
    ensures !Contains(s, "{{moduleName}}")
  {
    forall i: nat | i < |s| ensures !LitAt(s, i, "{{moduleName}}") {
      assert i + 14 <= |s| ==> s[i..i + 14][0] != '{';
    }
  }

  /** The outcome for kind `k` as intended: the catalog's template for the kind,
      rendered with the module name into the kind's file. */
  function CorrectedOutcome(store: Store, k: Kind, name: string): (r: Outcome)
    ensures r.Wrote? <==> CatalogTemplate(k) in store
    ensures r.Wrote? ==> r.file == KindTarget(k, name)
    ensures r.Wrote? ==> Render(store[CatalogTemplate(k)], NameVars(name)) == Ok(r.content)
  {
    Produce(store, CatalogTemplate(k), KindTarget(k, name), NameVars(name))
  }

  /** `createModuleInProject(name)` corrected: the same refusals, then each kind's
      catalog template, in the order of the module's files. */
  function CreateModuleInProject(hasSrc: bool, hasPackageJson: bool, moduleExists: bool, store: Store, name: string)
    : (r: Result<seq<Outcome>>)
    ensures !(hasSrc && hasPackageJson) ==> r == Err(NotProjectRoot)
    ensures hasSrc && hasPackageJson && moduleExists ==> r == Err(ModuleExists)
    ensures r.Ok? <==> hasSrc && hasPackageJson && !moduleExists
    ensures r.Ok? ==> |r.value| == |ModuleOrder|
    ensures r.Ok? ==> forall j :: 0 <= j < |r.value| ==> r.value[j] == CorrectedOutcome(store, ModuleOrder[j], name)
  {
    if !hasSrc || !hasPackageJson then Err(NotProjectRoot)
    else if moduleExists then Err(ModuleExists)
    else Ok(seq(|ModuleOrder|, j requires 0 <= j < |ModuleOrder| => CorrectedOutcome(store, ModuleOrder[j], name)))
  }

  /** With the shipped templates, the corrected command writes every file of the
      module, under the names the command announces. */
  lemma CorrectedWritesAll(store: Store, name: string, j: nat)
    requires forall c :: CatalogTemplate(c) in store
    requires j < |ModuleOrder|
    ensures CreateModuleInProject(true, true, false, store, name).Ok?
    ensures CreateModuleInProject(true, true, false, store, name).value[j].Wrote?
    ensures CreateModuleInProject(true, true, false, store, name).value[j].file == InProjectFiles(name)[j]
  {
    var r := CreateModuleInProject(true, true, false, store, name);
    var k := ModuleOrder[j];
    assert r.value[j] == CorrectedOutcome(store, k, name);
    assert CatalogTemplate(k) in store;
    InProjectFilesAreTargets(name, j);
  }

  /** The corrected command writes what `createModule` writes for any module but the
      authentication module, which `createModule` builds from its own list. */
  lemma CorrectedIsCreateModule(store: Store, name: string)
    requires name != "auth"
    ensures CreateModuleInProject(true, true, false, store, name) == Ok(CreateModule(store, name))
  {
    var r := CreateModuleInProject(true, true, false, store, name).value;
    var m := CreateModule(store, name);
    var files := ModuleFiles(name);
    assert |r| == |m|;
    forall j | 0 <= j < |r| ensures r[j] == m[j] {
      var k := ModuleOrder[j];
      assert files[j] == (CatalogTemplate(k), KindTarget(k, name));
      assert m[j] == Produce(store, files[j].0, files[j].1, NameVars(name));
      assert r[j] == CorrectedOutcome(store, k, name);
    }
    assert r == m;
  }
}
