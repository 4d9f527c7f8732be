/** The module-kind tables of the interactive CLI and its per-kind generation loop. */
module Cli {
  import opened Wrappers
  import opened Text
  import opened Values
  import opened Template
  import opened RenderLaws
  import opened Files

  /** The file kinds of a module. */
  datatype Kind = Controller | Service | Model | Routes | Interface | Validation | Index

  /** The name a kind has on the command line and in file names. */
  function KindName(k: Kind): string {
    match k
    case Controller => "controller"
    case Service => "service"
    case Model => "model"
    case Routes => "routes"
    case Interface => "interface"
    case Validation => "validation"
    case Index => "index"
  }

  /** The kinds of a full module, in generation order. */
  const FullKinds: seq<Kind> := [Controller, Service, Model, Routes, Interface, Validation, Index]

  /** Reads a kind name; any other text is no kind. */
  function ParseKind(s: string): (r: Option<Kind>)
    ensures r.Some? ==> KindName(r.value) == s
    ensures r.None? ==> forall k :: KindName(k) != s
  {
    if s == "controller" then Some(Controller)
    else if s == "service" then Some(Service)
    else if s == "model" then Some(Model)
    else if s == "routes" then Some(Routes)
    else if s == "interface" then Some(Interface)
    else if s == "validation" then Some(Validation)
    else if s == "index" then Some(Index)
    else None
  }

  /** `getFilesToGenerate`: a single kind yields just that kind; `full`, `index` and
      every unrecognised module type yield all seven kinds. */
  function FilesToGenerate(moduleType: string): (r: seq<Kind>)
    ensures forall k :: k != Index && KindName(k) == moduleType ==> r == [k]
    ensures (forall k :: k != Index ==> KindName(k) != moduleType) ==> r == FullKinds
    ensures r == FullKinds || |r| == 1
  {
    match ParseKind(moduleType)
    case Some(k) => if k == Index then FullKinds else [k]
    case None => FullKinds
  }

  /** The template of a kind, as the catalog names it: `{{moduleName}}.<kind>.ts.tmpl`,
      except the model kind, whose entry misspells the placeholder, and the index. */
  function KindTemplate(k: Kind): string {
    if k == Model then "{{modulelName}}.model.ts.tmpl"
    else if k == Index then "index.ts.tmpl"
    else "{{moduleName}}." + KindName(k) + ".ts.tmpl"
  }

  /** `getTemplateFileName`: the template looked up for a kind name, `""` for any other
      text. The module name is not used: the names carry a literal `{{moduleName}}`. */
  function TemplateFileName(fileType: string, moduleName: string): (r: string)
    ensures r != "" <==> ParseKind(fileType).Some?
    ensures ParseKind(fileType).Some? ==> r == KindTemplate(ParseKind(fileType).value)
  {
    match ParseKind(fileType)
    case Some(k) => KindTemplate(k)
    case None => ""
  }

  /** What follows the module name in the file of a kind. */
  function Ending(k: Kind): string {
    match k
    case Controller => ".controller.ts"
    case Service => ".service.ts"
    case Model => ".model.ts"
    case Routes => ".routes.ts"
    case Interface => ".interface.ts"
    case Validation => ".validation.ts"
    case Index => ""
  }

  /** The file written for a kind: `<name>.<kind>.ts`, except the fixed `index.ts`. */
  function KindTarget(k: Kind, moduleName: string): string {
    if k == Index then "index.ts" else moduleName + Ending(k)
  }

  /** `getTargetFileName`: the file written for a kind name, `""` for any other text. */
  function TargetFileName(fileType: string, moduleName: string): (r: string)
    ensures r != "" <==> ParseKind(fileType).Some?
    ensures ParseKind(fileType).Some? ==> r == KindTarget(ParseKind(fileType).value, moduleName)
  {
    match ParseKind(fileType)
    case Some(k) => KindTarget(k, moduleName)
    case None => ""
  }

  /** Kind names are distinct, and the full list holds every kind exactly once. */
  lemma KindNamesDistinct(a: Kind, b: Kind)
    ensures KindName(a) == KindName(b) ==> a == b
    ensures a in FullKinds
  {
  }

  /** Reading the name of a kind gives the kind back. */
  lemma ParseKindName(k: Kind)
    ensures ParseKind(KindName(k)) == Some(k)
  {
    KindNamesDistinct(k, ParseKind(KindName(k)).value);
  }

  /** The name-based lookups of the CLI agree with the kind tables. */
  lemma FileNamesOfKind(k: Kind, name: string)
    ensures TemplateFileName(KindName(k), name) == KindTemplate(k)
    ensures TargetFileName(KindName(k), name) == KindTarget(k, name)
  {
    ParseKindName(k);
  }

  /** The endings of the six named kinds are `.<kind>.ts`, so they differ pairwise. */
  lemma EndingsDistinct(a: Kind, b: Kind)
    requires a != b && a != Index && b != Index
    ensures Ending(a) != Ending(b)
  {
    var ea, eb := Ending(a), Ending(b);
    if |ea| == |eb| {
      assert ea[1] != eb[1] || ea[2] != eb[2];
    }
  }

  /** Different kinds never write the same file, whatever the module name. */
  lemma TargetNamesDistinct(a: Kind, b: Kind, name: string)
    requires a != b
    ensures KindTarget(a, name) != KindTarget(b, name)
  {
    if a != Index && b != Index {
      EndingsDistinct(a, b);
      assert KindTarget(a, name)[|name|..] == Ending(a);
      assert KindTarget(b, name)[|name|..] == Ending(b);
    } else if a == Index {
      assert |Ending(b)| >= 9;
    } else {
      assert |Ending(a)| >= 9;
    }
  }

  /** The variables a module template is rendered with: the name and its capitalised
      form (`capitalizeFirst`). */
  function ModuleVars(name: string): (r: Vars)
    ensures ValidVars(r) && AllStrings(r)
    ensures Keys(r) == ["moduleName", "ModuleName"]
    ensures ValueOf(r, "moduleName") == Str(name)
    ensures ValueOf(r, "ModuleName") == Str(Capitalize(name))
  {
    [("moduleName", Str(name)), ("ModuleName", Str(Capitalize(name)))]
  }

  /** Where the CLI looks for module templates, under the templates directory. */
  const ModuleTemplateDir := "modules/default"

  /** The outcome for kind `k` of module `name`: its template rendered with the module
      variables into its file, or a warning that the template is missing. */
  function KindOutcome(store: Store, k: Kind, name: string): (r: Outcome)
    ensures r.Wrote? <==> PathJoin(ModuleTemplateDir, KindTemplate(k)) in store
    ensures r.Wrote? ==> r.file == KindTarget(k, name)
    ensures r.Wrote? ==> Render(store[PathJoin(ModuleTemplateDir, KindTemplate(k))], ModuleVars(name)) == Ok(r.content)
  {
    Produce(store, PathJoin(ModuleTemplateDir, KindTemplate(k)), KindTarget(k, name), ModuleVars(name))
  }

  /** The outcomes of `kinds`, one after the other. */
  function KindOutcomes(kinds: seq<Kind>, name: string, store: Store): (r: seq<Outcome>)
    ensures |r| == |kinds|
    ensures forall j :: 0 <= j < |r| ==> r[j] == KindOutcome(store, kinds[j], name)
  {
    seq(|kinds|, j requires 0 <= j < |kinds| => KindOutcome(store, kinds[j], name))
  }

  /** `createModuleInProject` of the CLI: for each kind of the module type, in order,
      render the kind's template from `store` into the kind's file, or record the
      template as missing and go on with the next kind. */
  method CreateModuleInProject(name: string, moduleType: string, store: Store)
    returns (outcomes: seq<Outcome>)
    ensures |outcomes| == |FilesToGenerate(moduleType)|
    ensures forall j :: 0 <= j < |outcomes| ==>
      outcomes[j] == KindOutcome(store, FilesToGenerate(moduleType)[j], name)
  {
    outcomes := KindOutcomes(FilesToGenerate(moduleType), name, store);
  }

  /** The full list names each kind once. */
  lemma FullKindsDistinct(i: nat, j: nat)
    requires i < j < |FullKinds|
    ensures FullKinds[i] != FullKinds[j]
  {
  }

  /** The kinds of a module type are distinct, so no file is written twice. */
  lemma FilesWrittenOnce(moduleType: string, name: string, store: Store, i: nat, j: nat)
    requires i < j < |FilesToGenerate(moduleType)|
    requires KindOutcome(store, FilesToGenerate(moduleType)[i], name).Wrote?
    requires KindOutcome(store, FilesToGenerate(moduleType)[j], name).Wrote?
    ensures KindOutcome(store, FilesToGenerate(moduleType)[i], name).file !=
      KindOutcome(store, FilesToGenerate(moduleType)[j], name).file
  {
    var kinds := FilesToGenerate(moduleType);
    assert kinds == FullKinds;
    FullKindsDistinct(i, j);
    TargetNamesDistinct(kinds[i], kinds[j], name);
  }

  /** `generateModule` after its prompts: a directory without `package.json` is no
      project and the command throws; otherwise the module is created. */
  method GenerateModule(hasPackageJson: bool, name: string, moduleType: string, store: Store)
    returns (r: Result<seq<Outcome>>)
    ensures !hasPackageJson <==> r.Err?
    ensures r.Ok? ==> |r.value| == |FilesToGenerate(moduleType)|
    ensures r.Ok? ==> forall j :: 0 <= j < |r.value| ==>
      r.value[j] == KindOutcome(store, FilesToGenerate(moduleType)[j], name)
  {
    if !hasPackageJson {
      return Err("package.json");
    }
    var outcomes := CreateModuleInProject(name, moduleType, store);
    return Ok(outcomes);
  }
}
