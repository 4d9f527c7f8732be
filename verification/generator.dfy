/** Project generation: the fixed order of steps, the templates each step copies, the
    modules it creates, and the package manifest. */
module Generator {
  import opened Wrappers
  import opened Values
  import opened Template
  import opened Files
  import opened Cli
  import opened Options
  import opened Manifest
  import opened Text
  import opened RenderLaws

  /** The steps of `generate`, named after the methods that perform them. */
  datatype Step =
    | CreateProjectFolder | InitializePackageJson | SetupTypeScript | CopyBaseTemplates | SetupDatabase
    | SetupAuthentication | SetupDocker | SetupTesting | SetupSwagger | CreateModules

  /** Every step, in the order `generate` would run them all. */
  const AllSteps: seq<Step> := [
    CreateProjectFolder, InitializePackageJson, SetupTypeScript, CopyBaseTemplates, SetupDatabase,
    SetupAuthentication, SetupDocker, SetupTesting, SetupSwagger, CreateModules
  ]

  /** The place of a step in `AllSteps`. */
  function Rank(s: Step): (r: nat)
    ensures r < |AllSteps| && AllSteps[r] == s
  {
    match s
    case CreateProjectFolder => 0
    case InitializePackageJson => 1
    case SetupTypeScript => 2
    case CopyBaseTemplates => 3
    case SetupDatabase => 4
    case SetupAuthentication => 5
    case SetupDocker => 6
    case SetupTesting => 7
    case SetupSwagger => 8
    case CreateModules => 9
  }

  /** Whether `generate` runs a step: a feature's step only when it is chosen. */
  predicate Enabled(o: Options, s: Step) {
    match s
    case SetupAuthentication => o.authentication
    case SetupDocker => o.docker
    case SetupTesting => o.testing
    case SetupSwagger => o.swagger
    case _ => true
  }

  /** The enabled steps of `ss`, in order. */
  function Filter(o: Options, ss: seq<Step>): (r: seq<Step>)
    ensures |r| <= |ss|
    decreases |ss|
  {
    if ss == [] then []
    else (if Enabled(o, ss[0]) then [ss[0]] else []) + Filter(o, ss[1..])
  }

  /** The filter keeps exactly the enabled steps. */
  lemma {:induction false} FilterHas(o: Options, ss: seq<Step>, s: Step)
    ensures s in Filter(o, ss) <==> s in ss && Enabled(o, s)
    decreases |ss|
  {
    if ss != [] {
      FilterHas(o, ss[1..], s);
      assert ss == [ss[0]] + ss[1..];
    }
  }

  /** The steps `generate` runs: the five fixed steps, the chosen features
      (authentication, Docker, testing, Swagger), then the default modules. */
  function Steps(o: Options): seq<Step> {
    Filter(o, AllSteps)
  }

  /** Ranks strictly increase along the list. */
  predicate Ascending(ss: seq<Step>) {
    forall i, j :: 0 <= i < j < |ss| ==> Rank(ss[i]) < Rank(ss[j])
  }

  lemma {:induction false} FilterAscending(o: Options, ss: seq<Step>)
    requires Ascending(ss)
    ensures Ascending(Filter(o, ss))
    decreases |ss|
  {
    if ss != [] {
      AscendingTail(ss);
      FilterAscending(o, ss[1..]);
      var head := if Enabled(o, ss[0]) then [ss[0]] else [];
      var tail := Filter(o, ss[1..]);
      forall x | x in tail ensures x in ss[1..] {
        FilterHas(o, ss[1..], x);
      }
      AscendingCons(head, tail);
    }
  }

  /** The rest of an ascending list is ascending and above its first step. */
  lemma AscendingTail(ss: seq<Step>)
    requires Ascending(ss) && ss != []
    ensures Ascending(ss[1..])
    ensures forall x :: x in ss[1..] ==> Rank(ss[0]) < Rank(x)
  {
    var rest := ss[1..];
    forall i, j | 0 <= i < j < |rest| ensures Rank(rest[i]) < Rank(rest[j]) {
      assert rest[i] == ss[i + 1] && rest[j] == ss[j + 1];
    }
    forall x | x in rest ensures Rank(ss[0]) < Rank(x) {
      var j :| 0 <= j < |rest| && rest[j] == x;
      assert rest[j] == ss[j + 1];
    }
  }

  /** At most one step below an ascending list keeps it ascending. */
  lemma AscendingCons(head: seq<Step>, tail: seq<Step>)
    requires |head| <= 1 && Ascending(tail)
    requires forall y, x :: y in head && x in tail ==> Rank(y) < Rank(x)
    ensures Ascending(head + tail)
  {
    var r := head + tail;
    forall i, j | 0 <= i < j < |r| ensures Rank(r[i]) < Rank(r[j]) {
      if i < |head| {
        assert r[i] in head;
        assert r[j] == tail[j - |head|] && r[j] in tail;
      } else {
        assert r[i] == tail[i - |head|] && r[j] == tail[j - |head|];
      }
    }
  }

  lemma AllStepsAscending()
    ensures Ascending(AllSteps)
  {
    assert forall i :: 0 <= i < |AllSteps| ==> Rank(AllSteps[i]) == i;
  }

  /** The steps run in the order of `AllSteps`, so each at most once. */
  lemma StepsInOrder(o: Options)
    ensures Ascending(Steps(o))
  {
    AllStepsAscending();
    FilterAscending(o, AllSteps);
  }

  /** Every step is listed in `AllSteps`. */
  lemma Listed(s: Step)
    ensures s in AllSteps
  {
    assert AllSteps[Rank(s)] == s;
  }

  /** A step runs exactly when it is enabled: every fixed step always, a feature's step
      exactly when the feature is chosen. */
  lemma StepsChosen(o: Options, s: Step)
    ensures s in Steps(o) <==> Enabled(o, s)
  {
    Listed(s);
    FilterHas(o, AllSteps, s);
  }

  /** In an ascending list, the step of the lowest rank comes first and the step of
      the highest rank last. */
  lemma AscendingEnds(ss: seq<Step>)
    requires Ascending(ss) && CreateProjectFolder in ss && CreateModules in ss
    ensures ss[0] == CreateProjectFolder && ss[|ss| - 1] == CreateModules
  {
    var i :| 0 <= i < |ss| && ss[i] == CreateProjectFolder;
    var j :| 0 <= j < |ss| && ss[j] == CreateModules;
    assert Rank(ss[0]) >= Rank(ss[i]) && Rank(ss[j]) >= Rank(ss[|ss| - 1]);
  }

  /** The project folder is made first and the default modules are created last. */
  lemma StepsEnds(o: Options)
    ensures |Steps(o)| > 0
    ensures Steps(o)[0] == CreateProjectFolder && Steps(o)[|Steps(o)| - 1] == CreateModules
  {
    StepsChosen(o, CreateProjectFolder);
    StepsChosen(o, CreateModules);
    StepsInOrder(o);
    AscendingEnds(Steps(o));
  }

  /** The `copyTemplate(template, destination)` calls of each step, in order. */
  function StepCopies(s: Step): seq<(string, string)> {
    match s
    case SetupTypeScript => [("base/tsconfig.json.tmpl", "tsconfig.json")]
    case CopyBaseTemplates => [
      ("base/src/app.ts.tmpl", "src/app.ts"),
      ("base/src/index.ts.tmpl", "src/index.ts"),
      ("base/src/utils/logger.ts.tmpl", "src/utils/logger.ts"),
      ("base/src/config/index.ts.tmpl", "src/config/index.ts"),
      ("base/.env.tmpl", ".env"),
      ("base/.gitignore.tmpl", ".gitignore"),
      ("base/README.md.tmpl", "README.md")]
    case SetupDatabase => [("database/mysql/index.ts.tmpl", "src/config/database/index.ts")]
    case SetupAuthentication => [("auth/auth.middleware.ts.tmpl", "src/middlewares/auth.middleware.ts")]
    case SetupDocker => [
      ("docker/Dockerfile.tmpl", "Dockerfile"),
      ("docker/docker-compose.mysql.yml.tmpl", "docker-compose.yml")]
    case SetupTesting => [
      ("testing/jest.config.ts.tmpl", "jest.config.ts"),
      ("testing/app.test.ts.tmpl", "src/tests/app.test.ts")]
    case SetupSwagger => [("swagger/swagger.ts.tmpl", "src/config/swagger.ts")]
    case _ => []
  }

  /** The module a step creates with `createModule`, if any. */
  function StepModule(s: Step): Option<string> {
    match s
    case SetupAuthentication => Some("auth")
    case CreateModules => Some("user")
    case _ => None
  }

  /** The order in which `createModule` writes a default module's files. */
  const ModuleOrder: seq<Kind> := [Index, Controller, Service, Model, Interface, Validation, Routes]

  /** The authentication module's own templates, under `auth`, and the files they give. */
  const AuthFiles: seq<(string, string)> := [
    ("index.ts.tmpl", "index.ts"),
    ("auth.controller.ts.tmpl", "auth.controller.ts"),
    ("auth.routes.ts.tmpl", "auth.routes.ts"),
    ("auth.validation.ts.tmpl", "auth.validation.ts"),
    ("auth.middleware.ts.tmpl", "auth.middleware.ts")
  ]

  /** The (template path, output file) pairs `createModule` works through: the
      authentication module's own list for `auth`, the default module's table (the
      same templates and file names as the CLI's kind table) for any other name. */
  function ModuleFiles(name: string): (r: seq<(string, string)>)
    ensures name == "auth" ==> |r| == |AuthFiles|
    ensures name == "auth" ==> forall i :: 0 <= i < |r| ==> r[i] == (PathJoin("auth", AuthFiles[i].0), AuthFiles[i].1)
    ensures name != "auth" ==> |r| == |ModuleOrder|
    ensures name != "auth" ==> forall i :: 0 <= i < |r| ==>
      r[i] == (PathJoin(ModuleTemplateDir, KindTemplate(ModuleOrder[i])), KindTarget(ModuleOrder[i], name))
  {
    if name == "auth" then
      seq(|AuthFiles|, i requires 0 <= i < |AuthFiles| => (PathJoin("auth", AuthFiles[i].0), AuthFiles[i].1))
    else
      seq(|ModuleOrder|, i requires 0 <= i < |ModuleOrder| =>
        (PathJoin(ModuleTemplateDir, KindTemplate(ModuleOrder[i])), KindTarget(ModuleOrder[i], name)))
  }

  /** The variables a module created by the generator is rendered with. */
  function NameVars(name: string): (r: Vars)
    ensures AllStrings(r) && ValidVars(r)
    ensures Keys(r) == ["moduleName"] && ValueOf(r, "moduleName") == Str(name)
  {
    [("moduleName", Str(name))]
  }

  /** `createModule(name)`: each file of the module's list, in order, rendered when its
      template exists and passed over silently otherwise. */
  function CreateModule(store: Store, name: string): (r: seq<Outcome>)
    ensures |r| == |ModuleFiles(name)|
    ensures forall i :: 0 <= i < |r| ==> (r[i].Wrote? <==> ModuleFiles(name)[i].0 in store)
    ensures forall i :: 0 <= i < |r| && r[i].Wrote? ==>
      r[i].file == ModuleFiles(name)[i].1 && Render(store[ModuleFiles(name)[i].0], NameVars(name)) == Ok(r[i].content)
  {
    var files := ModuleFiles(name);
    seq(|files|, i requires 0 <= i < |files| => Produce(store, files[i].0, files[i].1, NameVars(name)))
  }

  /** A file of the generated project: path relative to the project folder, and text. */
  type Write = (string, string)

  function Dests(ws: seq<Write>): (r: seq<string>)
    ensures |r| == |ws| && forall i :: 0 <= i < |ws| ==> r[i] == ws[i].0
  {
    seq(|ws|, i requires 0 <= i < |ws| => ws[i].0)
  }

  /** The files a created module adds, under `src/modules/<name>`. */
  function ModuleWrites(outcomes: seq<Outcome>, name: string): (r: seq<Write>)
    ensures forall w :: w in r ==>
      exists i :: 0 <= i < |outcomes| && outcomes[i].Wrote? && w == (PathJoin("src/modules/" + name, outcomes[i].file), outcomes[i].content)
    ensures forall i :: 0 <= i < |outcomes| && outcomes[i].Wrote? ==>
      (PathJoin("src/modules/" + name, outcomes[i].file), outcomes[i].content) in r
  {
    if outcomes == [] then []
    else
      var rest := ModuleWrites(outcomes[1..], name);
      assert forall i :: 1 <= i < |outcomes| ==> outcomes[i] == outcomes[1..][i - 1];
      if outcomes[0].Wrote? then [(PathJoin("src/modules/" + name, outcomes[0].file), outcomes[0].content)] + rest
      else rest
  }

  /** The copies in order; a throw while rendering ends the run. */
  function RunCopies(store: Store, o: Options, copies: seq<(string, string)>): Result<seq<Write>>
    decreases |copies|
  {
    if copies == [] then Ok([])
    else match CopyTemplate(store, o, [], copies[0].0, copies[0].1)
      case Err(e) => Err(e)
      case Ok(w) =>
        match RunCopies(store, o, copies[1..])
        case Err(e) => Err(e)
        case Ok(ws) => Ok((if w.Some? then [w.value] else []) + ws)
  }

  /** What a step writes: its copies, then the module it creates, if any. */
  function Perform(store: Store, o: Options, copies: seq<(string, string)>, moduleName: Option<string>)
    : Result<seq<Write>>
  {
    match RunCopies(store, o, copies)
    case Err(e) => Err(e)
    case Ok(ws) =>
      match moduleName
      case None => Ok(ws)
      case Some(m) => Ok(ws + ModuleWrites(CreateModule(store, m), m))
  }

  /** What one step writes. */
  function StepWrites(store: Store, o: Options, s: Step): Result<seq<Write>> {
    Perform(store, o, StepCopies(s), StepModule(s))
  }

  /** Each step's result, in order. */
  function StepResults(store: Store, o: Options, steps: seq<Step>): (r: seq<Result<seq<Write>>>)
    ensures |r| == |steps| && forall i :: 0 <= i < |steps| ==> r[i] == StepWrites(store, o, steps[i])
  {
    seq(|steps|, i requires 0 <= i < |steps| => StepWrites(store, o, steps[i]))
  }

  /** Step results in order: the first thrown error, or all writes in order. */
  function Collect(rs: seq<Result<seq<Write>>>): Result<seq<Write>>
    decreases |rs|
  {
    if rs == [] then Ok([])
    else match rs[0]
      case Err(e) => Err(e)
      case Ok(ws) =>
        match Collect(rs[1..])
        case Err(e) => Err(e)
        case Ok(rest) => Ok(ws + rest)
  }

  /** The steps in order; the first throw ends the generation. */
  function RunSteps(store: Store, o: Options, steps: seq<Step>): Result<seq<Write>> {
    Collect(StepResults(store, o, steps))
  }

  /** The generated project: its manifest and its other files. */
  datatype Project = Project(manifest: Manifest, files: seq<Write>)

  /** `generate(options)`. `folderExists` says whether the project folder is already
      there (the process then exits); `parsed` is the rendered manifest template read
      as JSON (`None` when it is no valid JSON); `store` holds the shipped templates. */
  function Generate(o: Options, folderExists: bool, parsed: Option<Manifest>, store: Store): (r: Result<Project>)
    ensures folderExists ==> r.Err?
    ensures r.Ok? <==>
      && !folderExists
      && PackageJson(parsed, o.projectName, o.authentication, o.swagger, o.testing).Ok?
      && RunSteps(store, o, Steps(o)).Ok?
    ensures r.Ok? ==> PackageJson(parsed, o.projectName, o.authentication, o.swagger, o.testing) == Ok(r.value.manifest)
    ensures r.Ok? ==> RunSteps(store, o, Steps(o)) == Ok(r.value.files)
  {
    if folderExists then Err("project folder exists")
    else match PackageJson(parsed, o.projectName, o.authentication, o.swagger, o.testing)
      case Err(e) => Err(e)
      case Ok(m) =>
        match RunSteps(store, o, Steps(o))
        case Err(e) => Err(e)
        case Ok(files) => Ok(Project(m, files))
  }

  /** Every stored template renders without a throw under the options. */
  predicate StoreRenders(store: Store, o: Options) {
    forall name :: name in store ==> Render(store[name], OptionVars(o)).Ok?
  }

  /** Templates with no `{{` render to themselves, so such a store never throws. */
  lemma PlainStoreRenders(store: Store, o: Options)
    requires forall name :: name in store ==> NoOpen(store[name])
    ensures StoreRenders(store, o)
  {
    forall name | name in store ensures Render(store[name], OptionVars(o)).Ok? {
      NoOpenRendersVerbatim(store[name], OptionVars(o));
    }
  }

  /** Copying runs through when no stored template throws. */
  lemma {:induction false} RunCopiesOk(store: Store, o: Options, copies: seq<(string, string)>)
    requires StoreRenders(store, o)
    ensures RunCopies(store, o, copies).Ok?
    decreases |copies|
  {
    if copies != [] {
      MergeNothing(OptionVars(o));
      RunCopiesOk(store, o, copies[1..]);
    }
  }

  /** Every step, and so the whole run, succeeds when no stored template throws. */
  lemma RunStepsOk(store: Store, o: Options, steps: seq<Step>)
    requires StoreRenders(store, o)
    ensures RunSteps(store, o, steps).Ok?
  {
    var rs := StepResults(store, o, steps);
    forall i | 0 <= i < |steps| ensures rs[i].Ok? {
      RunCopiesOk(store, o, StepCopies(steps[i]));
    }
    CollectPaths(rs, "");
  }

  /** With a new folder and no throwing template, generation succeeds exactly when the
      manifest has the sections the chosen features assign into; the fallback manifest
      always has them. */
  lemma GenerateOk(o: Options, parsed: Option<Manifest>, store: Store)
    requires StoreRenders(store, o)
    ensures Generate(o, false, parsed, store).Ok? <==>
      NeededSections(parsed.GetOr(Fallback(o.projectName)), o.authentication, o.swagger, o.testing)
    ensures parsed.None? ==> Generate(o, false, parsed, store).Ok?
  {
    RunStepsOk(store, o, Steps(o));
  }

  /** Collecting succeeds exactly when every step does, and then a path is written
      exactly when some step writes it. */
  lemma {:induction false} CollectPaths(rs: seq<Result<seq<Write>>>, p: string)
    ensures Collect(rs).Ok? <==> forall i :: 0 <= i < |rs| ==> rs[i].Ok?
    ensures Collect(rs).Ok? ==>
      (p in Dests(Collect(rs).value) <==> exists i :: 0 <= i < |rs| && p in Dests(rs[i].value))
    decreases |rs|
  {
    if rs != [] {
      var rest := rs[1..];
      CollectPaths(rest, p);
      assert forall i :: 1 <= i < |rs| ==> rs[i] == rest[i - 1];
      if Collect(rs).Ok? {
        var ws, tail := rs[0].value, Collect(rest).value;
        DestsConcat(ws, tail, p);
        if p in Dests(tail) {
          var i :| 0 <= i < |rest| && p in Dests(rest[i].value);
          assert rs[i + 1] == rest[i];
        }
      }
    }
  }

  /** A successful generation runs every step successfully, and a path is written
      exactly when one of the steps run writes it. */
  lemma RunStepsPaths(store: Store, o: Options, steps: seq<Step>, p: string)
    requires RunSteps(store, o, steps).Ok?
    ensures forall i :: 0 <= i < |steps| ==> StepWrites(store, o, steps[i]).Ok?
    ensures p in Dests(RunSteps(store, o, steps).value) <==>
      exists i :: 0 <= i < |steps| && p in Dests(StepWrites(store, o, steps[i]).value)
  {
    CollectPaths(StepResults(store, o, steps), p);
  }

  lemma DestsConcat(a: seq<Write>, b: seq<Write>, p: string)
    ensures p in Dests(a + b) <==> p in Dests(a) || p in Dests(b)
  {
    assert Dests(a + b) == Dests(a) + Dests(b);
  }

  predicate IsPrefix(pre: string, p: string) {
    |pre| <= |p| && p[..|pre|] == pre
  }

  /** The directory of a created module's files. */
  function ModuleDir(name: string): string {
    "src/modules/" + name
  }

  /** The paths a step can write at all: its copies' destinations and, when it creates
      a module, files in that module's directory. */
  predicate MayWrite(s: Step, p: string) {
    || (exists i :: 0 <= i < |StepCopies(s)| && StepCopies(s)[i].1 == p)
    || (StepModule(s).Some? && IsPrefix(ModuleDir(StepModule(s).value) + "/", p))
  }

  /** A created module's files all lie in its folder. */
  lemma ModuleWritesWithin(outcomes: seq<Outcome>, m: string, p: string)
    requires p in Dests(ModuleWrites(outcomes, m))
    ensures IsPrefix(ModuleDir(m) + "/", p)
  {
    var mods := ModuleWrites(outcomes, m);
    var k :| 0 <= k < |mods| && mods[k].0 == p;
    assert mods[k] in mods;
    var i :| 0 <= i < |outcomes| && outcomes[i].Wrote? &&
      mods[k] == (PathJoin("src/modules/" + m, outcomes[i].file), outcomes[i].content);
    assert p == ModuleDir(m) + "/" + outcomes[i].file;
    assert p[..|ModuleDir(m) + "/"|] == ModuleDir(m) + "/";
  }

  /** Each file a run of copies writes is the destination of one of its copies. */
  lemma {:induction false} CopiesWithin(store: Store, o: Options, copies: seq<(string, string)>, p: string)
    requires RunCopies(store, o, copies).Ok? && p in Dests(RunCopies(store, o, copies).value)
    ensures exists i :: 0 <= i < |copies| && copies[i].1 == p
    decreases |copies|
  {
    if copies != [] {
      var w := CopyTemplate(store, o, [], copies[0].0, copies[0].1).value;
      var ws := RunCopies(store, o, copies[1..]).value;
      var mine := if w.Some? then [w.value] else [];
      DestsConcat(mine, ws, p);
      if p in Dests(ws) {
        CopiesWithin(store, o, copies[1..], p);
        var i :| 0 <= i < |copies[1..]| && copies[1..][i].1 == p;
        assert copies[i + 1] == copies[1..][i];
      } else {
        assert Dests(mine)[0] == copies[0].1;
      }
    }
  }

  /** A run of copies writes every copy whose template exists. */
  lemma {:induction false} CopiesWritten(store: Store, o: Options, copies: seq<(string, string)>, i: nat)
    requires RunCopies(store, o, copies).Ok?
    requires i < |copies| && copies[i].0 in store
    ensures copies[i].1 in Dests(RunCopies(store, o, copies).value)
    decreases |copies|
  {
    var w := CopyTemplate(store, o, [], copies[0].0, copies[0].1).value;
    var ws := RunCopies(store, o, copies[1..]).value;
    var mine := if w.Some? then [w.value] else [];
    DestsConcat(mine, ws, copies[i].1);
    if i == 0 {
      assert Dests(mine)[0] == copies[0].1;
    } else {
      assert copies[i] == copies[1..][i - 1];
      CopiesWritten(store, o, copies[1..], i - 1);
    }
  }

  /** What a step writes lies among its copies' destinations and, when it creates a
      module, that module's directory. */
  lemma PerformWithin(store: Store, o: Options, copies: seq<(string, string)>, name: Option<string>, p: string)
    requires Perform(store, o, copies, name).Ok? && p in Dests(Perform(store, o, copies, name).value)
    ensures || (exists i :: 0 <= i < |copies| && copies[i].1 == p)
            || (name.Some? && IsPrefix(ModuleDir(name.value) + "/", p))
  {
    var cs := RunCopies(store, o, copies).value;
    if name.Some? {
      var mods := ModuleWrites(CreateModule(store, name.value), name.value);
      DestsConcat(cs, mods, p);
      if p in Dests(mods) {
        ModuleWritesWithin(CreateModule(store, name.value), name.value, p);
      } else {
        CopiesWithin(store, o, copies, p);
      }
    } else {
      CopiesWithin(store, o, copies, p);
    }
  }

  /** A step writes no path outside what it can write. */
  lemma StepWritesWithin(store: Store, o: Options, s: Step, p: string)
    requires StepWrites(store, o, s).Ok? && p in Dests(StepWrites(store, o, s).value)
    ensures MayWrite(s, p)
  {
    PerformWithin(store, o, StepCopies(s), StepModule(s), p);
  }

  /** Running copies writes every copy whose template exists. */
  lemma PerformCopies(store: Store, o: Options, copies: seq<(string, string)>, name: Option<string>, i: nat)
    requires Perform(store, o, copies, name).Ok?
    requires i < |copies| && copies[i].0 in store
    ensures copies[i].1 in Dests(Perform(store, o, copies, name).value)
  {
    var cs := RunCopies(store, o, copies).value;
    CopiesWritten(store, o, copies, i);
    if name.Some? {
      DestsConcat(cs, ModuleWrites(CreateModule(store, name.value), name.value), copies[i].1);
    }
  }

  /** A step that runs writes every copy whose template exists. */
  lemma CopyWritten(store: Store, o: Options, s: Step, i: nat)
    requires StepWrites(store, o, s).Ok?
    requires i < |StepCopies(s)| && StepCopies(s)[i].0 in store
    ensures StepCopies(s)[i].1 in Dests(StepWrites(store, o, s).value)
  {
    PerformCopies(store, o, StepCopies(s), StepModule(s), i);
  }

  /** A path that only step `s` writes, and that `s` writes whenever it succeeds, is in
      a successful run exactly when `s` is among the steps run. */
  lemma OwnedPath(store: Store, o: Options, ss: seq<Step>, s: Step, p: string)
    requires RunSteps(store, o, ss).Ok?
    requires StepWrites(store, o, s).Ok? ==> p in Dests(StepWrites(store, o, s).value)
    requires forall x :: StepWrites(store, o, x).Ok? && p in Dests(StepWrites(store, o, x).value) ==> x == s
    ensures p in Dests(RunSteps(store, o, ss).value) <==> s in ss
  {
    RunStepsPaths(store, o, ss, p);
    if s in ss {
      var j :| 0 <= j < |ss| && ss[j] == s;
    }
  }

  /** No step but the Docker step may write `Dockerfile`. */
  lemma DockerfileMay(s: Step)
    ensures MayWrite(s, "Dockerfile") ==> s == SetupDocker
  {
    var c := StepCopies(s);
    if s != SetupDocker {
      forall i | 0 <= i < |c| ensures c[i].1 != "Dockerfile" {
        assert c[i].1[0] != 'D';
      }
      if StepModule(s).Some? {
        assert ModuleDir(StepModule(s).value)[0] == 's';
      }
    }
  }

  /** No step but the testing step may write `jest.config.ts`. */
  lemma JestConfigMay(s: Step)
    ensures MayWrite(s, "jest.config.ts") ==> s == SetupTesting
  {
    var c := StepCopies(s);
    if s != SetupTesting {
      forall i | 0 <= i < |c| ensures c[i].1 != "jest.config.ts" {
        assert c[i].1[0] != 'j';
      }
      if StepModule(s).Some? {
        assert ModuleDir(StepModule(s).value)[0] == 's';
      }
    }
  }

  /** No step but the authentication step may write the authentication middleware. */
  lemma MiddlewareMay(s: Step)
    ensures MayWrite(s, "src/middlewares/auth.middleware.ts") ==> s == SetupAuthentication
  {
    var c := StepCopies(s);
    if s != SetupAuthentication {
      forall i | 0 <= i < |c| ensures c[i].1 != "src/middlewares/auth.middleware.ts" {
        assert |c[i].1| < 6 || c[i].1[5] != 'i';
      }
      if StepModule(s).Some? {
        var pre := ModuleDir(StepModule(s).value) + "/";
        assert pre[5] == 'o';
        assert |pre| <= 34 ==> "src/middlewares/auth.middleware.ts"[..|pre|][5] != pre[5];
      }
    }
  }

  /** When only step `s` may write path `p`, no other step's writes hold it. */
  lemma OnlyWriter(store: Store, o: Options, s: Step, p: string)
    requires forall x :: MayWrite(x, p) ==> x == s
    ensures forall x :: StepWrites(store, o, x).Ok? && p in Dests(StepWrites(store, o, x).value) ==> x == s
  {
    forall x | StepWrites(store, o, x).Ok? && p in Dests(StepWrites(store, o, x).value) {
      StepWritesWithin(store, o, x, p);
    }
  }

  /** The destination of a step's copy whose template is present, and that no other step
      writes, is in a successful run exactly when the step is among the steps run. */
  lemma OwnedCopy(store: Store, o: Options, ss: seq<Step>, s: Step, i: nat)
    requires RunSteps(store, o, ss).Ok?
    requires i < |StepCopies(s)| && StepCopies(s)[i].0 in store
    requires forall x :: StepWrites(store, o, x).Ok? && StepCopies(s)[i].1 in Dests(StepWrites(store, o, x).value) ==> x == s
    ensures StepCopies(s)[i].1 in Dests(RunSteps(store, o, ss).value) <==> s in ss
  {
    if StepWrites(store, o, s).Ok? {
      CopyWritten(store, o, s, i);
    }
    OwnedPath(store, o, ss, s, StepCopies(s)[i].1);
  }

  /** The destination of a step's copy that only that step may write is in a successful
      run exactly when the step is among the steps run (given its template). */
  lemma OwnedCopyRun(store: Store, o: Options, ss: seq<Step>, s: Step, i: nat)
    requires RunSteps(store, o, ss).Ok?
    requires i < |StepCopies(s)| && StepCopies(s)[i].0 in store
    requires forall x :: MayWrite(x, StepCopies(s)[i].1) ==> x == s
    ensures StepCopies(s)[i].1 in Dests(RunSteps(store, o, ss).value) <==> s in ss
  {
    OnlyWriter(store, o, s, StepCopies(s)[i].1);
    OwnedCopy(store, o, ss, s, i);
  }

  lemma DockerfileOnly()
    ensures forall x :: MayWrite(x, "Dockerfile") ==> x == SetupDocker
  {
    forall x ensures MayWrite(x, "Dockerfile") ==> x == SetupDocker {
      DockerfileMay(x);
    }
  }

  lemma DockerfileRun(store: Store, o: Options, ss: seq<Step>)
    requires RunSteps(store, o, ss).Ok?
    requires "docker/Dockerfile.tmpl" in store
    ensures "Dockerfile" in Dests(RunSteps(store, o, ss).value) <==> SetupDocker in ss
  {
    DockerfileOnly();
    OwnedCopyRun(store, o, ss, SetupDocker, 0);
  }

  lemma DockerfileSteps(store: Store, o: Options)
    requires RunSteps(store, o, Steps(o)).Ok?
    requires "docker/Dockerfile.tmpl" in store
    ensures "Dockerfile" in Dests(RunSteps(store, o, Steps(o)).value) <==> o.docker
  {
    DockerfileRun(store, o, Steps(o));
    StepsChosen(o, SetupDocker);
  }

  /** A successful generation holds a `Dockerfile` exactly when Docker was chosen
      (given the shipped Dockerfile template). */
  lemma DockerfileIffDocker(o: Options, folderExists: bool, parsed: Option<Manifest>, store: Store)
    requires Generate(o, folderExists, parsed, store).Ok?
    requires "docker/Dockerfile.tmpl" in store
    ensures "Dockerfile" in Dests(Generate(o, folderExists, parsed, store).value.files) <==> o.docker
  {
    DockerfileSteps(store, o);
  }

  /** With a new folder, the fallback manifest and brace-free templates, a Docker
      project is generated and holds its `Dockerfile`. */
  lemma DockerProjectWritesDockerfile(o: Options, store: Store)
    requires o.docker && "docker/Dockerfile.tmpl" in store
    requires forall name :: name in store ==> NoOpen(store[name])
    ensures Generate(o, false, None, store).Ok?
    ensures "Dockerfile" in Dests(Generate(o, false, None, store).value.files)
  {
    PlainStoreRenders(store, o);
    GenerateOk(o, None, store);
    DockerfileIffDocker(o, false, None, store);
  }

  lemma JestConfigOnly()
    ensures forall x :: MayWrite(x, "jest.config.ts") ==> x == SetupTesting
  {
    forall x ensures MayWrite(x, "jest.config.ts") ==> x == SetupTesting {
      JestConfigMay(x);
    }
  }

  lemma JestConfigRun(store: Store, o: Options, ss: seq<Step>)
    requires RunSteps(store, o, ss).Ok?
    requires "testing/jest.config.ts.tmpl" in store
    ensures "jest.config.ts" in Dests(RunSteps(store, o, ss).value) <==> SetupTesting in ss
  {
    JestConfigOnly();
    OwnedCopyRun(store, o, ss, SetupTesting, 0);
  }

  lemma JestConfigSteps(store: Store, o: Options)
    requires RunSteps(store, o, Steps(o)).Ok?
    requires "testing/jest.config.ts.tmpl" in store
    ensures "jest.config.ts" in Dests(RunSteps(store, o, Steps(o)).value) <==> o.testing
  {
    JestConfigRun(store, o, Steps(o));
    StepsChosen(o, SetupTesting);
  }

  /** A successful generation holds `jest.config.ts` exactly when testing was chosen
      (given the shipped Jest configuration template). */
  lemma JestConfigIffTesting(o: Options, folderExists: bool, parsed: Option<Manifest>, store: Store)
    requires Generate(o, folderExists, parsed, store).Ok?
    requires "testing/jest.config.ts.tmpl" in store
    ensures "jest.config.ts" in Dests(Generate(o, folderExists, parsed, store).value.files) <==> o.testing
  {
    JestConfigSteps(store, o);
  }

  lemma MiddlewareOnly()
    ensures forall x :: MayWrite(x, "src/middlewares/auth.middleware.ts") ==> x == SetupAuthentication
  {
    forall x ensures MayWrite(x, "src/middlewares/auth.middleware.ts") ==> x == SetupAuthentication {
      MiddlewareMay(x);
    }
  }

  lemma MiddlewareRun(store: Store, o: Options, ss: seq<Step>)
    requires RunSteps(store, o, ss).Ok?
    requires "auth/auth.middleware.ts.tmpl" in store
    ensures "src/middlewares/auth.middleware.ts" in Dests(RunSteps(store, o, ss).value) <==> SetupAuthentication in ss
  {
    MiddlewareOnly();
    OwnedCopyRun(store, o, ss, SetupAuthentication, 0);
  }

  lemma MiddlewareSteps(store: Store, o: Options)
    requires RunSteps(store, o, Steps(o)).Ok?
    requires "auth/auth.middleware.ts.tmpl" in store
    ensures "src/middlewares/auth.middleware.ts" in Dests(RunSteps(store, o, Steps(o)).value) <==> o.authentication
  {
    MiddlewareRun(store, o, Steps(o));
    StepsChosen(o, SetupAuthentication);
  }

  /** A successful generation holds the authentication middleware exactly when
      authentication was chosen (given its shipped template). */
  lemma MiddlewareIffAuthentication(o: Options, folderExists: bool, parsed: Option<Manifest>, store: Store)
    requires Generate(o, folderExists, parsed, store).Ok?
    requires "auth/auth.middleware.ts.tmpl" in store
    ensures "src/middlewares/auth.middleware.ts" in Dests(Generate(o, folderExists, parsed, store).value.files)
      <==> o.authentication
  {
    MiddlewareSteps(store, o);
  }
}
