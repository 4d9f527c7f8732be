# Express project generator — a Dafny model

This project models the core of an Express + TypeScript project generator:

- **The template renderer `processTemplate`.** It runs three passes over a template:
  - `{{#if k}}`, `{{#if !k}}` and `{{#if_eq k = w}}` blocks;
  - the `{{capitalizeFirstLetter k}}` helper;
  - `{{ k }}` placeholders.

  It also collects the `{{…}}` tokens left over at the end.
- **The generator's project pipeline (`generate`).** The steps run in a fixed order, and four of them are optional:
  - `package.json` is built from a parsed template or from a fallback, then gains the packages of the chosen features;
  - `copyTemplate` renders each template with the options spread into a variable map;
  - the default `user` module is created;
  - the `auth` module has its own file list.
- **The `generate:module` command in two versions.**
  - The CLI's version takes a module type and builds template and target names per file kind.
  - The generator's own `createModuleInProject` is modelled as written and as corrected (see Findings).
- **The entry point's argument dispatch.**

## How the model represents the program

- **Templates and variables.**
  - A template is a `string`.
  - A variable map is a sequence of `(key, value)` pairs in `Object.keys` order.
  - A value is `Str`, `Bool`, `Int` or `Undefined`, with JavaScript truthiness. `toString()` forms are modelled in `Values`.
  - Each regular expression of the renderer is a scanner over positions (`Scan`) that finds the same leftmost, shortest matches as the source's lazy patterns.
  - The replacement passes are explicit rewrites (`Template`).
- **Rendering.**
  - Rendering returns `Result<string>`. `Err(k)` is the `TypeError` the helper throws when handed a non-string.
- **Files.**
  - A `Store` maps template paths to their contents, and stands for the template directory.
  - Writes are `(destination, content)` pairs.
  - A file operation's `Outcome` is `Wrote(file, content)` or `Missing(template)`.
  - `copyTemplate`'s `extraVars` is the `extra` parameter of `Options.CopyTemplate`. Every call in src/generator.ts:160-241 passes the default `{}`, so `CopyLaws.ExtraPlaceholderCopy` and `CopyLaws.ExtraPlaceholderInContext` state laws for a parameter no caller uses.
  - An `Outcome`'s file is relative to the module folder. The module command writes it to `src/modules/<name>/<file>` (src/cli.ts:143, src/cli.ts:162), and `Generator.ModuleWrites` adds that folder for the project's modules.
- **Inputs from outside.**
  - The file-system checks the program makes become boolean parameters: whether the project folder, `src`, `package.json` or the module folder exist.
  - Prompt answers are the `Options` datatype.

Modules, in dependency order:

- `Wrappers`, `Text`, `Values`: the basic types and string helpers.
- `Scan`, `Template`: the renderer.
- `RenderLaws`, `Blocks`, `BlockPositions`, `BlockTags`, `BlockReads`, `BlockLaws`, `Tokens`: laws about the renderer on single blocks and tokens.
- `Pieces`, `PieceReads`, `PiecePasses`, `PieceRender`: a template written as a sequence of pieces (plain text, blocks, placeholders, helper calls, stray closing tags); each pass acts piece by piece, so rendering is compositional.
- `Files`, `Cli`: the CLI's module command.
- `Options`, `CopyLaws`: `copyTemplate` and the spread of the options.
- `Manifest`: `package.json`.
- `Generator`: the project pipeline and its file-ownership theorems.
- `ProjectModule`: the generator's `createModuleInProject`.
- `Dispatch`: the entry point.

The placeholder pass and the conditional passes visit only the keys of the variable map (src/utils/template.utils.ts:14 and :47). A placeholder or block whose key is absent therefore stays in the output verbatim, and only the leftover warning reports it. See `Tokens.PlaceholderRenders` and `BlockLaws.AbsentKeyBlockVerbatim`.

## Model

| member | source | states |
|---|---|---|
| RenderLaws.NoOpenRendersVerbatim | src/utils/template.utils.ts:7-58 | A template with no `{{` is returned unchanged, whatever the variables |
| RenderLaws.RenderStringsOk | src/utils/template.utils.ts:37-44 | Rendering with a map whose every value is a string never throws |
| RenderLaws.RenderErr | src/utils/template.utils.ts:37-44 | When rendering throws, the variable it names holds a boolean or a number: the helper's `charAt` on a non-string is the only throw |
| BlockLaws.PlainBlockRenders | src/utils/template.utils.ts:14-35 | A block over a present key renders to its body when the condition holds (truthy, falsy, or strictly equal to the word), and to nothing otherwise |
| BlockLaws.IfEqNeedsString | src/utils/template.utils.ts:29-34 | `if_eq` compares strictly: against a boolean or number value the block always disappears |
| BlockLaws.WhenUnlessComplement | src/utils/template.utils.ts:14-27 | Exactly one of `{{#if k}}x{{/if}}` and `{{#if !k}}x{{/if}}` keeps `x` for any value of `k` |
| BlockLaws.AbsentKeyBlockVerbatim | src/utils/template.utils.ts:14-35 | A block whose key is not in the variable map is left in the output untouched |
| Tokens.HelperTokenRenders | src/utils/template.utils.ts:37-44 | The helper capitalises a string value; for a boolean or number it throws, and the model records the variable in `Err`; for a variable that is undefined (and not an inherited name) the token stays as written |
| Tokens.PlaceholderRenders | src/utils/template.utils.ts:46-50 | `{{ k }}` renders to the value's string form (`""` for an empty or undefined value) when the key is present, and stays verbatim when it is absent |
| Tokens.PlaceholderInsideBlock | src/utils/template.utils.ts:13-50 | Blocks are resolved before placeholders: a placeholder inside a kept block is filled, one inside a dropped block disappears |
| BlockReads.BlockMatchAt | src/utils/template.utils.ts:16-34 | At a block's opening tag only the block's own pattern matches, and it reads up to the end of the first closing tag, capturing the content (and the compared word for `if_eq`) |
| PieceReads.PieceMatch | src/utils/template.utils.ts:14-50 | Each of the renderer's patterns either matches a piece whole, starting at its first character, or matches nowhere inside it |
| PiecePasses.PassPieces | src/utils/template.utils.ts:14-50 | One global `replace` over a template of pieces replaces exactly the pieces its pattern reads, each on its own |
| PiecePasses.ConditionalsPieces | src/utils/template.utils.ts:13-35 | The conditional phase resolves every block whose key is in the map by its own condition and leaves every other piece in place |
| PiecePasses.HelperPieces | src/utils/template.utils.ts:37-44 | The helper pass throws at the first helper call on a boolean or number and otherwise capitalises each call on a string, leaving calls on undefined variables and all other pieces in place (an absent inherited name reads as undefined: see Left out, `Values.ValueOf`) |
| PiecePasses.PlaceholdersPieces | src/utils/template.utils.ts:46-50 | The placeholder phase replaces each placeholder whose key is in the map by the value's string form and leaves every other piece in place |
| PiecePasses.FirstThrow | src/utils/template.utils.ts:37-44 | A helper call on a boolean or number exists exactly when one is reported, and the one reported is the first (calls on absent inherited names are not counted: see Left out, `Values.ValueOf`) |
| PieceRender.RenderPieces | src/utils/template.utils.ts:7-58 | A template made of pieces renders piece by piece, whatever stands around each piece; it throws exactly when some helper call is on a boolean or number, naming the first |
| PieceRender.RenderJoin | src/utils/template.utils.ts:7-58 | Rendering two templates of pieces written one after the other gives the two renderings joined, or the first throw |
| PieceRender.BlockInContext | src/utils/template.utils.ts:14-35 | A block between plain texts becomes its content or nothing when its key is in the map and stays as written otherwise; the texts are unchanged |
| PieceRender.PlaceholderInContext | src/utils/template.utils.ts:46-50 | A placeholder between plain texts becomes the value's string form when its key is in the map and stays as written otherwise |
| PieceRender.HelperInContext | src/utils/template.utils.ts:37-44 | A helper call between plain texts capitalises a string, throws on a boolean or number, and stays as written for an undefined variable |
| PieceRender.NonGreedy | src/utils/template.utils.ts:16-34 | The lazy block pattern stops at the first closing tag: a second closing tag after more text stays in the output |
| PieceRender.ThreeBlocksExample | src/utils/template.utils.ts:13-35 | `p{{#if a}}X{{/if}}q{{#if b}}Y{{/if}}r{{#if a}}Z{{/if}}s` with `a` true and `b` false renders to `pXqrZs` |
| PieceRender.NonGreedyExample | src/utils/template.utils.ts:16-27 | `{{#if a}}1{{/if}}2{{/if}}` with `a` true renders to `12{{/if}}` |
| Scan.FindCloseFirst | src/utils/template.utils.ts:16 | The lazy `[\s\S]*?` stops at a closing tag, and no closing tag starts between the block's opening tag and that one |
| Scan.FindCloseNone | src/utils/template.utils.ts:16 | When the lazy body finds no closing tag, none starts anywhere after the opening tag |
| Text.SkipWsSpaces | src/utils/template.utils.ts:16 | Every character `\s*` consumes is white space |
| Template.Leftovers | src/utils/template.utils.ts:52-56 | Every leftover token starts with `{{` and ends with `}}`; a text with no `{{` has none |
| Text.Capitalize | src/utils/template.utils.ts:75-77 | The first character is upper-cased, and the rest and the length are kept |
| Text.CapitalizeIdempotent | src/cli.ts:243-245 | Capitalising twice is the same as capitalising once |
| Values.ToStringForm | src/utils/template.utils.ts:49 | The placeholder text of each kind of value: a string as itself, `true`/`false`, decimal numbers, and `""` for `undefined`; an empty text only ever comes from a falsy value |
| Files.Produce | src/cli.ts:164-175 | A file is written exactly when its template exists, under the requested name, holding the template rendered with the variables; otherwise the missing template is reported |
| Cli.ParseKind | src/cli.ts:201-241 | A kind name is recognised exactly when it is one of the seven names |
| Cli.ParseKindName | src/cli.ts:201-241 | Every kind's own name parses back to that kind |
| Cli.FilesToGenerate | src/cli.ts:181-198 | A single-kind module type yields that one kind; `full` and any unknown text yield all seven kinds |
| Cli.TemplateFileName | src/cli.ts:201-220 | Non-empty exactly for a kind name, and then the catalog's template name, including the misspelt model entry |
| Cli.TargetFileName | src/cli.ts:222-241 | Non-empty exactly for a kind name, and then `<name>.<kind>.ts`, or `index.ts` for the index |
| Cli.TargetNamesDistinct | src/cli.ts:222-241 | Two different kinds never write the same file, whatever the module name |
| Cli.FilesWrittenOnce | src/cli.ts:154-176 | No file is written twice by one command |
| Cli.ModuleVars | src/cli.ts:166-169 | Module templates see `moduleName` as the name and `ModuleName` as its capitalised form |
| Cli.KindOutcome | src/cli.ts:157-176 | Each kind's file is written exactly when the kind's template is in the template directory, with the rendered template as content |
| Cli.CreateModuleInProject | src/cli.ts:121-179 | One outcome per kind of the module type, in order; a missing template skips only its own file |
| Cli.GenerateModule | src/cli.ts:32-40 | The command fails exactly when there is no `package.json`, and otherwise creates the module |
| Options.OptionVars | src/generator.ts:342 | The options as variables have distinct word keys, in the order the prompts ask them |
| Options.OptionValues | src/generator.ts:342 | Each option reads back under its own key: the project name as a string, each answer as a boolean |
| Options.MergeLookup | src/generator.ts:342 | In the spread variables, an extra variable overrides the option of the same name; other keys read the option |
| Options.MergeNothing | src/generator.ts:327 | Without extra variables the spread is the options themselves |
| Options.MergeValid | src/generator.ts:342 | The spread keeps keys distinct |
| Options.CopyTemplate | src/generator.ts:327-347 | The copy is skipped exactly when the template is missing; a written file goes to the destination and holds the template rendered with the options spread under the extra variables; an error is the renderer's throw on a variable bound to a boolean or a number; with string-only variables a present template is always written |
| CopyLaws.FeatureBlockCopy | src/generator.ts:327-347 | A feature block in a template is kept exactly when the answer matches its polarity |
| CopyLaws.FeatureEqBlockCopy | src/generator.ts:342 | An `if_eq` block over a feature answer is always dropped, because the answer is a boolean |
| CopyLaws.ProjectNameCopy | src/generator.ts:342 | `{{ projectName }}` becomes the project name |
| CopyLaws.FeatureHelperThrows | src/generator.ts:338-345 | The capitalise helper on a feature answer throws; the model records the answer's key in `Err` |
| CopyLaws.ExtraPlaceholderCopy | src/generator.ts:327-347 | A placeholder of an extra variable becomes the extra value |
| CopyLaws.FeatureBlockInContext | src/generator.ts:327-347 | A feature block between plain texts is resolved in place: its content when the answer matches its polarity, nothing otherwise, with the texts around it copied unchanged |
| CopyLaws.FeatureEqBlockInContext | src/generator.ts:342 | An `if_eq` block over a feature answer between plain texts leaves only the texts |
| CopyLaws.ProjectNameInContext | src/generator.ts:342 | `{{ projectName }}` between plain texts becomes the project name, with the texts unchanged |
| CopyLaws.FeatureHelperInContext | src/generator.ts:338-345 | The helper on a feature answer throws wherever it stands in the template |
| CopyLaws.ExtraPlaceholderInContext | src/generator.ts:327-347 | A placeholder of an extra variable between plain texts becomes the extra value, with the texts unchanged |
| Manifest.SetEntry | src/generator.ts:125-142 | Setting a package changes that entry only, and fails when its section is missing |
| Manifest.ApplyAllOk | src/generator.ts:124-143 | A list of package settings succeeds exactly when every section it names exists, and it keeps the other fields |
| Manifest.ApplyAllValues | src/generator.ts:124-143 | After the settings, an entry holds the last value set for it, or its old value if none was set |
| Manifest.AugmentNothing | src/generator.ts:124-143 | With no feature chosen, the manifest is unchanged |
| Manifest.AugmentOk | src/generator.ts:124-143 | The additions succeed when the sections they touch exist, and fail when one of them is missing |
| Manifest.AugmentOkIff | src/generator.ts:124-143 | The additions succeed exactly when the sections the chosen features assign into exist |
| Manifest.AugmentChosen | src/generator.ts:124-143 | After the additions, every chosen feature's package and the `test` script hold the values the code assigns |
| Manifest.FeatureSelection | src/generator.ts:124-143 | Each chosen feature's packages are distinct, and an unchosen feature contributes none |
| Manifest.AugmentEntry | src/generator.ts:124-143 | A chosen feature's package holds the feature's version; an unchosen feature's package is present, with its old version, only if the manifest already had it |
| Manifest.AugmentUntouched | src/generator.ts:124-143 | Entries no feature names keep their values |
| Manifest.Fallback | src/generator.ts:99-121 | The fallback manifest is named after the project and holds the scripts, dependencies and devDependencies sections |
| Manifest.PackageJson | src/generator.ts:74-156 | Succeeds exactly when the parsed manifest, or the fallback for an unparsable template, has the sections the chosen features need; the fallback always has them. On success the top-level fields are kept and every chosen feature's package (and the `test` script) holds its version. With no feature chosen a parsed manifest is kept as it is |
| Generator.FilterHas | src/generator.ts:29-52 | The kept steps are exactly the listed steps that the options enable |
| Generator.StepsInOrder | src/generator.ts:29-52 | The chosen steps follow the fixed order of the pipeline |
| Generator.StepsChosen | src/generator.ts:29-52 | A step runs exactly when it is mandatory or its feature is chosen |
| Generator.StepsEnds | src/generator.ts:29-52 | The pipeline always starts by creating the project folder and ends by creating the modules |
| Generator.ModuleFiles | src/generator.ts:263-277 | The `auth` module uses its own five templates; every other module uses the seven catalog templates, index first |
| Generator.NameVars | src/generator.ts:287-290 | Module templates see only `moduleName` |
| Generator.CreateModule | src/generator.ts:253-325 | One outcome per module file; a file is written exactly when its template exists, into the module folder |
| Generator.Generate | src/generator.ts:25-61 | An existing project folder stops the run. Otherwise the run succeeds exactly when the manifest and every chosen step succeed, and then the manifest and the files come from the chosen steps, in order |
| Generator.RunCopiesOk | src/generator.ts:327-347 | When no stored template throws, a run of copies succeeds |
| Generator.RunStepsOk | src/generator.ts:25-61 | When no stored template throws, every step, and so the whole run of steps, succeeds |
| Generator.PlainStoreRenders | src/utils/template.utils.ts:7-58 | Templates without `{{` never throw, whatever the options |
| Generator.GenerateOk | src/generator.ts:25-61 | With a new folder and no throwing template, generation succeeds exactly when the manifest has the sections the chosen features need; with the fallback manifest it always succeeds |
| Generator.CopiesWithin | src/generator.ts:327-347 | Every file a run of copies writes is the destination of one of the copies |
| Generator.CopiesWritten | src/generator.ts:327-347 | A successful run of copies writes the destination of every copy whose template exists |
| Generator.StepWritesWithin | src/generator.ts:158-251 | Each step writes only its own files, or files inside the module folder it creates |
| Generator.OwnedPath | src/generator.ts:25-61 | A file written by one step only is in the project exactly when that step runs |
| Generator.DockerfileIffDocker | src/generator.ts:40-42 | With its template present, the project has a `Dockerfile` exactly when Docker was chosen |
| Generator.DockerProjectWritesDockerfile | src/generator.ts:40-42 | A Docker project generated from brace-free templates and the fallback manifest succeeds and holds its `Dockerfile` |
| Generator.JestConfigIffTesting | src/generator.ts:44-46 | With its template present, the project has `jest.config.ts` exactly when testing was chosen |
| Generator.MiddlewareIffAuthentication | src/generator.ts:36-38 | With its template present, the project has the auth middleware exactly when authentication was chosen |
| ProjectModule.CreateModuleInProjectAsWritten | src/generator.ts:349-399 | As written: refuses outside a project root or for an existing module; otherwise one outcome per file, looked up as `<file>.tmpl` |
| ProjectModule.AsWrittenFindsOnlyIndex | src/generator.ts:370-385 | With the catalog's templates, as written, only `index.ts` is found; every other file is reported missing |
| ProjectModule.OrderControllerMissed | src/generator.ts:384 | For module `order`, the controller lookup misses `modules/default/order.controller.ts.tmpl` |
| ProjectModule.AsWrittenDestIsFile | src/generator.ts:385 | The `{{moduleName}}` replacement on the destination does nothing for names without braces |
| ProjectModule.CreateModuleInProject | src/generator.ts:349-399 | Corrected: the same refusals; then each file comes from the catalog template of its kind |
| ProjectModule.CorrectedWritesAll | src/generator.ts:370-378 | With the catalog templates present, the corrected command writes all seven files under the names it lists |
| ProjectModule.CorrectedIsCreateModule | src/generator.ts:253-294 | The corrected command produces exactly what `createModule` produces for any module but `auth` |
| Dispatch.Select | bin/express.generator.ts:16-29 | A module command needs at least two arguments with `generate:module` first; otherwise any help flag shows help; otherwise a project is created |
| Dispatch.Run | bin/express.generator.ts:7-29 | The interpreter and script paths are skipped; `generate:module <name>` selects the module command |
| Dispatch.HelpAnywhere | bin/express.generator.ts:22-24 | A help flag in any position shows help unless the arguments form a module command |
| Dispatch.NamelessModuleCreatesProject | bin/express.generator.ts:16-28 | `generate:module` without a name falls through to creating a project |
| Dispatch.ScriptPathsIgnored | bin/express.generator.ts:7 | Only the arguments after the script are read |

## Left out

- File-system effects are not modelled. This covers creating directories, the overwrite warning for an existing module folder, and partial writes before a throw. The model returns the writes a run would make.
- `process.exit` is modelled as an `Err` result.
- Console logging is not modelled, including the renderer's leftover-token warning. `Template.Leftovers` computes the tokens the warning would print.
- The interactive prompts are not modelled.
  - `promptOptions` answers are the `Options` parameter.
  - `generateModule` asking for a name when none is given is left out: the name is a parameter.
  - The module-type prompt is the `moduleType` parameter.
- `JSON.parse` and `JSON.stringify` of `package.json` are not modelled.
  - The parse result is the `parsed: Option<Manifest>` parameter of `Manifest.PackageJson`, where `None` stands for a parse error.
  - The `\n` clean-up before parsing is not modelled.
  - A missing `package.json` template is not modelled: it makes `readFileSync` throw outside the inner `try`.
- `path.join` normalisation is not modelled. Paths are joined with `/`, and the template and project roots are implicit.
- `processJsonTemplate` is not modelled: nothing in the modelled core calls it.
- Some JavaScript `String.replace` behaviours are not modelled.
  - Special `$` patterns in replacement strings (`$&`, `$1`) are not interpreted.
  - Regular-expression metacharacters inside variable keys are not handled. The laws assume word-character keys (`IsWordString`), which is what every call site passes.
- Tokens.HelperTokenRenders: the verbatim clause for an undefined variable is stated only for own keys and for names no object inherits. For an absent key such as `constructor` or `toString`, `vars[v]` finds the function every JavaScript object inherits, and the helper throws. The model's lookup yields `Undefined` there, so it does not model that throw. The piece theorems that require `Pieces.Fits` (`PieceRender.RenderPieces`, `PieceRender.RenderJoin` and the `*InContext` lemmas) exclude such calls; the members listed under `Values.ValueOf` below do not.
- Values.ValueOf: an absent key reads as `Undefined`, including a name every JavaScript object inherits (`constructor`, `toString`, …), where `vars[v]` is a function and `capitalizeFirstLetter` throws. So `{{capitalizeFirstLetter constructor}}` over a map without that key throws in the program and stays verbatim in the model. Each member below states its throw or no-throw claim for the model's lookup and does not promise that throw:
  - PiecePasses.HelperPieces: keeps such a call in place and reports no throw.
  - PiecePasses.FirstThrow: `Throws` counts calls on a boolean or a number only, so such a call is never reported.
  - RenderLaws.RenderStringsOk: a string-only map can still make the program throw on such a call.
  - RenderLaws.RenderErr: the program can also throw on such a call, naming no boolean or number.
  - Files.Produce, Cli.KindOutcome, Cli.CreateModuleInProject, Cli.GenerateModule, Generator.CreateModule, ProjectModule.CreateModuleInProject, ProjectModule.CorrectedWritesAll: a module template holding such a call throws in the program, where the model writes it.
  - Options.CopyTemplate: its string-only clause and its `Err` clause are for the model's lookup.
  - Generator.StoreRenders, Generator.RunCopiesOk, Generator.RunStepsOk, Generator.GenerateOk: "renders without a throw" is the model's rendering; a stored template holding such a call would stop the program's run.
- PieceRender.RenderPieces: covers templates made of whole pieces. Not covered: text ending in `{` just before a piece, block contents that hold tokens or `{{`, nested blocks, and substituted values that hold `{{` or end in `{`. The single-token laws (`BlockLaws.BlockRenders`, `Tokens.PlaceholderInsideBlock`) cover blocks whose content holds placeholders.
- CopyLaws.FeatureBlockCopy: states a template that is exactly one block; `CopyLaws.FeatureBlockInContext` states the same inside plain text.
- CopyLaws.ProjectNameCopy: states a template that is exactly one placeholder; `CopyLaws.ProjectNameInContext` states the same inside plain text.
- CopyLaws.ExtraPlaceholderCopy: states a template that is exactly one placeholder; `CopyLaws.ExtraPlaceholderInContext` states the same inside plain text.
- Values.ToStringForm: numbers are unbounded integers printed in decimal. JavaScript numbers are doubles: fractions, and the exponent form `toString` uses from `1e21` on, are not modelled. No call site passes a number.
- Integer-like object keys, which JavaScript orders first, are not modelled. Every key the program uses is a word.
- Text.ToUpper: upper-cases ASCII letters only. JavaScript's `toUpperCase` covers all of Unicode, including characters that expand to two.
- The setup steps whose files overlap no feature file are included through their copy lists, but no per-file theorem is stated for them: `setupTypeScript`, `copyBaseTemplates`, `setupDatabase`, `setupSwagger`.

## Findings

| source | as written | input that shows it | evidently intended | confidence | as-written member | corrected member |
|---|---|---|---|---|---|---|
| src/generator.ts:370-385 | `Generator.createModuleInProject` has no caller: the entry point's `generate:module` goes to the CLI's version (bin/express.generator.ts:19, src/cli.ts:80). The method looks each template up as `modules/default/<output file>.tmpl`. But the catalog that `createModule` uses names templates with a literal `{{moduleName}}` (`{{moduleName}}.controller.ts.tmpl`), and the `{{moduleName}}` replacement on the destination never matches | Module `order`, with the catalog's templates: only `index.ts` is written. The other six files are reported missing, for example `modules/default/order.controller.ts.tmpl` | Look up the catalog template of each file kind, as `createModule` and the CLI do, and write all seven files | medium, not executed | ProjectModule.CreateModuleInProjectAsWritten, ProjectModule.AsWrittenFindsOnlyIndex, ProjectModule.OrderControllerMissed | ProjectModule.CreateModuleInProject, ProjectModule.CorrectedWritesAll, ProjectModule.CorrectedIsCreateModule |
