/** The command-line entry point: which of the three commands an argument vector
    selects. */
module Dispatch {
  /** The commands: add a module to the project in the working directory, show the
      usage text, or create a new project interactively. */
  datatype Mode = AddModule(name: string) | Help | CreateProject

  const GenerateModule := "generate:module"

  /** The spellings that ask for the usage text. */
  predicate IsHelp(a: string) {
    a == "help" || a == "--help" || a == "-h"
  }

  /** `process.argv.slice(2)`: the arguments after the interpreter and the script; none
      when the vector is shorter. */
  function Args(argv: seq<string>): (r: seq<string>)
    ensures |argv| >= 2 ==> argv == argv[..2] + r
    ensures |argv| < 2 ==> r == []
  {
    if |argv| < 2 then [] else argv[2..]
  }

  /** The entry point's choice: `generate:module <name>` first (with at least two
      arguments), then a help flag anywhere, and creating a project otherwise. */
  function Select(args: seq<string>): (r: Mode)
    ensures r.AddModule? <==> |args| >= 2 && args[0] == GenerateModule
    ensures r.AddModule? ==> r.name == args[1]
    ensures r == Help <==> !(|args| >= 2 && args[0] == GenerateModule) && exists i :: 0 <= i < |args| && IsHelp(args[i])
    ensures r == CreateProject <==>
      !(|args| >= 2 && args[0] == GenerateModule) && forall i :: 0 <= i < |args| ==> !IsHelp(args[i])
  {
    if |args| >= 2 && args[0] == GenerateModule then AddModule(args[1])
    else if "help" in args || "--help" in args || "-h" in args then Help
    else CreateProject
  }

  /** The entry point on the whole argument vector. */
  function Run(argv: seq<string>): (r: Mode)
    ensures |argv| >= 4 && argv[2] == GenerateModule ==> r == AddModule(argv[3])
    ensures |argv| <= 2 ==> r == CreateProject
  {
    Select(Args(argv))
  }

  /** The module command wins over a help flag that follows it. */
  lemma ModuleBeatsHelp(name: string, rest: seq<string>)
    ensures Select([GenerateModule, name] + rest) == AddModule(name)
  {
  }

  /** `generate:module` without a name is no module command: the entry point goes on to
      create a project. */
  lemma NamelessModuleCreatesProject()
    ensures Select([GenerateModule]) == CreateProject
  {
    assert !IsHelp(GenerateModule);
  }

  /** A help flag anywhere in the arguments shows the usage text unless the arguments
      form a module command. */
  lemma HelpAnywhere(before: seq<string>, flag: string, after: seq<string>)
    requires IsHelp(flag)
    requires !(|before + [flag] + after| >= 2 && (before + [flag] + after)[0] == GenerateModule)
    ensures Select(before + [flag] + after) == Help
  {
    var args := before + [flag] + after;
    assert args[|before|] == flag;
  }

  /** Only the arguments after the script count: the interpreter and script paths are
      never read as commands. */
  lemma ScriptPathsIgnored(node: string, script: string, args: seq<string>)
    ensures Run([node, script] + args) == Select(args)
  {
    assert ([node, script] + args)[2..] == args;
  }
}
