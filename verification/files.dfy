/** What the generators do with one template file: render it into an output file, or
    pass over it when the template is not there. */
module Files {
  import opened Wrappers
  import opened Values
  import opened Template
  import opened RenderLaws

  /** The templates shipped with the tool: path under the templates directory to text. */
  type Store = map<string, string>

  /** `path.join(dir, name)` for the plain relative names used here. */
  function PathJoin(dir: string, name: string): string {
    dir + "/" + name
  }

  /** A file written (name and rendered text), or a template that was not found. */
  datatype Outcome = Wrote(file: string, content: string) | Missing(template: string)

  /** Render the template at `template` with `vars` into `output` when it exists.
      With string values only, rendering cannot throw. */
  function Produce(store: Store, template: string, output: string, vars: Vars): (r: Outcome)
    requires AllStrings(vars)
    ensures r.Wrote? <==> template in store
    ensures r.Wrote? ==> r.file == output
    ensures r.Wrote? ==> Render(store[template], vars) == Ok(r.content)
    ensures r.Missing? ==> r.template == template
  {
    if template in store then
      RenderStringsOk(store[template], vars);
      Wrote(output, Render(store[template], vars).value)
    else Missing(template)
  }

  /** The files written by a list of outcomes, in order. */
  function WrittenFiles(outcomes: seq<Outcome>): (r: seq<string>)
    ensures forall f :: f in r <==> exists j :: 0 <= j < |outcomes| && outcomes[j].Wrote? && outcomes[j].file == f
  {
    if outcomes == [] then []
    else (if outcomes[0].Wrote? then [outcomes[0].file] else []) + WrittenFiles(outcomes[1..])
  }
}
