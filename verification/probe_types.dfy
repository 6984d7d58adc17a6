/** The records exchanged between the broker and its probes. */
module ProbeTypes {

  /** Call arguments, by parameter name. */
  type Args = map<string, string>

  /** The JSON-schema `parameters` payload, reduced to the parameter names
      it declares and the ones it lists as required. */
  datatype Schema = Schema(properties: seq<string>, required: seq<string>)

  /** One callable function as a probe advertises it. */
  datatype FunctionDef = FunctionDef(name: string, description: string, parameters: Schema)

  /** A registered probe: its unique name, the definitions its listing
      capability returns, and its call capability. */
  datatype Probe = Probe(name: string, listing: seq<FunctionDef>, call: (string, Args) -> string)

  /** One row of the broker's function index: a definition tagged with the
      name of the probe that advertised it. */
  datatype Entry = Entry(probe: string, def: FunctionDef)

  /** `p` advertises a function called `name`. */
  ghost predicate Advertises(p: Probe, name: string) {
    exists d :: d in p.listing && d.name == name
  }
}
