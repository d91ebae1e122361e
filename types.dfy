/** Values shared by the end-condition modules: the collaborators that a
    condition reads (heuristic, model, coverage), the adapter clock and the
    verdict a condition reports. */
module Types {

  datatype Option<T> = None | Some(value: T)

  /** The outcome reported when a condition matches. */
  datatype Verdict = Pass | Fail | Inconclusive | Error

  /** A reading of the adapter clock: whole seconds and microseconds. */
  datatype Time = Time(sec: int, usec: int)

  /** The model as a condition sees it: its status flag and error message,
      the property (tag) indices active in the current state, and the
      table of tag names indexed by tag. */
  datatype ModelHandle = ModelHandle(status: bool, errormsg: string, props: seq<int>, spNames: seq<string>)

  /** A coverage engine as a condition sees it. */
  datatype CoverageHandle = CoverageHandle(status: bool, errormsg: string)

  /** The heuristic handed to every match: its own status and the model and
      coverage it drives. */
  datatype Heuristic = Heuristic(status: bool, errormsg: string, model: ModelHandle, coverage: CoverageHandle)

  /** What the coverage factory built: the engine's status and message, and
      whether it is the constant-threshold kind. */
  datatype BuiltCoverage = BuiltCoverage(status: bool, errormsg: string, isConst: bool)
}
