/** The shared record types of the review engine (core/src/types.ts). */
module Types {
  import opened Wrappers

  /** One step of a workflow: its name keys the prompt file; the optional fields are absent or present, as in YAML. */
  datatype ReviewSpec = ReviewSpec(
    name: string,
    description: Option<string>,
    model: Option<string>,
    parallel: Option<bool>)

  /** A workflow: the default model and the ordered steps. */
  datatype SwissConfig = SwissConfig(model: string, reviews: seq<ReviewSpec>)

  datatype InputKind = Text | Diff {
    /** The literal the source uses for the kind: "text" or "diff". */
    function Label(): string {
      match this
      case Text => "text"
      case Diff => "diff"
    }
  }

  /** The payload under review. */
  datatype ReviewInput = ReviewInput(kind: InputKind, content: string)

  /** A flagged finding tagged with the name of the step that produced it. */
  datatype ReviewResult = ReviewResult(name: string, review: string, score: int, filePath: string, line: int)
}
