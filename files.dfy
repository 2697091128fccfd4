/**
 * The file system as the core sees it: read-only functions from a path to
 * the file's text or directory listing, or to the error `fs` reports.
 */
module Files {
  import opened Wrappers

  /**
   * `path.join(base, ...segments)`. The segments are kept apart rather than
   * joined and normalised, so that a segment that could climb out of its
   * directory ("..", or one holding a separator) stays visible.
   */
  datatype FilePath = FilePath(base: string, segments: seq<string>)

  /** An `fs` error: ENOENT (no such file) is always `NotFound`; `OtherFsError` carries every other code, never "ENOENT". */
  datatype FsError = NotFound | OtherFsError(code: string)

  /** `fs.readFile(path, "utf8")`. */
  type FileReader = FilePath -> Result<string, FsError>

  /** `fs.readdir(path)`. */
  type DirReader = FilePath -> Result<seq<string>, FsError>

  /** A path segment that `path.join` cannot turn into a step out of its directory. */
  predicate PlainSegment(s: string) {
    s != "" && s != "." && s != ".." && '/' !in s && '\\' !in s
  }
}

/** The errors the review engine and its loaders raise. */
module Errors {
  import opened Files

  datatype Error =
    | InvalidWorkflowName(name: string)          // ZodError of the workflow-name schema
    | ReadFailed(path: FilePath, cause: FsError) // an fs error passed on unchanged
    | ContextEmpty(workflow: string)             // the context file holds only whitespace
    | ContextNotFound(workflow: string)          // the context file does not exist
    | YamlSyntax(message: string)                // YAML.parse threw
    | ConfigSchemaViolation                      // the parsed config fails the config schema
    | BuiltInPromptUnavailable                   // loadBuiltInPrompt rejected
    | ServiceFailed(message: string)             // the review service's turn rejected
    | MalformedResponse                          // JSON.parse threw on the final response
    | ResponseSchemaViolation                    // the response fails the result schema
}
