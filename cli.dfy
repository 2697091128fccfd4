/**
 * The command-line front end (cli/src/index.ts): the `review` command, which
 * reads the input from stdin, runs the workflow and prints the findings,
 * and the `completion` command. Console output is a list of lines on stdout
 * or stderr; `process.exit` is the ending of the session.
 */
module Cli {
  import opened Wrappers
  import opened Types
  import opened Errors
  import Text
  import Reviewer

  datatype Stream = Stdout | Stderr

  /** One `console.log` or `console.error` call. */
  datatype Line = Line(stream: Stream, text: string)

  /**
   * How the command ends: the action returns (exit code 0), calls
   * `process.exit(code)`, or its promise rejects with an engine error
   * (Node.js then reports it and exits with a failure code).
   */
  datatype Ending = Returned | Exited(code: int) | Crashed(error: Error)

  datatype Session = Session(lines: seq<Line>, ending: Ending)

  /** A `review` session and whether the workflow config was loaded. */
  datatype ReviewSession = ReviewSession(session: Session, configLoaded: bool)

  const EmptyStdinMessage := "stdin が空です"
  const AllClearMessage := "レビュー結果: すべてOKでした ✅"
  const ResultSeparator := "\n---\n"
  const UnsupportedShellMessage := "現在対応しているのは fish のみです"

  /** `options.diff ? "diff" : "text"`: `--diff` wins, and `--text` is never consulted. */
  function KindFor(textFlag: bool, diffFlag: bool): (k: InputKind)
    ensures k == Diff <==> diffFlag
    ensures k.Label() == (if diffFlag then "diff" else "text")
  {
    if diffFlag then Diff else InputKind.Text
  }

  /** `formatReview`: six lines joined with "\n". */
  function FormatReview(r: ReviewResult): string {
    Text.Join([
      "レビュー: " + r.name,
      "スコア: " + Text.IntToString(r.score),
      "ファイルパス: " + r.filePath,
      "行番号: " + Text.IntToString(r.line),
      "内容:",
      r.review], "\n")
  }

  /** The printed form of a finding: step name, score, file path, line number, the "内容:" label and the review text, one per line in that order, with the review text last and verbatim. */
  lemma FormatReviewLayout(r: ReviewResult)
    ensures FormatReview(r)
      == "レビュー: " + r.name + "\n" + "スコア: " + Text.IntToString(r.score) + "\n" + "ファイルパス: " + r.filePath
         + "\n" + "行番号: " + Text.IntToString(r.line) + "\n" + "内容:" + "\n" + r.review
  {
    Text.JoinSix("レビュー: " + r.name, "スコア: " + Text.IntToString(r.score), "ファイルパス: " + r.filePath,
      "行番号: " + Text.IntToString(r.line), "内容:", r.review, "\n");
  }

  /** The score printed for a finding reads back as the score. */
  lemma ScoreLineReadsBack(r: ReviewResult)
    requires 0 <= r.score
    ensures Text.IsDigits(Text.IntToString(r.score))
    ensures Text.DecimalValue(Text.IntToString(r.score)) == r.score
  {
    Text.DecimalRoundTrip(r.score);
  }

  /** Each finding in its printed form, in order. */
  function Formatted(results: seq<ReviewResult>): (p: seq<string>)
    ensures |p| == |results|
  {
    seq(|results|, i requires 0 <= i < |results| => FormatReview(results[i]))
  }

  /** What the print loop writes for the printed findings: each one, then the separator. */
  function Transcript(printed: seq<string>): (t: seq<Line>)
    ensures |t| == 2 * |printed|
  {
    if printed == [] then []
    else Transcript(printed[..|printed| - 1]) + [Line(Stdout, printed[|printed| - 1]), Line(Stdout, ResultSeparator)]
  }

  /** The findings are printed in the order returned, each followed by its separator, and nothing else. */
  lemma {:induction false} TranscriptOrder(printed: seq<string>)
    ensures forall i :: 0 <= i < |printed| ==>
      && Transcript(printed)[2 * i] == Line(Stdout, printed[i])
      && Transcript(printed)[2 * i + 1] == Line(Stdout, ResultSeparator)
  {
    if printed != [] {
      var init := printed[..|printed| - 1];
      TranscriptOrder(init);
      var t := Transcript(printed);
      forall i | 0 <= i < |printed|
        ensures t[2 * i] == Line(Stdout, printed[i])
        ensures t[2 * i + 1] == Line(Stdout, ResultSeparator)
      {
        if i < |init| {
          assert printed[i] == init[i];
          assert t[2 * i] == Transcript(init)[2 * i];
          assert t[2 * i + 1] == Transcript(init)[2 * i + 1];
        }
      }
    }
  }

  /** The `review` command with the config `loaded` for the working directory and `run` executing a step. */
  function Review(stdin: string, loaded: Result<SwissConfig, Error>, run: Reviewer.StepRunner): ReviewSession {
    if Text.IsBlank(stdin) then ReviewSession(Session([Line(Stderr, EmptyStdinMessage)], Exited(1)), false)
    else
      match loaded
      case Failure(e) => ReviewSession(Session([], Crashed(e)), true)
      case Success(cfg) =>
        match Reviewer.Run(run, cfg)
        case Failure(e) => ReviewSession(Session([], Crashed(e)), true)
        case Success(o) =>
          ReviewSession(
            Session(
              Transcript(Formatted(o.results)) + (if o.stopReason == Reviewer.Completed then [Line(Stdout, AllClearMessage)] else []),
              if o.stopReason == Reviewer.NeedsAction then Exited(2) else Returned),
            true)
  }

  /** Whitespace-only stdin ends the command with code 1 and one error line, before the config is loaded or any step runs. */
  lemma BlankStdinStopsFirst(stdin: string, loaded: Result<SwissConfig, Error>, run: Reviewer.StepRunner)
    requires forall i :: 0 <= i < |stdin| ==> Text.IsWhitespace(stdin[i])
    ensures Review(stdin, loaded, run) == ReviewSession(Session([Line(Stderr, EmptyStdinMessage)], Exited(1)), false)
  {
    Text.BlankIffAllWhitespace(stdin);
  }

  /** After a run, the command exits with code 2 exactly when there are findings to print, and otherwise returns after printing only the all-clear line. */
  lemma ExitCodeReflectsFindings(stdin: string, cfg: SwissConfig, run: Reviewer.StepRunner)
    requires !Text.IsBlank(stdin)
    requires Reviewer.Run(run, cfg).Success?
    ensures var s := Review(stdin, Success(cfg), run).session;
      var results := Reviewer.Run(run, cfg).value.results;
      && (s.ending == Exited(2) <==> results != [])
      && (s.ending == Returned <==> results == [])
      && (results == [] ==> s.lines == [Line(Stdout, AllClearMessage)])
      && (results != [] ==> s.lines == Transcript(Formatted(results)))
  {
    Reviewer.StopReasonMatchesResults(run, cfg);
  }

  /** The print loop of the `review` action: each finding in its printed form, then the separator. */
  method PrintFindings(results: seq<ReviewResult>) returns (lines: seq<Line>)
    ensures lines == Transcript(Formatted(results))
  {
    lines := [];
    for i := 0 to |results|
      invariant lines == Transcript(Formatted(results)[..i])
    {
      assert Formatted(results)[..i + 1][..i] == Formatted(results)[..i];
      lines := lines + [Line(Stdout, FormatReview(results[i])), Line(Stdout, ResultSeparator)];
    }
    assert Formatted(results)[..|results|] == Formatted(results);
  }

  /** The `review` action: choose the kind, refuse blank stdin, load the config, run the workflow, print each finding and its separator, then report. */
  method ReviewCommand(textFlag: bool, diffFlag: bool, stdin: string, baseDir: string,
                       loadConfig: string -> Result<SwissConfig, Error>, env: Reviewer.Env)
    returns (r: ReviewSession)
    ensures r == Review(stdin, loadConfig(baseDir), Reviewer.Executor(env, baseDir, ReviewInput(KindFor(textFlag, diffFlag), stdin)))
  {
    var kind := KindFor(textFlag, diffFlag);
    if Text.IsBlank(stdin) {
      return ReviewSession(Session([Line(Stderr, EmptyStdinMessage)], Exited(1)), false);
    }
    var input := ReviewInput(kind, stdin);
    var loaded := loadConfig(baseDir);
    if loaded.Failure? {
      return ReviewSession(Session([], Crashed(loaded.error)), true);
    }
    var outcome;
    ghost var executed;
    outcome, executed := Reviewer.RunReviews(Reviewer.Executor(env, baseDir, input), loaded.value);
    if outcome.Failure? {
      return ReviewSession(Session([], Crashed(outcome.error)), true);
    }
    var lines := PrintFindings(outcome.value.results);
    if outcome.value.stopReason == Reviewer.Completed {
      lines := lines + [Line(Stdout, AllClearMessage)];
    }
    var ending := if outcome.value.stopReason == Reviewer.NeedsAction then Exited(2) else Returned;
    return ReviewSession(Session(lines, ending), true);
  }

  /** `generateFishCompletion`. */
  function FishCompletionScript(): string {
    Text.Join([
      "complete -c swiss -f",
      "complete -c swiss -n '__fish_seen_subcommand_from review' -l text -d 'textレビュー'",
      "complete -c swiss -n '__fish_seen_subcommand_from review' -l diff -d 'diffレビュー'",
      "complete -c swiss -n '__fish_seen_subcommand_from completion' -a fish"], "\n")
  }

  /** The `completion` action: the fish script for "fish", and for any other shell an error line and exit code 1. */
  function Completion(shell: string): (s: Session)
    ensures s.ending == Returned <==> shell == "fish"
    ensures s.ending != Returned ==> s == Session([Line(Stderr, UnsupportedShellMessage)], Exited(1))
    ensures s.ending == Returned ==> s.lines == [Line(Stdout, FishCompletionScript())]
  {
    if shell == "fish" then Session([Line(Stdout, FishCompletionScript())], Returned)
    else Session([Line(Stderr, UnsupportedShellMessage)], Exited(1))
  }
}
