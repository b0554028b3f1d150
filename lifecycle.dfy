/** The decisions of the exercise lifecycle: how a mode's `done(err, pass)`
    is read, what cleanup ends in, and what the pass and show screens hold. */
module Lifecycle {
  import opened Wrappers
  import opened JsValues
  import opened Content
  import opened Exercises
  import opened Config

  /** A message handed to the error reporter. */
  datatype Report =
    | CleanupFailed(err: JsVal)                    // error.cleanup
    | UnexpectedError(mode: string, err: JsVal)    // error.exercise.unexpected_error
    | NoModeFunction(mode: string)                 // "doesn't have a .<mode> function"
    | WrongModeType(mode: string, typeName: string) // "is a <typeof>. It should be a function"
    | SolutionLoadError(err: JsVal)                // solution.notes.load_error
    | MissingExercise(name: string)                // error.exercise.missing
    | PreparingFailed(err: JsVal)                  // error.exercise.preparing
    | LoadingFailed(err: JsVal)                    // error.exercise.loading
    | MissingProblem(name: string)                 // "is missing a problem definition!"

  /** Where an operation ends: the process exits with a code, the callback
      given to cleanup runs (it reports its message), an error is reported,
      control returns with nothing more to do, or an exception is thrown. */
  datatype Outcome =
    | Exit(code: int)
    | CallbackRan(report: Report)
    | Reported(report: Report)
    | Returned
    | Threw(error: string)

  // ---------------------------------------------------------------- done

  /** The legacy one-argument form `done(true)`, `done(false)`, `done()`,
      `done(null)`: no pass argument and an error argument that is a flag. */
  predicate LegacyCall(err: JsVal, pass: JsVal) {
    pass.Undefined? && (err.Bool? || err.Undefined? || err.Null?)
  }

  /** The pass flag `done` goes on with after normalisation. */
  function EffectivePass(err: JsVal, pass: JsVal): JsVal {
    if LegacyCall(err, pass) then err else pass
  }

  /** The four ways a `done` call can go. */
  datatype Branch = Errored(err: JsVal) | RunCleanup | Failed | Passed

  /** The branch `done(err, pass)` takes for a mode, given the exercise's
      `fail` field at that moment. */
  function Decide(mode: string, err: JsVal, pass: JsVal, failField: JsVal): (b: Branch)
    ensures b.Errored? <==> Truthy(err) && !LegacyCall(err, pass)
    ensures b.Errored? ==> b.err == err
    ensures b == RunCleanup <==> !b.Errored? && mode == "run"
    ensures b == Failed <==>
      !b.Errored? && mode != "run" && (!Truthy(EffectivePass(err, pass)) || Truthy(failField))
    ensures b == Passed <==>
      !b.Errored? && mode != "run" && Truthy(EffectivePass(err, pass)) && !Truthy(failField)
  {
    var e := if LegacyCall(err, pass) then Null else err;
    var p := EffectivePass(err, pass);
    if Truthy(e) then Errored(e)
    else if mode == "run" then RunCleanup
    else if !Truthy(p) || Truthy(failField) then Failed
    else Passed
  }

  /** `done(flag)` decides exactly as `done(null, flag)`. */
  lemma LegacyCallMatchesTwoArguments(mode: string, flag: bool, failField: JsVal)
    ensures Decide(mode, Bool(flag), Undefined, failField) == Decide(mode, Null, Bool(flag), failField)
  {
  }

  /** An error object always wins, whatever the mode, pass flag or override,
      and its message is what gets reported. */
  lemma ErrorObjectIsReported(mode: string, message: string, pass: JsVal, failField: JsVal)
    requires message != ""
    ensures Decide(mode, Error(message), pass, failField) == Errored(Error(message))
    ensures ErrDetail(Error(message)) == Str(message)
  {
  }

  // ------------------------------------------------------------- cleanup

  /** `end(mode, pass, exercise, callback)`: run the exercise's cleanup hook
      (none behaves as an immediate success); on a hook error only report it;
      otherwise run the callback, or exit with 0 on pass and -1 otherwise. */
  function End(mode: string, pass: bool, cleanup: Cleanup, callback: Option<Report>): (o: Outcome)
    ensures o.Exit? || o.CallbackRan? || o.Reported?
    ensures o.Reported? <==> cleanup.EndHook? && Truthy(cleanup.errFor(mode, pass))
    ensures o.Reported? ==> o == Reported(CleanupFailed(ErrDetail(cleanup.errFor(mode, pass))))
    ensures o.CallbackRan? <==> !o.Reported? && callback.Some?
    ensures o.CallbackRan? ==> o.report == callback.value
    ensures o.Exit? ==> o.code == if pass then 0 else -1
  {
    var err := if cleanup.EndHook? then cleanup.errFor(mode, pass) else Undefined;
    if Truthy(err) then Reported(CleanupFailed(ErrDetail(err)))
    else if callback.Some? then CallbackRan(callback.value)
    else Exit(if pass then 0 else -1)
  }

  /** The outcome of a `done` branch other than a pass. */
  function DoneOutcome(mode: string, b: Branch, cleanup: Cleanup): (o: Outcome)
    requires !b.Passed?
    ensures b.Errored? || b.RunCleanup? ==>
      (o.Reported? <==> cleanup.EndHook? && Truthy(cleanup.errFor(mode, true)))
    ensures b.Failed? ==>
      (o.Reported? <==> cleanup.EndHook? && Truthy(cleanup.errFor(mode, false)))
    ensures o.Reported? ==> o == Reported(CleanupFailed(ErrDetail(cleanup.errFor(mode, !b.Failed?))))
    ensures b.Errored? && !o.Reported? ==> o == CallbackRan(UnexpectedError(mode, ErrDetail(b.err)))
    ensures !b.Errored? && !o.Reported? ==> o.Exit?
    ensures b.Errored? || b.RunCleanup? ==> !o.Exit? || o.code == 0
    ensures b.Failed? ==> !o.Exit? || o.code == -1
  {
    match b
    case Errored(e) => End(mode, true, cleanup, Some(UnexpectedError(mode, ErrDetail(e))))
    case RunCleanup => End(mode, true, cleanup, None)
    case Failed => End(mode, false, cleanup, None)
  }

  /** After an error, the unexpected-error report comes only once cleanup
      succeeded; a cleanup error replaces it. */
  lemma ErroredReportsAfterCleanup(mode: string, e: JsVal, cleanup: Cleanup)
    ensures var o := DoneOutcome(mode, Errored(e), cleanup);
      && (cleanup.NoEnd? ==> o == CallbackRan(UnexpectedError(mode, ErrDetail(e))))
      && (cleanup.EndHook? && Truthy(cleanup.errFor(mode, true)) ==>
            o == Reported(CleanupFailed(ErrDetail(cleanup.errFor(mode, true)))))
      && (cleanup.EndHook? && !Truthy(cleanup.errFor(mode, true)) ==>
            o == CallbackRan(UnexpectedError(mode, ErrDetail(e))))
  {
  }

  /** What happens once the pass screen has been written out. The hook test
      compares `onComplete` with the string "function" instead of its type:
      any other value goes straight to cleanup, and that string makes
      `.bind` fail on a string. */
  function AfterPassScreen(mode: string, onComplete: JsVal, cleanup: Cleanup): (o: Outcome)
    ensures o.Threw? <==> onComplete == Str("function")
    ensures !o.CallbackRan? && !o.Returned?
    ensures o.Exit? ==> o.code == 0
    ensures o.Reported? ==> o.report.CleanupFailed?
  {
    if onComplete == Str("function") then Threw("TypeError")
    else End(mode, true, cleanup, None)
  }

  /** No value of `onComplete` makes the engine call it: a function, like
      every value other than the string "function", goes straight to cleanup
      with pass true and no callback, which then exits with 0 unless the
      cleanup hook fails. */
  lemma CompletionHookNeverRuns(mode: string, onComplete: JsVal, cleanup: Cleanup)
    requires onComplete != Str("function")
    ensures AfterPassScreen(mode, onComplete, cleanup) == End(mode, true, cleanup, None)
    ensures var o := AfterPassScreen(mode, onComplete, cleanup); o.Exit? || o.Reported?
    ensures var o := AfterPassScreen(mode, onComplete, cleanup); o.Exit? ==> o.code == 0
  {
  }

  // -------------------------------------------------------- pass and fail

  const DefaultPass := "\n{bold}{green}# {solution.pass.title}{/green}{/bold}\n{bold}{solution.pass.message}{/bold}\n"
  const DefaultFail := "\n{bold}{red}# {solution.fail.title}{/red}{/bold}\n{solution.fail.message}\n"
  const CompareNote := "solution.notes.compare"
  const FinishedNote := "progress.finished"

  /** The solution files of the pass screen: fetched only when solutions are
      shown and the exercise has `getSolutionFiles`; none otherwise. */
  function SolutionFilesFor(def: ExerciseDef): (r: Result<seq<string>, JsVal>)
    ensures Truthy(def.hideSolutions) || def.getSolutionFiles.Absent? ==> r == Success([])
    ensures r.Failure? <==>
      !Truthy(def.hideSolutions) && def.getSolutionFiles.Calls? && Truthy(def.getSolutionFiles.result.err)
    ensures r.Failure? ==> Truthy(r.error) && r.error == def.getSolutionFiles.result.err
    ensures r.Success? && !Truthy(def.hideSolutions) && def.getSolutionFiles.Calls? ==>
      r.value == def.getSolutionFiles.result.files
    ensures r.Success? && r.value != [] ==> def.getSolutionFiles.Calls? && r.value == def.getSolutionFiles.result.files
  {
    if !Truthy(def.hideSolutions) && def.getSolutionFiles.Calls? then
      var got := def.getSolutionFiles.result;
      if Truthy(got.err) then Failure(got.err) else Success(got.files)
    else Success([])
  }

  /** The solution part of the pass screen: nothing when solutions are
      hidden, otherwise the comparison note (when there is something to
      compare), the solution and the file list. */
  function SolutionBlocks(hideSolutions: bool, solution: JsVal, solutionType: JsVal,
                          files: seq<string>): (r: seq<Block>)
    ensures hideSolutions ==> r == []
    ensures |r| <= 3
  {
    if hideSolutions then []
    else (if |files| > 0 || Truthy(solution) then [Note(CompareNote)] else [])
         + Keep(Text(solution, solutionType))
         + Keep(FileList(files))
  }

  /** What the solution part holds and in which order: the comparison note
      first, when there is something to compare; the solution when it is
      truthy; the file list last, when there are files. */
  lemma SolutionBlocksContent(hideSolutions: bool, solution: JsVal, solutionType: JsVal,
                              files: seq<string>)
    ensures var r := SolutionBlocks(hideSolutions, solution, solutionType, files);
      && (Note(CompareNote) in r <==> !hideSolutions && (|files| > 0 || Truthy(solution)))
      && (FileList(files) in r <==> !hideSolutions && |files| > 0)
      && (Text(solution, solutionType) in r <==> !hideSolutions && Truthy(solution))
      && (Note(CompareNote) in r ==> r[0] == Note(CompareNote))
      && (FileList(files) in r ==> r[|r| - 1] == FileList(files))
      && (Text(solution, solutionType) in r && FileList(files) in r ==>
            r[|r| - 2] == Text(solution, solutionType))
      && |r| == (if Note(CompareNote) in r then 1 else 0)
                + (if Text(solution, solutionType) in r then 1 else 0)
                + (if FileList(files) in r then 1 else 0)
  {
  }

  /** The progress line closing the pass screen. */
  function ProgressBlocks(remaining: int, onComplete: JsVal): (r: seq<Block>)
    ensures |r| <= 1
    ensures r == [] <==> remaining == 0 && Truthy(onComplete)
    ensures forall b :: b in r ==> b == Note(FinishedNote) || b.RemainingNote?
  {
    if remaining != 0 then [RemainingNote(remaining)]
    else if !Truthy(onComplete) then [Note(FinishedNote)]
    else []
  }

  /** The blocks of the pass screen, in order. */
  function PassScreen(pass: JsVal, passType: JsVal, hideSolutions: bool, solution: JsVal,
                      solutionType: JsVal, files: seq<string>, remaining: int,
                      onComplete: JsVal): (r: seq<Block>)
    ensures |r| <= 5
    ensures hideSolutions ==> |r| <= 2
    ensures Truthy(pass) ==> |r| >= 1 && r[0] == Text(pass, passType)
  {
    Keep(Text(pass, passType))
    + SolutionBlocks(hideSolutions, solution, solutionType, files)
    + ProgressBlocks(remaining, onComplete)
  }

  /** The pass screen opens with the pass message and ends with the
      remaining count, or with the finished message when nothing remains and
      no completion hook is set, and otherwise with no progress line. */
  lemma PassScreenEnds(pass: JsVal, passType: JsVal, hideSolutions: bool, solution: JsVal,
                       solutionType: JsVal, files: seq<string>, remaining: int, onComplete: JsVal)
    requires Truthy(pass)
    ensures var s := PassScreen(pass, passType, hideSolutions, solution, solutionType, files, remaining, onComplete);
      && |s| >= 1 && s[0] == Text(pass, passType)
      && (remaining != 0 ==> s[|s| - 1] == RemainingNote(remaining))
      && (remaining == 0 && !Truthy(onComplete) ==> s[|s| - 1] == Note(FinishedNote))
      && (remaining == 0 && Truthy(onComplete) ==> Note(FinishedNote) !in s && RemainingNote(0) !in s)
  {
  }

  /** Solutions on the pass screen: the comparison note appears exactly when
      solutions are shown and there is a file or a solution to compare, the
      file list exactly when solutions are shown and there are files, and
      hidden solutions leave only the pass message and the progress line.
      Between the pass message and the progress line sits exactly the
      solution part: note, solution, file list, in that order. */
  lemma PassScreenSolutions(pass: JsVal, passType: JsVal, hideSolutions: bool, solution: JsVal,
                            solutionType: JsVal, files: seq<string>, remaining: int, onComplete: JsVal)
    ensures var s := PassScreen(pass, passType, hideSolutions, solution, solutionType, files, remaining, onComplete);
      && (Note(CompareNote) in s <==> !hideSolutions && (|files| > 0 || Truthy(solution)))
      && (FileList(files) in s <==> !hideSolutions && |files| > 0)
      && (hideSolutions ==> |s| <= 2)
      && (Truthy(pass) ==>
            s[1..|s| - |ProgressBlocks(remaining, onComplete)|]
              == SolutionBlocks(hideSolutions, solution, solutionType, files))
  {
  }

  // ----------------------------------------------------------- show path

  /** The value a capability method passes to its callback; an absent one is
      replaced by `setImmediate`, which passes nothing. */
  function HookResult<T>(h: Hook<T>, none: T): T {
    if h.Calls? then h.result else none
  }

  const NoText := ExerciseText(Undefined, Undefined, Undefined)

  /** Header alternatives: exercise inline, exercise file, option inline, option file. */
  function HeaderChain(def: ExerciseDef, opts: Options): seq<Block> {
    [Text(def.header, def.headerType), FileRef(def.headerFile),
     Text(opts.header, opts.headerType), FileRef(opts.headerFile)]
  }

  /** Footer alternatives, in the same order as the header's. */
  function FooterChain(def: ExerciseDef, opts: Options): seq<Block> {
    [Text(def.footer, def.footerType), FileRef(def.footerFile),
     Text(opts.footer, opts.footerType), FileRef(opts.footerFile)]
  }

  /** The problem and the generated text, each kept when non-empty. */
  function ProblemBlocks(def: ExerciseDef, text: ExerciseText): seq<Block> {
    Keep(Text(def.problem, def.problemType)) + Keep(Text(text.text, text.textType))
  }

  /** What showing an exercise produces: a screen, or the report that stops it. */
  datatype Shown = Screen(blocks: seq<Block>) | Refused(report: Report)

  /** The screen of an exercise once its generated text is known: header
      chain, problem blocks, footer chain; without a problem block the
      missing-problem report instead. */
  function ComposeScreen(def: ExerciseDef, opts: Options, text: ExerciseText, name: string): Shown {
    if ProblemBlocks(def, text) == [] then Refused(MissingProblem(name))
    else Screen(FirstPresent(HeaderChain(def, opts)) + ProblemBlocks(def, text)
                + FirstPresent(FooterChain(def, opts)))
  }

  /** The show path after loading: prepare, fetch the generated text, then
      compose the screen. */
  function ShowExercise(def: ExerciseDef, opts: Options, name: string): (r: Shown)
    ensures var prepared := HookResult(def.prepare, Undefined);
      r.Refused? && r.report.PreparingFailed? <==> Truthy(prepared)
    ensures var prepared := HookResult(def.prepare, Undefined);
      Truthy(prepared) ==> r.report.err == ErrDetail(prepared)
    ensures var text := HookResult(def.getExerciseText, NoText);
      r.Refused? && r.report.LoadingFailed? <==>
        !Truthy(HookResult(def.prepare, Undefined)) && Truthy(text.err)
    ensures r.Refused? && r.report.LoadingFailed? ==>
      r.report.err == ErrDetail(HookResult(def.getExerciseText, NoText).err)
    ensures r.Refused? ==>
      r.report.PreparingFailed? || r.report.LoadingFailed? || r.report == MissingProblem(name)
    ensures r.Screen? ==> r.blocks != []
  {
    var prepared := HookResult(def.prepare, Undefined);
    if Truthy(prepared) then Refused(PreparingFailed(ErrDetail(prepared)))
    else
      var text := HookResult(def.getExerciseText, NoText);
      if Truthy(text.err) then Refused(LoadingFailed(ErrDetail(text.err)))
      else ComposeScreen(def, opts, text, name)
  }

  /** A shown screen is one header alternative at most (the first present
      one, none only when all four are empty), then the problem and the
      generated text — both when both are present — then at most one footer
      alternative chosen the same way. When neither the problem nor the text
      has content the show path stops with the missing-problem report. */
  lemma {:induction false} ShowExerciseLayout(def: ExerciseDef, opts: Options, name: string)
    requires !Truthy(HookResult(def.prepare, Undefined))
    requires !Truthy(HookResult(def.getExerciseText, NoText).err)
    ensures var text := HookResult(def.getExerciseText, NoText);
      var r := ShowExercise(def, opts, name);
      && (r == Refused(MissingProblem(name)) <==>
            !Present(Text(def.problem, def.problemType)) && !Present(Text(text.text, text.textType)))
      && (r.Screen? ==>
            r.blocks == FirstPresent(HeaderChain(def, opts)) + ProblemBlocks(def, text)
                        + FirstPresent(FooterChain(def, opts)))
      && (FirstPresent(HeaderChain(def, opts)) == [] <==> NoneBefore(HeaderChain(def, opts), 4))
      && (FirstPresent(FooterChain(def, opts)) == [] <==> NoneBefore(FooterChain(def, opts), 4))
      && (Present(Text(def.problem, def.problemType)) && Present(Text(text.text, text.textType)) ==>
            ProblemBlocks(def, text) == [Text(def.problem, def.problemType), Text(text.text, text.textType)])
  {
    FirstPresentIsFirstMatch(HeaderChain(def, opts));
    FirstPresentIsFirstMatch(FooterChain(def, opts));
  }
}
