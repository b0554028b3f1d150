/** The engine object (`Core`) and the exercise instances it loads. */
module Engine {
  import opened Wrappers
  import opened JsValues
  import opened Config
  import opened Content
  import opened Progress
  import opened Exercises
  import opened Registry
  import opened Lifecycle
  import opened Menu

  /** What `init(core, id, name, dir, number)` receives. */
  datatype InitArgs = InitArgs(id: string, name: string, dir: string, number: int)

  /** A loaded exercise: what its factory produced, the metadata attached
      to it, the `init` call it received, and the pass and fail fields that
      the engine fills in with defaults. */
  class Exercise {
    const def: ExerciseDef
    const meta: Meta
    const initCall: Option<InitArgs>
    var pass: JsVal
    var passType: JsVal
    var fail: JsVal
    var failType: JsVal

    /** `meta.fn()`, then `init` when it is a function, then `exercise.meta = meta`. */
    constructor (meta: Meta)
      ensures def == meta.fn && this.meta == meta
      ensures initCall == if meta.fn.hasInit then Some(InitArgs(meta.id, meta.name, meta.dir, meta.number)) else None
      ensures pass == def.pass && passType == def.passType
      ensures fail == def.fail && failType == def.failType
    {
      def := meta.fn;
      this.meta := meta;
      initCall := if meta.fn.hasInit then Some(InitArgs(meta.id, meta.name, meta.dir, meta.number)) else None;
      pass := meta.fn.pass;
      passType := meta.fn.passType;
      fail := meta.fn.fail;
      failType := meta.fn.failType;
    }
  }

  /** The solution part of the pass continuation: unless solutions are
      hidden, the comparison note when there is something to compare, then
      the solution and the file list. */
  method AppendSolutions(stream: Stream, hidden: bool, solution: JsVal, solutionType: JsVal,
                         files: seq<string>)
    modifies stream
    ensures stream.blocks == old(stream.blocks) + SolutionBlocks(hidden, solution, solutionType, files)
  {
    if !hidden {
      ghost var opening := stream.blocks;
      var compare := |files| > 0 || Truthy(solution);
      var queued;
      if compare {
        queued := stream.Append(Note(CompareNote));
      }
      ghost var noted := stream.blocks;
      assert noted == opening + (if compare then [Note(CompareNote)] else []);
      queued := stream.Append(Text(solution, solutionType));
      queued := stream.Append(FileList(files));
      assert stream.blocks == noted + Keep(Text(solution, solutionType)) + Keep(FileList(files));
      assert SolutionBlocks(false, solution, solutionType, files) ==
        (if compare then [Note(CompareNote)] else []) + Keep(Text(solution, solutionType)) + Keep(FileList(files));
    } else {
      assert stream.blocks == old(stream.blocks) + [];
    }
  }

  /** The progress line of the pass continuation: the remaining count, or
      the finished message when nothing remains and no hook is set. */
  method AppendProgress(stream: Stream, remaining: int, onComplete: JsVal)
    modifies stream
    ensures stream.blocks == old(stream.blocks) + ProgressBlocks(remaining, onComplete)
  {
    var queued;
    if remaining != 0 {
      queued := stream.Append(RemainingNote(remaining));
    } else if !Truthy(onComplete) {
      queued := stream.Append(Note(FinishedNote));
    } else {
      assert stream.blocks == old(stream.blocks) + [];
    }
  }

  /** The engine: registry, progress store, command list, completion hook,
      and the screens written to standard output so far. */
  class Core {
    const options: Options
    const idFromName: string -> string
    var exercises: seq<string>
    var metaById: map<string, Meta>
    var store: Storage
    var writes: seq<Write>
    var commands: seq<Command>
    var onComplete: JsVal
    var printed: seq<seq<Block>>

    ghost function Catalog(): Catalogue
      reads this
    {
      Catalogue(exercises, metaById)
    }

    ghost predicate Valid()
      reads this
    {
      Numbered(Catalog())
    }

    /** The constructor after its option checks: an empty registry, the
        persisted progress, and the loaded commands. */
    constructor (opts: Options, stored: Storage, loaded: seq<Command>, idOf: string -> string)
      requires ApplyDefaults(opts).Success?
      ensures Valid()
      ensures options == ApplyDefaults(opts).value && idFromName == idOf
      ensures exercises == [] && metaById == map[]
      ensures store == stored && writes == [] && commands == loaded
      ensures onComplete == Undefined && printed == []
    {
      options := ApplyDefaults(opts).value;
      idFromName := idOf;
      exercises := [];
      metaById := map[];
      store := stored;
      writes := [];
      commands := loaded;
      onComplete := Undefined;
      printed := [];
    }

    /** `addExercise(meta)`; the numbered metadata is returned. */
    method AddExercise(meta: Meta) returns (numbered: Meta)
      requires Valid()
      modifies this`exercises, this`metaById
      ensures Valid()
      ensures Catalog() == Add(old(Catalog()), meta)
      ensures numbered == meta.(number := |exercises|)
    {
      AddKeepsNumbered(Catalog(), meta);
      exercises := exercises + [meta.name];
      numbered := meta.(number := |exercises|);
      metaById := metaById[meta.id := numbered];
    }

    /** `countRemaining()`. */
    function CountRemaining(): (r: int)
      reads this
      ensures r == 0 || r == 1
      ensures r == 1 <==>
        && store.completed.Some? && |store.completed.value| == 1
        && AllDigits(store.completed.value[0]) && DecimalValue(store.completed.value[0]) != |exercises|
    {
      RemainingAsWrittenShape(|exercises|, store.completed);
      RemainingAsWritten(|exercises|, store.completed)
    }

    /** `markCompleted(name)`: add the name when absent, and save either way. */
    method MarkCompleted(name: string)
      modifies this`store, this`writes
      ensures store == old(store).(completed := Some(WithCompleted(CompletedOrEmpty(old(store.completed)), name)))
      ensures writes == old(writes) + [SavedCompleted(WithCompleted(CompletedOrEmpty(old(store.completed)), name))]
    {
      var completed := CompletedOrEmpty(store.completed);
      if name !in completed {
        completed := completed + [name];
      }
      store := store.(completed := Some(completed));
      writes := writes + [SavedCompleted(completed)];
    }

    /** `exerciseFail(mode, exercise)`: default the fail text, print it,
        and clean up with pass false. */
    method ExerciseFail(mode: string, exercise: Exercise) returns (o: Outcome)
      modifies this`printed, exercise`fail, exercise`failType
      ensures Truthy(old(exercise.fail)) ==>
        exercise.fail == old(exercise.fail) && exercise.failType == old(exercise.failType)
      ensures !Truthy(old(exercise.fail)) ==>
        exercise.fail == Str(DefaultFail) && exercise.failType == Str("txt")
      ensures printed == old(printed) + [[Text(exercise.fail, exercise.failType)]]
      ensures o == End(mode, false, exercise.def.end, None)
    {
      if !Truthy(exercise.fail) {
        exercise.fail := Str(DefaultFail);
        exercise.failType := Str("txt");
      }
      var stream := new Stream();
      var queued := stream.Append(Text(exercise.fail, exercise.failType));
      assert stream.blocks == [Text(exercise.fail, exercise.failType)];
      printed := printed + [stream.blocks];
      o := End(mode, false, exercise.def.end, None);
    }

    /** The pass screen as the pass continuation writes it: the pass text,
        the solution part unless solutions are hidden, then the progress
        line from `countRemaining()`. */
    method ComposePass(pass: JsVal, passType: JsVal, def: ExerciseDef, files: seq<string>)
      returns (screen: seq<Block>)
      ensures screen == PassScreen(pass, passType, Truthy(def.hideSolutions), def.solution,
        def.solutionType, files, CountRemaining(), onComplete)
    {
      var stream := new Stream();
      var queued := stream.Append(Text(pass, passType));
      AppendSolutions(stream, Truthy(def.hideSolutions), def.solution, def.solutionType, files);
      AppendProgress(stream, CountRemaining(), onComplete);
      screen := stream.blocks;
    }

    /** The continuation of `exercisePass` once the solution files are known:
        mark completed, default the pass text, print the pass screen, then
        clean up with pass true. */
    method ShowPass(mode: string, exercise: Exercise, files: seq<string>) returns (o: Outcome)
      modifies this`store, this`writes, this`printed, exercise`pass, exercise`passType
      ensures var completed := WithCompleted(CompletedOrEmpty(old(store.completed)), exercise.meta.name);
        && store == old(store).(completed := Some(completed))
        && writes == old(writes) + [SavedCompleted(completed)]
        && printed == old(printed) + [PassScreen(exercise.pass, exercise.passType,
             Truthy(exercise.def.hideSolutions), exercise.def.solution, exercise.def.solutionType,
             files, RemainingAsWritten(|exercises|, Some(completed)), onComplete)]
      ensures Truthy(old(exercise.pass)) ==>
        exercise.pass == old(exercise.pass) && exercise.passType == old(exercise.passType)
      ensures !Truthy(old(exercise.pass)) ==>
        exercise.pass == Str(DefaultPass) && exercise.passType == Str("txt")
      ensures o == AfterPassScreen(mode, onComplete, exercise.def.end)
    {
      MarkCompleted(exercise.meta.name);
      if !Truthy(exercise.pass) {
        exercise.pass := Str(DefaultPass);
        exercise.passType := Str("txt");
      }
      var screen := ComposePass(exercise.pass, exercise.passType, exercise.def, files);
      printed := printed + [screen];
      o := AfterPassScreen(mode, onComplete, exercise.def.end);
    }

    /** `exercisePass(mode, exercise)`: fetch the solution files when
        solutions are shown, stop on a fetch error, otherwise show the pass. */
    method ExercisePass(mode: string, exercise: Exercise) returns (o: Outcome)
      modifies this`store, this`writes, this`printed, exercise`pass, exercise`passType
      ensures old(printed) <= printed
      ensures SolutionFilesFor(exercise.def).Failure? ==>
        && o == Reported(SolutionLoadError(ErrDetail(SolutionFilesFor(exercise.def).error)))
        && store == old(store) && writes == old(writes) && printed == old(printed)
        && exercise.pass == old(exercise.pass) && exercise.passType == old(exercise.passType)
      ensures SolutionFilesFor(exercise.def).Success? ==>
        var completed := WithCompleted(CompletedOrEmpty(old(store.completed)), exercise.meta.name);
        && store == old(store).(completed := Some(completed))
        && writes == old(writes) + [SavedCompleted(completed)]
        && printed == old(printed) + [PassScreen(exercise.pass, exercise.passType,
             Truthy(exercise.def.hideSolutions), exercise.def.solution, exercise.def.solutionType,
             SolutionFilesFor(exercise.def).value, RemainingAsWritten(|exercises|, Some(completed)), onComplete)]
        && (Truthy(old(exercise.pass)) ==>
              exercise.pass == old(exercise.pass) && exercise.passType == old(exercise.passType))
        && (!Truthy(old(exercise.pass)) ==> exercise.pass == Str(DefaultPass) && exercise.passType == Str("txt"))
        && o == AfterPassScreen(mode, onComplete, exercise.def.end)
    {
      if !Truthy(exercise.def.hideSolutions) && exercise.def.getSolutionFiles.Calls? {
        var got := exercise.def.getSolutionFiles.result;
        if Truthy(got.err) {
          return Reported(SolutionLoadError(ErrDetail(got.err)));
        }
        o := ShowPass(mode, exercise, got.files);
      } else {
        o := ShowPass(mode, exercise, []);
      }
    }

    /** The `done(err, pass)` callback handed to a mode method. */
    method Done(exercise: Exercise, mode: string, err: JsVal, pass: JsVal) returns (o: Outcome)
      modifies this`store, this`writes, this`printed
      modifies exercise`pass, exercise`passType, exercise`fail, exercise`failType
      ensures old(printed) <= printed
      ensures var b := Decide(mode, err, pass, old(exercise.fail));
        b.Errored? || b.RunCleanup? ==>
          && o == DoneOutcome(mode, b, exercise.def.end)
          && store == old(store) && writes == old(writes) && printed == old(printed)
          && exercise.pass == old(exercise.pass) && exercise.passType == old(exercise.passType)
          && exercise.fail == old(exercise.fail) && exercise.failType == old(exercise.failType)
      ensures var b := Decide(mode, err, pass, old(exercise.fail));
        b.Failed? ==>
          && o == DoneOutcome(mode, b, exercise.def.end)
          && store == old(store) && writes == old(writes)
          && printed == old(printed) + [[Text(exercise.fail, exercise.failType)]]
          && (Truthy(old(exercise.fail)) ==>
                exercise.fail == old(exercise.fail) && exercise.failType == old(exercise.failType))
          && (!Truthy(old(exercise.fail)) ==>
                exercise.fail == Str(DefaultFail) && exercise.failType == Str("txt"))
          && exercise.pass == old(exercise.pass) && exercise.passType == old(exercise.passType)
      ensures var b := Decide(mode, err, pass, old(exercise.fail));
        b.Passed? && SolutionFilesFor(exercise.def).Failure? ==>
          && o == Reported(SolutionLoadError(ErrDetail(SolutionFilesFor(exercise.def).error)))
          && store == old(store) && writes == old(writes) && printed == old(printed)
          && exercise.pass == old(exercise.pass) && exercise.passType == old(exercise.passType)
          && exercise.fail == old(exercise.fail) && exercise.failType == old(exercise.failType)
      ensures var b := Decide(mode, err, pass, old(exercise.fail));
        b.Passed? && SolutionFilesFor(exercise.def).Success? ==>
          var completed := WithCompleted(CompletedOrEmpty(old(store.completed)), exercise.meta.name);
          && store == old(store).(completed := Some(completed))
          && writes == old(writes) + [SavedCompleted(completed)]
          && printed == old(printed) + [PassScreen(exercise.pass, exercise.passType,
               Truthy(exercise.def.hideSolutions), exercise.def.solution, exercise.def.solutionType,
               SolutionFilesFor(exercise.def).value, RemainingAsWritten(|exercises|, Some(completed)), onComplete)]
          && (Truthy(old(exercise.pass)) ==>
                exercise.pass == old(exercise.pass) && exercise.passType == old(exercise.passType))
          && (!Truthy(old(exercise.pass)) ==> exercise.pass == Str(DefaultPass) && exercise.passType == Str("txt"))
          && exercise.fail == old(exercise.fail) && exercise.failType == old(exercise.failType)
          && o == AfterPassScreen(mode, onComplete, exercise.def.end)
    {
      var e, p := err, pass;
      if p.Undefined? && (e.Bool? || e.Undefined? || e.Null?) {
        p := e;
        e := Null;
      }
      if Truthy(e) {
        return End(mode, true, exercise.def.end, Some(UnexpectedError(mode, ErrDetail(e))));
      }
      if mode == "run" {
        return End(mode, true, exercise.def.end, None);
      }
      if !Truthy(p) || Truthy(exercise.fail) {
        o := ExerciseFail(mode, exercise);
        return;
      }
      o := ExercisePass(mode, exercise);
    }

    /** `runExercise(exercise, mode, args)`: look the mode up, refuse what is
        not a function, call it with or without `done` by its arity, and
        print a truthy return value. The call to `done`, when the method
        makes one, is followed after the method has returned. */
    method RunExercise(exercise: Exercise, mode: string) returns (o: Outcome)
      modifies this`store, this`writes, this`printed
      modifies exercise`pass, exercise`passType, exercise`fail, exercise`failType
      ensures Member(exercise.def, mode).Field? ==>
        && o == (if Truthy(Member(exercise.def, mode).value)
                 then Reported(WrongModeType(mode, TypeOf(Member(exercise.def, mode).value)))
                 else Reported(NoModeFunction(mode)))
        && printed == old(printed) && store == old(store) && writes == old(writes)
        && exercise.pass == old(exercise.pass) && exercise.passType == old(exercise.passType)
        && exercise.fail == old(exercise.fail) && exercise.failType == old(exercise.failType)
      ensures Member(exercise.def, mode).Method? ==>
        var m := Member(exercise.def, mode);
        var shown := if Truthy(m.result) then [[Text(m.result, Undefined)]] else [];
        !(m.arity > 1 && m.callsDone.Some?) ==>
          && o == Returned && store == old(store) && writes == old(writes)
          && printed == old(printed) + shown
          && exercise.pass == old(exercise.pass) && exercise.passType == old(exercise.passType)
          && exercise.fail == old(exercise.fail) && exercise.failType == old(exercise.failType)
      ensures Member(exercise.def, mode).Method? ==>
        var m := Member(exercise.def, mode);
        var shown := if Truthy(m.result) then [[Text(m.result, Undefined)]] else [];
        m.arity > 1 && m.callsDone.Some? ==>
          var b := Decide(mode, m.callsDone.value.err, m.callsDone.value.pass, old(exercise.fail));
          b.Errored? || b.RunCleanup? ==>
            && o == DoneOutcome(mode, b, exercise.def.end)
            && store == old(store) && writes == old(writes) && printed == old(printed) + shown
            && exercise.pass == old(exercise.pass) && exercise.passType == old(exercise.passType)
            && exercise.fail == old(exercise.fail) && exercise.failType == old(exercise.failType)
      ensures Member(exercise.def, mode).Method? ==>
        var m := Member(exercise.def, mode);
        var shown := if Truthy(m.result) then [[Text(m.result, Undefined)]] else [];
        m.arity > 1 && m.callsDone.Some? ==>
          var b := Decide(mode, m.callsDone.value.err, m.callsDone.value.pass, old(exercise.fail));
          b.Failed? ==>
            && o == DoneOutcome(mode, b, exercise.def.end)
            && store == old(store) && writes == old(writes)
            && printed == old(printed) + shown + [[Text(exercise.fail, exercise.failType)]]
            && (Truthy(old(exercise.fail)) ==>
                  exercise.fail == old(exercise.fail) && exercise.failType == old(exercise.failType))
            && (!Truthy(old(exercise.fail)) ==>
                  exercise.fail == Str(DefaultFail) && exercise.failType == Str("txt"))
            && exercise.pass == old(exercise.pass) && exercise.passType == old(exercise.passType)
      ensures Member(exercise.def, mode).Method? ==>
        var m := Member(exercise.def, mode);
        var shown := if Truthy(m.result) then [[Text(m.result, Undefined)]] else [];
        m.arity > 1 && m.callsDone.Some? ==>
          var b := Decide(mode, m.callsDone.value.err, m.callsDone.value.pass, old(exercise.fail));
          b.Passed? && SolutionFilesFor(exercise.def).Failure? ==>
            && o == Reported(SolutionLoadError(ErrDetail(SolutionFilesFor(exercise.def).error)))
            && store == old(store) && writes == old(writes) && printed == old(printed) + shown
            && exercise.pass == old(exercise.pass) && exercise.passType == old(exercise.passType)
            && exercise.fail == old(exercise.fail) && exercise.failType == old(exercise.failType)
      ensures Member(exercise.def, mode).Method? ==>
        var m := Member(exercise.def, mode);
        var shown := if Truthy(m.result) then [[Text(m.result, Undefined)]] else [];
        m.arity > 1 && m.callsDone.Some? ==>
          var b := Decide(mode, m.callsDone.value.err, m.callsDone.value.pass, old(exercise.fail));
          b.Passed? && SolutionFilesFor(exercise.def).Success? ==>
            var completed := WithCompleted(CompletedOrEmpty(old(store.completed)), exercise.meta.name);
            && store == old(store).(completed := Some(completed))
            && writes == old(writes) + [SavedCompleted(completed)]
            && printed == old(printed) + shown + [PassScreen(exercise.pass, exercise.passType,
                 Truthy(exercise.def.hideSolutions), exercise.def.solution, exercise.def.solutionType,
                 SolutionFilesFor(exercise.def).value, RemainingAsWritten(|exercises|, Some(completed)), onComplete)]
            && (Truthy(old(exercise.pass)) ==>
                  exercise.pass == old(exercise.pass) && exercise.passType == old(exercise.passType))
            && (!Truthy(old(exercise.pass)) ==> exercise.pass == Str(DefaultPass) && exercise.passType == Str("txt"))
            && exercise.fail == old(exercise.fail) && exercise.failType == old(exercise.failType)
            && o == AfterPassScreen(mode, onComplete, exercise.def.end)
    {
      var member := Member(exercise.def, mode);
      if member.Field? {
        if !Truthy(member.value) {
          return Reported(NoModeFunction(mode));
        }
        return Reported(WrongModeType(mode, TypeOf(member.value)));
      }
      if Truthy(member.result) {
        var stream := new Stream();
        var queued := stream.Append(Text(member.result, Undefined));
        assert stream.blocks == [Text(member.result, Undefined)];
        printed := printed + [stream.blocks];
      }
      ghost var afterResult := printed;
      assert afterResult == old(printed) + (if Truthy(member.result) then [[Text(member.result, Undefined)]] else []);
      o := Returned;
      if member.arity > 1 && member.callsDone.Some? {
        o := Done(exercise, mode, member.callsDone.value.err, member.callsDone.value.pass);
        assert afterResult <= printed;
      }
    }

    /** `printMenu()`: reverse the command list in place, then compose the
        exercise entries and the extras. */
    method PrintMenu() returns (menu: MenuModel)
      modifies this`commands
      ensures commands == Reverse(old(commands))
      ensures menu == MenuModel(Entries(exercises, CompletedOrEmpty(store.completed)), Extras(commands))
    {
      commands := Reverse(commands);
      menu := MenuModel(Entries(exercises, CompletedOrEmpty(store.completed)), Extras(commands));
    }

    /** `loadExercise(name)`: null for an unknown name, otherwise a fresh
        instance carrying its metadata. */
    method LoadExercise(name: string) returns (exercise: Exercise?)
      requires Valid()
      ensures exercise == null <==> idFromName(name) !in metaById
      ensures exercise != null ==> fresh(exercise) && exercise.meta == metaById[idFromName(name)]
      ensures exercise != null ==> exercise.def == exercise.meta.fn
      ensures exercise != null ==> exercise.fail == exercise.def.fail && exercise.pass == exercise.def.pass
      ensures exercise != null ==>
        exercise.failType == exercise.def.failType && exercise.passType == exercise.def.passType
      ensures exercise != null ==>
        1 <= exercise.meta.number <= |exercises| && exercises[exercise.meta.number - 1] == exercise.meta.name
      ensures exercise != null ==>
        exercise.initCall == (if exercise.def.hasInit
          then Some(InitArgs(exercise.meta.id, exercise.meta.name, exercise.meta.dir, exercise.meta.number))
          else None)
    {
      var id := idFromName(name);
      if id !in metaById {
        return null;
      }
      exercise := new Exercise(metaById[id]);
    }

    /** `printExercise(name)`: load, save it as current, prepare, fetch the
        generated text, and print header, problem and footer. */
    method PrintExercise(name: string) returns (o: Outcome)
      requires Valid()
      modifies this`store, this`writes, this`printed
      ensures idFromName(name) !in metaById ==>
        o == Reported(MissingExercise(name))
        && store == old(store) && writes == old(writes) && printed == old(printed)
      ensures idFromName(name) in metaById ==>
        var meta := metaById[idFromName(name)];
        var shown := ShowExercise(meta.fn, options, name);
        && store == old(store).(current := Some(meta.name))
        && writes == old(writes) + [SavedCurrent(meta.name)]
        && (shown.Screen? ==> o == Returned && printed == old(printed) + [shown.blocks])
        && (shown.Refused? ==> o == Reported(shown.report) && printed == old(printed))
    {
      var exercise := LoadExercise(name);
      if exercise == null {
        return Reported(MissingExercise(name));
      }
      store := store.(current := Some(exercise.meta.name));
      writes := writes + [SavedCurrent(exercise.meta.name)];

      var prepared := HookResult(exercise.def.prepare, Undefined);
      if Truthy(prepared) {
        return Reported(PreparingFailed(ErrDetail(prepared)));
      }
      var text := HookResult(exercise.def.getExerciseText, NoText);
      if Truthy(text.err) {
        return Reported(LoadingFailed(ErrDetail(text.err)));
      }

      var shown := ComposeExercise(exercise.def, text, name);
      if shown.Refused? {
        return Reported(shown.report);
      }
      printed := printed + [shown.blocks];
      o := Returned;
    }

    /** The body of the `getExerciseText` callback: the header chain, the
        problem and the generated text with the `found` flag, then the
        footer chain. */
    method ComposeExercise(def: ExerciseDef, text: ExerciseText, name: string) returns (shown: Shown)
      ensures shown == ComposeScreen(def, options, text, name)
    {
      var stream := new Stream();
      var found := false;
      var queued := stream.AppendFirstOf(Text(def.header, def.headerType), FileRef(def.headerFile),
                                         Text(options.header, options.headerType), FileRef(options.headerFile));
      ghost var header := stream.blocks;

      queued := stream.Append(Text(def.problem, def.problemType));
      if queued { found := true; }
      assert stream.blocks == header + Keep(Text(def.problem, def.problemType));
      queued := stream.Append(Text(text.text, text.textType));
      if queued { found := true; }
      assert stream.blocks == header + ProblemBlocks(def, text);
      assert found <==> ProblemBlocks(def, text) != [];
      if !found {
        return Refused(MissingProblem(name));
      }

      ghost var body := stream.blocks;
      queued := stream.AppendFirstOf(Text(def.footer, def.footerType), FileRef(def.footerFile),
                                     Text(options.footer, options.footerType), FileRef(options.footerFile));
      shown := Screen(stream.blocks);
    }
  }
}
