/** What the engine sees of an exercise: its content fields and its optional
    capability methods. A capability method is foreign code; the model knows
    it by the values it passes to its callback. */
module Exercises {
  import opened Wrappers
  import opened JsValues

  /** A capability method: absent (or not a function), or one that calls its
      callback once with `result`. */
  datatype Hook<+T> = Absent | Calls(result: T)

  /** What `getExerciseText` passes to its callback: (err, type, text). */
  datatype ExerciseText = ExerciseText(err: JsVal, textType: JsVal, text: JsVal)

  /** What `getSolutionFiles` passes to its callback: (err, files). */
  datatype SolutionFiles = SolutionFiles(err: JsVal, files: seq<string>)

  /** The exercise's `end(mode, pass, callback)` cleanup: absent, or a hook
      whose callback error depends on the mode and the pass flag. */
  datatype Cleanup = NoEnd | EndHook(errFor: (string, bool) -> JsVal)

  /** The arguments a mode method passes to `done(err, pass)`. */
  datatype DoneArgs = DoneArgs(err: JsVal, pass: JsVal)

  /** A property value that is not a function. */
  type Data = v: JsVal | !v.Fun? witness Undefined

  /** `exercise[mode]`: a plain value, or a function with its declared
      arity, the value it returns (`result`), and the call it makes to `done` when it
      is given one. */
  datatype ModeMember =
    | Field(value: Data)
    | Method(arity: nat, result: JsVal, callsDone: Option<DoneArgs>)

  /** The exercise object a factory produces. */
  datatype ExerciseDef = ExerciseDef(
    header: JsVal, headerType: JsVal, headerFile: JsVal,
    problem: JsVal, problemType: JsVal,
    footer: JsVal, footerType: JsVal, footerFile: JsVal,
    pass: JsVal, passType: JsVal,
    fail: JsVal, failType: JsVal,
    solution: JsVal, solutionType: JsVal,
    hideSolutions: JsVal,
    hasInit: bool,
    prepare: Hook<JsVal>,
    getExerciseText: Hook<ExerciseText>,
    getSolutionFiles: Hook<SolutionFiles>,
    end: Cleanup,
    members: map<string, ModeMember>)

  /** `exercise[mode]`; a missing property reads as undefined. */
  function Member(def: ExerciseDef, mode: string): ModeMember {
    if mode in def.members then def.members[mode] else Field(Undefined)
  }
}
