# workshopper-adventure engine core, modelled in Dafny

This project models the decision-and-state layer of the workshopper-adventure
exercise runner (`core.js`). That layer covers:

- the exercise registry (`addExercise`, `loadExercise`);
- the progress store (`markCompleted`, `countRemaining`, the saved `current` exercise);
- the outcome of running an exercise mode (`runExercise`, its `done` callback,
  `exercisePass`, `exerciseFail` and the `end` cleanup);
- the composition of the exercise, pass and fail screens;
- the composition of the menu (`printMenu`).

Layout, one module per component:

- `js_values.dfy`: the JavaScript value shapes the engine inspects. These are
  truthiness, `typeof`, `err.message || err`, and the number an array turns
  into under `-`.
- `config.dfy`: the option checks and defaults of the constructor.
- `content.dfy`: the output stream. A `Stream` object holds the ordered blocks
  it has queued. `Append` queues a block and answers whether it had content.
  `FirstPresent` is the `append(a) || append(b) || …` fallback chain.
- `progress.dfy`: the stored `completed` list, how `markCompleted` changes it,
  and `countRemaining` as written.
- `exercises.dfy`: what the engine sees of an exercise. It sees the content
  fields, plus the optional capability methods, each known by what it passes
  to its callback.
- `registry.dfy`: the registry and how registration numbers its entries.
- `lifecycle.dfy`: the run-path decisions and screen contents as functions.
  These cover `done`'s four-way branch, `end`, the pass screen and the show
  path.
- `menu.dfy`: the menu entries and the extras list.
- `engine.dfy`: the `Core` class (registry, store, command list, completion
  hook, printed screens) and the `Exercise` class (its `pass`/`fail` fields are
  overwritten in place). The methods follow the source step by step, and each
  one's `ensures` ties the new state to the functions above.

The process exit in `end` becomes a returned `Outcome` value (`Exit(code)`).
The menu's exit entry is a command whose handler is `ExitProcess(0)`. Other
results of an operation are returned `Outcome` values too: the error reporter calls
(`Reported(report)`), the callback passed to `end` (`CallbackRan`), and the
exception raised when `onComplete` is the string `"function"` (`Threw`).
Standard output is the `printed` field: one block sequence per piped stream.
Storage writes are the `writes` log.

Where the code's behaviour differs from what its names and messages evidently
intend, the model follows the code:

- `countRemaining` (core.js:116) parses as
  `(exercises.length - completed) ? completed.length : 0`. The subtraction
  turns the stored array into a number. With no name, or two or more names,
  the result is 0. With one name, it is 1 exactly when that name reads as a
  number different from the number of exercises. In the model only a plain
  decimal numeral reads as a number (see `JsValues.ArrayToNumber` under
  "Left out"), and `Progress.RemainingAsWrittenShape` proves this case in
  both directions. In particular, the first pass of an
  exercise whose name is not a numeral already reports 0 remaining. The
  remaining count does not drop by one per completion.
- The completion hook test (core.js:161) compares `onComplete` with the string
  `'function'` and does not test its type, so the hook is never called. The
  finished-message test (core.js:157) uses plain truthiness.
- `printMenu` reverses `cli.commands` in place (core.js:264). The order of the
  extras therefore flips on each printing of the menu (`Menu.ExtrasAlternate`).
- When both the problem and the generated text have content, both are shown
  (core.js:324-327).

## Model

| member | source | states |
|---|---|---|
| `Config.ApplyDefaults` | core.js:24-44 | construction fails exactly when `name` is falsy, with the fixed message; otherwise languages default to `["en"]`, a falsy default language becomes the first language (undefined for an empty list), the menu defaults to 65 wide at (3, 2), and every other option is kept |
| `Config.ApplyDefaultsIdempotent` | core.js:27-44 | filling in the defaults a second time changes nothing |
| `Registry.Add` | core.js:81-87 | registration appends the name at the end, keeps every earlier name, files the metadata under its id with `number` equal to the new length, and leaves entries under other ids untouched |
| `Registry.AddKeepsNumbered` | core.js:81-87 | registration preserves the invariant that every indexed entry sits under its own id and its number is the 1-based position of its name |
| `Registry.RegisterAll` | core.js:81-87 | registering a sequence one by one gives one list entry per registration, and the index holds exactly the ids used |
| `Registry.RegisterAllNumbers` | core.js:81-87 | after any sequence of registrations the list is the names in order, and the entry for each id is its last registration numbered with its 1-based position: numbers run 1..n in registration order |
| `Registry.RegisterAllNames` | core.js:82 | after any sequence of registrations the list is the registered names in order, repeats included |
| `Registry.RegisterAllNumbered` | core.js:81-87 | any sequence of registrations keeps every entry under its own id with a number pointing at its name |
| `Registry.RegisterAllLatest` | core.js:84-85 | a later registration under the same id replaces the entry; the last one for each id carries its 1-based position |
| `Engine.Core.AddExercise` | core.js:81-87 | the engine's registry becomes `Add` of the old one, the invariant holds, and the returned metadata carries the assigned number |
| `Engine.Core.constructor` | core.js:20-72 | a new engine has the defaulted options, an empty registry, the persisted progress, the loaded commands, no completion hook and nothing printed |
| `Progress.WithCompleted` | core.js:119-126 | after marking, the name is in the list, nothing else is added, the length grows by one exactly when the name was absent, and the earlier list is kept as a prefix |
| `Progress.WithCompletedIdempotent` | core.js:119-126 | marking the same name twice leaves the list as the first marking left it |
| `Progress.WithCompletedNoDuplicates` | core.js:122-123 | marking never introduces a duplicate name |
| `Engine.Core.MarkCompleted` | core.js:119-126 | the stored list becomes `WithCompleted` of the stored list (or of the empty list when nothing is stored), and a save of it is logged on every call, including a repeated one |
| `JsValues.ArrayToNumber` | core.js:116 | an array of two or more names is NaN under subtraction, the empty array is 0, a single name is its decimal value when it is a numeral and NaN otherwise, and any number obtained is non-negative |
| `Progress.RemainingAsWritten` | core.js:114-117 | `countRemaining` as parsed: the result is 0 or the stored list's length, and 0 when nothing is stored |
| `Progress.RemainingAsWrittenShape` | core.js:116 | the result is non-zero exactly when one name is stored and it is a numeral whose value differs from the exercise count, and it is then 1 |
| `Engine.Core.CountRemaining` | core.js:114-117 | `countRemaining()` is 0 or 1, and 1 exactly when the stored list is one numeral different from the number of registered exercises |
| `Progress.RemainingZeroAfterTwo` | core.js:116 | with two or more completions the count is 0 whatever the number of exercises |
| `Progress.RemainingZeroAfterFirstCompletion` | core.js:116 | the first completion of a non-numeric name gives a count of 0, not the total minus one |
| `JsValues.ErrDetail` | core.js:93 | `err.message \|\| err` is the message of an error object with a non-empty message, and the value itself otherwise; a truthy error gives a truthy detail |
| `JsValues.TypeOf` | core.js:228-229 | `typeof` is "function" exactly for functions, "undefined" exactly for undefined, and "object" exactly for null and objects |
| `Lifecycle.Decide` | core.js:199-220 | `done(err, pass)`: the call errs exactly when `err` is truthy and the call is not the legacy flag form, and the error is the one passed; otherwise mode "run" only cleans up; otherwise the call fails exactly when the normalised pass flag is falsy or the exercise sets `fail`, and passes in the remaining case |
| `Lifecycle.LegacyCallMatchesTwoArguments` | core.js:201-204 | `done(flag)` takes the same branch as `done(null, flag)` |
| `Lifecycle.ErrorObjectIsReported` | core.js:206-211 | an error object with a message errs whatever the mode, flag or override, and its message is the reported detail |
| `Lifecycle.End` | core.js:89-99 | a cleanup hook error is only reported; otherwise the callback runs when given, and the process exits with 0 on pass and -1 otherwise; without a hook nothing is reported |
| `Lifecycle.DoneOutcome` | core.js:206-217 | an error or a "run" mode hands pass true to the cleanup hook, a failure hands false; only a hook error is reported, as the cleanup failure carrying that error's detail; otherwise an error runs the unexpected-error callback, and "run" and a failure exit, with 0 and -1 respectively |
| `Lifecycle.ErroredReportsAfterCleanup` | core.js:206-211 | the unexpected-error report is made by the cleanup callback, so it comes after cleanup succeeds; a truthy cleanup error under pass true replaces it with the cleanup report |
| `Lifecycle.CompletionHookNeverRuns` | core.js:160-163 | for every `onComplete` other than the string "function", a function included, the pass path goes straight to cleanup with pass true, which exits 0 or reports a cleanup error |
| `Lifecycle.SolutionFilesFor` | core.js:168-176 | hidden solutions or a missing `getSolutionFiles` give an empty list without calling anything; otherwise the fetch fails exactly when the hook reports a truthy error, carrying it, and succeeds with the hook's files |
| `Lifecycle.SolutionBlocks` | core.js:143-149 | hidden solutions add nothing, and the solution part never has more than three blocks |
| `Lifecycle.SolutionBlocksContent` | core.js:143-149 | the comparison note is there exactly when solutions are shown and there are files or a solution, and then comes first; the solution exactly when solutions are shown and it is truthy; the file list exactly when solutions are shown and there are files, and then comes last, right after the solution when both are there; no other block is in the part |
| `Lifecycle.ProgressBlocks` | core.js:151-158 | at most one progress block, which is the remaining count or the finished message; none exactly when nothing remains and a completion hook is set |
| `Lifecycle.PassScreen` | core.js:140-158 | the pass screen has at most five blocks, at most two with solutions hidden, and opens with a truthy pass message |
| `Lifecycle.AfterPassScreen` | core.js:160-163 | after the pass screen the engine throws exactly when `onComplete` is the string "function"; it never returns normally or runs a callback; an exit is with 0 and a report is a cleanup failure |
| `Lifecycle.PassScreenEnds` | core.js:133-158 | the pass screen opens with the pass message and ends with the remaining count when non-zero, with the finished message when zero and no completion hook is set, and with neither otherwise |
| `Lifecycle.PassScreenSolutions` | core.js:140-158 | the comparison note appears exactly when solutions are shown and there are files or a solution; the file list appears exactly when solutions are shown and there are files; hidden solutions leave at most two blocks; between a truthy pass message and the progress line sits exactly the solution part |
| `Engine.AppendSolutions` | core.js:143-149 | the solution appends queue exactly `SolutionBlocks` after what was queued |
| `Engine.AppendProgress` | core.js:151-158 | the progress appends queue exactly `ProgressBlocks` after what was queued |
| `Engine.Core.ComposePass` | core.js:140-158 | the stream the pass continuation composes is exactly `PassScreen` of its inputs and of `countRemaining()` |
| `Engine.Core.ShowPass` | core.js:130-165 | the pass continuation marks the exercise completed before rendering, fills in the default pass text of type `txt` only when `pass` is falsy, prints one pass screen computed with the updated store, and then ends as `AfterPassScreen` says |
| `Engine.Core.ExercisePass` | core.js:129-177 | a failing `getSolutionFiles` reports `load_error` and marks nothing, prints nothing and fills in nothing; otherwise the exercise is marked completed, one pass screen with the fetched files is printed, and `pass`/`passType` are kept when `pass` is truthy and defaulted otherwise |
| `Engine.Core.ExerciseFail` | core.js:102-112 | the default fail text of type `txt` is filled in only when `fail` is falsy, exactly that one block is printed, and cleanup runs with pass false and no callback |
| `Engine.Core.Done` | core.js:199-220 | errors and "run" end as `DoneOutcome` says and change nothing; a failure prints the fail block, keeps a truthy `fail` and its type or fills in the default fail text of type `txt`, and changes no progress and no pass text; a pass whose solution files fail to load reports the load error and changes nothing; a pass with loadable files marks the exercise completed, saves once, prints the pass screen with the updated count, keeps or defaults the pass text, leaves the fail text, and ends as `AfterPassScreen` says |
| `Engine.Core.RunExercise` | core.js:190-237 | a missing mode reports "no such function" and a non-function names its `typeof`, changing nothing; a truthy return value is printed first; after it, a method of arity at most 1 or one that never calls `done` changes nothing more; a `done` call then has exactly the effects `Engine.Core.Done` states: errors, "run" and a load error print nothing more and change nothing, a failure prints the (kept or defaulted) fail block, a pass marks completed, saves once and prints the pass screen |
| `Content.Stream.Append` | core.js:141 | append queues the block exactly when it has content, answers whether it did, and never reorders what is queued |
| `Content.FirstPresent` | core.js:319-322 | a fallback chain yields at most one block, and only one of its alternatives that has content |
| `Content.FirstPresentIsFirstMatch` | core.js:319-334 | a fallback chain renders exactly its first alternative with content, and renders nothing exactly when all alternatives are empty |
| `Content.Stream.AppendFirstOf` | core.js:319-322 | `append(a) \|\| append(b) \|\| append(c) \|\| append(d)` queues the first alternative with content and answers whether there was one |
| `Lifecycle.ShowExercise` | core.js:302-311 | a truthy prepare error is reported as "preparing" with its detail; otherwise a truthy text error is reported as "loading" with its detail; the only other refusal is the missing problem, and a shown screen is never empty |
| `Lifecycle.ShowExerciseLayout` | core.js:302-335 | when prepare and the text hook succeed: the missing-problem report comes exactly when neither the problem nor the generated text has content; a shown screen is the header slot, the problem blocks and the footer slot; each slot is empty only when all four alternatives are; both problem and text are shown when both have content |
| `Engine.Core.ComposeExercise` | core.js:312-334 | the composed stream, or the missing-problem report, is exactly `ComposeScreen`: the header chain, the problem and text each kept when non-empty, then the footer chain |
| `Engine.Core.PrintExercise` | core.js:293-338 | an unknown name reports `missing` and neither saves nor prints; a known one saves `current` before prepare runs, then a prepare or text error is reported, or the show path ends as `ShowExercise` says |
| `Engine.Core.LoadExercise` | core.js:277-291 | the result is null exactly when the name's id is not registered; otherwise it is a fresh instance carrying that metadata and the factory's texts and their types, and `init` received the metadata's id, name, dir and number when the exercise has one; that number is the 1-based position of the exercise's name in the list, by the registry invariant |
| `Engine.Exercise.constructor` | core.js:283-290 | a new instance holds the factory's fields and the metadata, and records the `init` call when `init` exists |
| `Menu.Reverse` | core.js:264 | after the in-place reverse the list has the same length, and position k holds what position n-1-k held |
| `Menu.ReverseTwice` | core.js:264 | two reverses restore the command list, so the extras order alternates between printings |
| `Menu.InMenu` | core.js:242-247 | a command is shown exactly when its filter does not refuse it and its `menu` is not `false` (`true`, absent, null and 0 all show it) |
| `Menu.KeepInMenu` | core.js:242-247 | a command is kept exactly when its filter does not refuse it and its `menu` is not `false`; nothing is added; a list of only visible commands is kept whole |
| `Menu.Extras` | core.js:263-266 | the extras are the visible commands of the reversed list followed by the `exit` entry, which exits with 0 |
| `Menu.KeepInMenuAppend` | core.js:265 | filtering a concatenation is the concatenation of the filtered parts, so the filter keeps order |
| `Menu.KeepInMenuReverse` | core.js:264-265 | filtering the reversed list gives the reverse of the filtered list |
| `Menu.ExtrasAlternate` | core.js:263-266 | on the next printing, the commands before `exit` are those of this printing in reverse order |
| `Menu.Entries` | core.js:256-262 | there is one menu entry per registered exercise, in registration order, and an entry is marked completed exactly when its exercise is in the completed list |
| `Engine.Core.PrintMenu` | core.js:239-275 | the command list is reversed in place, and the menu holds the entries for the stored completed list and the extras of the reversed commands |

## Left out

- Storage paths, `i18n.init`, the command and modifier loading of `commandico`, `createMenuFactory`, and `util.getDir` for `appDir`/`exerciseDir` (core.js:33-72) are not modelled. These are foreign libraries and configuration. The constructor takes the loaded commands, the persisted progress and the id function as parameters.
- `util.idFromName` is not part of this model. It is a parameter of the engine (`Core.idFromName`).
- Translation (`__`, `__n`, `extend`, `has`, `lang`) is out of the model. A translated message is a `Note(key)` block, the remaining-count message is `RemainingNote(count)`, and the exercise-name and progress substitutions of the show path are dropped.
- Rendering is out of the model: `lib/print`, `combined-stream`, file reads, colouring and the piping to standard output. `lib/print` is not part of this model. An appended block counts as having content when its text or path is truthy, a file list when it is non-empty, and a translated message always. `appendPlus` is modelled as `append`.
- `lib/error` is not part of this model. Its calls are `Reported` outcomes that end the operation.
- `setImmediate`, the stream `end` event and asynchronous timing: callbacks are sequential continuations. A mode method's call to `done` is taken to happen after the method returns. A mode that calls `done` before returning a truthy value would print the two in the other order.
- Hooks that never call their callback, or call it twice, are not modelled. Each capability method calls back once with a fixed value. For `end`, that value depends on the mode and the pass flag. Effects a hook has on the exercise object (including `init`'s) are not modelled.
- The `pass`/`fail` event subscriptions and re-emission on the engine (core.js:192-197) are not modelled. This is listener machinery of the event-emitter mixin.
- The `args` passed to a mode method are not modelled. A method's behaviour is fixed per exercise.
- `Exercises.Member` reads a mode from a separate `members` map. In the source, `exercise[mode]` (core.js:222) reads the same object as `pass`, `fail`, `end`, `prepare` and the other fields, and also finds inherited properties. So mode "fail" on an exercise with `fail: "text"` gets "is a string" there, whereas the model answers from `members`. The model assumes a mode name names none of the other fields and no inherited property.
- `Engine.Core.LoadExercise` looks ids up in a map. The source's `_meta` is a plain object, so an id naming an `Object.prototype` property (`constructor`, `__proto__`, `toString`) finds an inherited value there and `meta.fn()` throws; the model assumes no id names such a property and answers null for it.
- `i18n.updateExercises` (core.js:83), which hands the exercise list to the translation layer on every registration, is not modelled.
- `Engine.Core.AddExercise` returns the numbered metadata as a new value instead of `this` (core.js:86); chaining is not modelled.
- `JsValues.ArrayToNumber` covers a one-name array only when the name is a plain decimal numeral. Other numeric spellings (whitespace, sign, fraction, exponent, hexadecimal, `Infinity`) are taken as NaN.
- A `getSolutionFiles` callback that reports no error and no file array (which would throw on `files.length`) is not modelled: the file list is always a sequence.
- `Registry.Add` stores a numbered copy of the metadata. The source sets `meta.number` on the caller's own object, which stays shared with the registry entry. That sharing is not modelled.
- `Engine.Core.constructor` requires a truthy `name` where the source throws. The throwing path is modelled by `Config.ApplyDefaults` returning a failure.
- `loadExercise` assigns the new instance to an undeclared (global) variable. This has no effect inside the model.
- The menu title and subtitle and the entry labels are translations and are not modelled.
