/** The progress store: the persisted list of completed exercise names and
    the current exercise, and the remaining count computed from them. */
module Progress {
  import opened Wrappers
  import opened JsValues

  /** The persisted values; None is a key that was never saved. */
  datatype Storage = Storage(completed: Option<seq<string>>, current: Option<string>)

  /** One `save` call on the store. */
  datatype Write = SavedCompleted(names: seq<string>) | SavedCurrent(name: string)

  /** `get('completed') || []`. */
  function CompletedOrEmpty(stored: Option<seq<string>>): seq<string> {
    if stored.Some? then stored.value else []
  }

  predicate NoDuplicates(s: seq<string>) {
    forall i, j :: 0 <= i < j < |s| ==> s[i] != s[j]
  }

  /** The completed list after `markCompleted(name)`: the name is added at
      the end when absent, and the list is otherwise left as it was. */
  function WithCompleted(c: seq<string>, name: string): (r: seq<string>)
    ensures name in r
    ensures forall x :: x in r <==> x in c || x == name
    ensures |r| == if name in c then |c| else |c| + 1
    ensures r[..|c|] == c
  {
    if name in c then c else c + [name]
  }

  /** Marking a name a second time leaves the list as the first time left it. */
  lemma WithCompletedIdempotent(c: seq<string>, name: string)
    ensures WithCompleted(WithCompleted(c, name), name) == WithCompleted(c, name)
  {
  }

  /** Marking never introduces a duplicate. */
  lemma WithCompletedNoDuplicates(c: seq<string>, name: string)
    requires NoDuplicates(c)
    ensures NoDuplicates(WithCompleted(c, name))
  {
  }

  /** `countRemaining` as written: `total - completed ? completed.length : 0`,
      which parses as `(total - completed) ? completed.length : 0`, with the
      stored array turned into a number by the subtraction. */
  function RemainingAsWritten(total: int, stored: Option<seq<string>>): (r: int)
    ensures r == 0 || (stored.Some? && r == |stored.value|)
    ensures stored.None? ==> r == 0
  {
    var asNumber := if stored.Some? then ArrayToNumber(stored.value) else NaN;
    if NumberTruthy(Minus(total, asNumber)) then |stored.value| else 0
  }

  /** The count is never the number of exercises left: it is 0 unless exactly
      one name is stored, that name is a decimal numeral, and its value
      differs from the number of registered exercises; then it is 1. */
  lemma RemainingAsWrittenShape(total: int, stored: Option<seq<string>>)
    ensures var r := RemainingAsWritten(total, stored);
      && (r != 0 <==>
            && stored.Some? && |stored.value| == 1
            && AllDigits(stored.value[0]) && DecimalValue(stored.value[0]) != total)
      && (r != 0 ==> r == 1)
  {
  }

  /** With two or more completions the count is 0 whatever the total. */
  lemma RemainingZeroAfterTwo(total: int, c: seq<string>)
    requires |c| >= 2
    ensures RemainingAsWritten(total, Some(c)) == 0
  {
  }

  /** The first completion of an exercise whose name is not a numeral also
      leaves the count at 0, so it does not drop by one from the full total. */
  lemma RemainingZeroAfterFirstCompletion(total: int, name: string)
    requires !AllDigits(name)
    ensures RemainingAsWritten(total, Some(WithCompleted([], name))) == 0
  {
    assert WithCompleted([], name) == [name];
  }
}
