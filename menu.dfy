/** The menu composer: one entry per registered exercise with its completion
    marker, then the commands shown in the menu, then `exit`. */
module Menu {
  import opened JsValues

  /** A command's optional `filter(core)`, known by its answer. */
  datatype Filter = NoFilter | Filter(accepts: bool)

  datatype Handler = RunCommand | ExitProcess(code: int)

  /** A command of the command-line layer as the menu sees it. */
  datatype Command = Command(name: string, filter: Filter, menu: JsVal, handler: Handler)

  /** The entry that ends the process with status 0. */
  const ExitCommand := Command("exit", NoFilter, Undefined, ExitProcess(0))

  /** `isCommandInMenu`: a filter that refuses hides the command, and so
      does `menu: false`. */
  predicate InMenu(c: Command)
    ensures c.menu == Bool(false) ==> !InMenu(c)
    ensures c.filter == Filter(false) ==> !InMenu(c)
    ensures c.filter != Filter(false) && c.menu != Bool(false) ==> InMenu(c)
  {
    !(c.filter.Filter? && !c.filter.accepts) && c.menu != Bool(false)
  }

  /** The order `.reverse()` leaves a list in: position k holds what
      position n-1-k held. */
  function Reverse<T>(s: seq<T>): (r: seq<T>)
    ensures |r| == |s|
    ensures forall k :: 0 <= k < |s| ==> r[k] == s[|s| - 1 - k]
  {
    if s == [] then [] else Reverse(s[1..]) + [s[0]]
  }

  /** Reversing twice gives the list back: the command order alternates from
      one printing of the menu to the next. */
  lemma ReverseTwice<T>(s: seq<T>)
    ensures Reverse(Reverse(s)) == s
  {
    var r := Reverse(s);
    forall k | 0 <= k < |s| ensures Reverse(r)[k] == s[k] {
      assert Reverse(r)[k] == r[|s| - 1 - k];
    }
  }

  /** `.filter(isCommandInMenu)`. */
  function KeepInMenu(cs: seq<Command>): (r: seq<Command>)
    ensures |r| <= |cs|
    ensures forall c :: c in r <==> c in cs && InMenu(c)
    ensures (forall i :: 0 <= i < |cs| ==> InMenu(cs[i])) ==> r == cs
  {
    if cs == [] then []
    else if InMenu(cs[0]) then [cs[0]] + KeepInMenu(cs[1..])
    else KeepInMenu(cs[1..])
  }

  /** Filtering a concatenation filters each part. */
  lemma {:induction false} KeepInMenuAppend(a: seq<Command>, b: seq<Command>)
    ensures KeepInMenu(a + b) == KeepInMenu(a) + KeepInMenu(b)
  {
    if a == [] {
      assert a + b == b;
    } else {
      assert (a + b)[0] == a[0];
      assert (a + b)[1..] == a[1..] + b;
      KeepInMenuAppend(a[1..], b);
    }
  }

  /** The filter keeps the order of what it keeps: filtering the reversed
      list gives the reverse of filtering the list. */
  lemma {:induction false} KeepInMenuReverse(s: seq<Command>)
    ensures KeepInMenu(Reverse(s)) == Reverse(KeepInMenu(s))
  {
    if s != [] {
      KeepInMenuReverse(s[1..]);
      KeepInMenuAppend(Reverse(s[1..]), [s[0]]);
      assert [s[0]][1..] == [];
      var kept := KeepInMenu(s[1..]);
      if InMenu(s[0]) {
        var x := [s[0]] + kept;
        assert x[1..] == kept;
        assert Reverse(x) == Reverse(kept) + [s[0]];
      }
    }
  }

  /** The extras list built from the command list as it stands after the
      in-place reverse. */
  function Extras(reversed: seq<Command>): (r: seq<Command>)
    ensures |r| >= 1 && r[|r| - 1] == ExitCommand
    ensures forall c :: c in r[..|r| - 1] <==> c in reversed && InMenu(c)
  {
    KeepInMenu(reversed) + [ExitCommand]
  }

  /** A menu entry: the exercise and whether it carries the completed marker. */
  datatype MenuItem = MenuItem(exercise: string, completed: bool)

  /** `exercises.map(...)`: one entry per exercise, in registration order. */
  function Entries(exercises: seq<string>, completed: seq<string>): (r: seq<MenuItem>)
    ensures |r| == |exercises|
    ensures forall i :: 0 <= i < |r| ==>
      r[i].exercise == exercises[i] && (r[i].completed <==> exercises[i] in completed)
  {
    if exercises == [] then []
    else [MenuItem(exercises[0], exercises[0] in completed)] + Entries(exercises[1..], completed)
  }

  /** What is handed to the menu factory. */
  datatype MenuModel = MenuModel(items: seq<MenuItem>, extras: seq<Command>)

  /** Because the command list is reversed in place on every printing, the
      commands shown before `exit` come in the opposite order the next time. */
  lemma ExtrasAlternate(commands: seq<Command>)
    ensures var now := Extras(commands);
      var next := Extras(Reverse(commands));
      next[..|next| - 1] == Reverse(now[..|now| - 1])
  {
    var now := Extras(commands);
    var next := Extras(Reverse(commands));
    assert now[..|now| - 1] == KeepInMenu(commands);
    assert next[..|next| - 1] == KeepInMenu(Reverse(commands));
    KeepInMenuReverse(commands);
  }
}
