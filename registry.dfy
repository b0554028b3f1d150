/** The exercise registry: the ordered list of names and the metadata
    indexed by id, with numbers assigned at registration. */
module Registry {
  import opened Exercises

  /** Exercise metadata; `fn` is the factory, known by what it produces. */
  datatype Meta = Meta(id: string, name: string, dir: string, number: int, fn: ExerciseDef)

  /** The registry state: `exercises` and `_meta`. */
  datatype Catalogue = Catalogue(exercises: seq<string>, metaById: map<string, Meta>)

  const Empty := Catalogue([], map[])

  /** Every indexed entry sits under its own id and carries the 1-based
      position of its name in the list. */
  ghost predicate Numbered(c: Catalogue) {
    forall id :: id in c.metaById ==>
      && c.metaById[id].id == id
      && 1 <= c.metaById[id].number <= |c.exercises|
      && c.exercises[c.metaById[id].number - 1] == c.metaById[id].name
  }

  /** `addExercise(meta)`: append the name, index the metadata by id, and
      number it with the new length of the list. */
  function Add(c: Catalogue, m: Meta): (r: Catalogue)
    ensures |r.exercises| == |c.exercises| + 1
    ensures r.exercises[..|c.exercises|] == c.exercises
    ensures r.exercises[|c.exercises|] == m.name
    ensures m.id in r.metaById && r.metaById[m.id] == m.(number := |r.exercises|)
    ensures forall id :: id in c.metaById && id != m.id ==>
      id in r.metaById && r.metaById[id] == c.metaById[id]
    ensures r.metaById.Keys == c.metaById.Keys + {m.id}
  {
    Catalogue(c.exercises + [m.name], c.metaById[m.id := m.(number := |c.exercises| + 1)])
  }

  /** Registration keeps every number pointing at its name. */
  lemma AddKeepsNumbered(c: Catalogue, m: Meta)
    requires Numbered(c)
    ensures Numbered(Add(c, m))
  {
    var r := Add(c, m);
    forall id | id in r.metaById
      ensures r.metaById[id].id == id
      ensures 1 <= r.metaById[id].number <= |r.exercises|
      ensures r.exercises[r.metaById[id].number - 1] == r.metaById[id].name
    {
      if id != m.id {
        assert r.exercises[c.metaById[id].number - 1] == c.exercises[c.metaById[id].number - 1];
      }
    }
  }

  /** The ids a sequence of registrations uses. */
  function Ids(ms: seq<Meta>): set<string> {
    if ms == [] then {} else Ids(ms[..|ms| - 1]) + {ms[|ms| - 1].id}
  }

  /** Registering a sequence of exercises one after the other. */
  function RegisterAll(ms: seq<Meta>): (r: Catalogue)
    ensures |r.exercises| == |ms|
    ensures r.metaById.Keys == Ids(ms)
  {
    if ms == [] then Empty else Add(RegisterAll(ms[..|ms| - 1]), ms[|ms| - 1])
  }

  /** The names of a sequence of registrations, in order. */
  function Names(ms: seq<Meta>): (names: seq<string>)
    ensures |names| == |ms|
    ensures forall i :: 0 <= i < |ms| ==> names[i] == ms[i].name
  {
    seq(|ms|, i requires 0 <= i < |ms| => ms[i].name)
  }

  /** No later registration reuses the id of `ms[i]`. */
  predicate LastWithId(ms: seq<Meta>, i: int)
    requires 0 <= i < |ms|
  {
    forall j :: i < j < |ms| ==> ms[j].id != ms[i].id
  }

  /** After registering `ms`, the list is their names in order. */
  lemma {:induction false} RegisterAllNames(ms: seq<Meta>)
    ensures RegisterAll(ms).exercises == Names(ms)
  {
    if ms != [] {
      var p := ms[..|ms| - 1];
      RegisterAllNames(p);
      assert RegisterAll(ms).exercises == Names(p) + [ms[|ms| - 1].name];
    }
  }

  /** Registering any sequence keeps every number pointing at its name. */
  lemma {:induction false} RegisterAllNumbered(ms: seq<Meta>)
    ensures Numbered(RegisterAll(ms))
  {
    if ms != [] {
      var p := ms[..|ms| - 1];
      RegisterAllNumbered(p);
      AddKeepsNumbered(RegisterAll(p), ms[|ms| - 1]);
    }
  }

  /** The entry under each id is the last registration with it, numbered
      with its 1-based position. */
  lemma {:induction false} RegisterAllLatest(ms: seq<Meta>)
    ensures forall i :: 0 <= i < |ms| && LastWithId(ms, i) ==>
      ms[i].id in RegisterAll(ms).metaById &&
      RegisterAll(ms).metaById[ms[i].id] == ms[i].(number := i + 1)
  {
    if ms != [] {
      var n := |ms|;
      var p := ms[..n - 1];
      RegisterAllLatest(p);
      var r := RegisterAll(ms);
      assert r == Add(RegisterAll(p), ms[n - 1]);
      forall i | 0 <= i < n && LastWithId(ms, i)
        ensures ms[i].id in r.metaById && r.metaById[ms[i].id] == ms[i].(number := i + 1)
      {
        if i < n - 1 {
          assert p[i] == ms[i];
          assert LastWithId(p, i);
        }
      }
    }
  }

  /** After registering `ms`, the list is their names in order, and the
      entry under each id is the last registration with it, numbered with
      its 1-based position: numbers run 1..n in registration order. */
  lemma RegisterAllNumbers(ms: seq<Meta>)
    ensures RegisterAll(ms).exercises == Names(ms)
    ensures forall i :: 0 <= i < |ms| && LastWithId(ms, i) ==>
      ms[i].id in RegisterAll(ms).metaById &&
      RegisterAll(ms).metaById[ms[i].id] == ms[i].(number := i + 1)
    ensures Numbered(RegisterAll(ms))
  {
    RegisterAllNames(ms);
    RegisterAllLatest(ms);
    RegisterAllNumbered(ms);
  }
}
