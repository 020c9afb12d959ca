/**
 * The two-generation undo adapter. A state is `{ current, previous }`:
 * `update` shallow-merges into `current`, `commit` snapshots `current` into
 * `previous`, `rollback` restores `previous` into `current` when there is a
 * snapshot, and the `value` selector reads `current` only.
 *
 * The mutable draft a reducer works on is the class `UndoableState`; the
 * adapter's operations are methods that take the draft, as the adapter's
 * functions do. The datatype `Undoable` is the value of a draft, and the
 * functions over it state what each operation does so that sequences of
 * operations can be reasoned about in lemmas.
 */
module UndoableAdapter {
  import opened Wrappers

  /**
   * A plain object seen through its own properties: spreading `{ ...a, ...b }`
   * is map override `a + b`.
   */
  type Obj<V> = map<string, V>

  /** The value of an undoable state. */
  datatype Undoable<T> = Undoable(current: T, previous: Option<T>)

  /** The draft of an undoable state that the reducers mutate. */
  class UndoableState<T> {
    var current: T
    var previous: Option<T>

    /** `getInitialState()`: the seed as `current`, no snapshot. */
    constructor (initialState: T)
      ensures current == initialState && previous == None
    {
      current := initialState;
      previous := None;
    }

    function View(): Undoable<T>
      reads this
    {
      Undoable(current, previous)
    }
  }

  // ---------------------------------------------------------------------
  // The operations on values

  function InitialState<T>(initialState: T): Undoable<T>
  {
    Undoable(initialState, None)
  }

  /** `update`: the fields named in the patch take its values, the others stay. */
  function Updated<V>(u: Undoable<Obj<V>>, patch: Obj<V>): (r: Undoable<Obj<V>>)
    ensures r.current.Keys == u.current.Keys + patch.Keys
    ensures forall f :: f in patch ==> r.current[f] == patch[f]
    ensures forall f :: f in u.current && f !in patch ==> r.current[f] == u.current[f]
    ensures r.previous == u.previous
  {
    u.(current := u.current + patch)
  }

  function Committed<T>(u: Undoable<T>): Undoable<T>
  {
    u.(previous := Some(u.current))
  }

  function RolledBack<T>(u: Undoable<T>): Undoable<T>
  {
    match u.previous
    case None => u
    case Some(p) => u.(current := p)
  }

  /** The `value` selector. */
  function ValueOf<T>(u: Undoable<T>): T
  {
    u.current
  }

  /** A series of `update` calls, in order. */
  function UpdatedAll<V>(u: Undoable<Obj<V>>, patches: seq<Obj<V>>): Undoable<Obj<V>>
    decreases |patches|
  {
    if patches == [] then u
    else UpdatedAll(Updated(u, patches[0]), patches[1..])
  }

  // ---------------------------------------------------------------------
  // The operations on the draft

  method Update<V>(state: UndoableState<Obj<V>>, patch: Obj<V>)
    modifies state
    ensures state.View() == Updated(old(state.View()), patch)
  {
    state.current := state.current + patch;
  }

  method Commit<T>(state: UndoableState<T>)
    modifies state
    ensures state.current == old(state.current)
    ensures state.previous == Some(old(state.current))
    ensures state.View() == Committed(old(state.View()))
  {
    state.previous := Some(state.current);
  }

  method Rollback<T>(state: UndoableState<T>)
    modifies state
    ensures old(state.previous).None? ==> state.current == old(state.current)
    ensures old(state.previous).Some? ==> state.current == old(state.previous).value
    ensures state.previous == old(state.previous)
    ensures state.View() == RolledBack(old(state.View()))
  {
    if state.previous.Some? {
      state.current := state.previous.value;
    }
  }

  /** `getSelectors(selectState).value`: reads `current` and nothing else. */
  function Value<T>(state: UndoableState<T>): (r: T)
    reads state
    ensures r == ValueOf(state.View())
  {
    state.current
  }

  // ---------------------------------------------------------------------
  // The algebra of commit and rollback

  lemma InitialStateHasNoSnapshot<T>(seed: T)
    ensures InitialState(seed).current == seed && InitialState(seed).previous == None
    ensures RolledBack(InitialState(seed)) == InitialState(seed)
  {
  }

  /** Committing twice is committing once; a commit keeps `current`. */
  lemma CommitIdempotent<T>(u: Undoable<T>)
    ensures Committed(Committed(u)) == Committed(u)
    ensures Committed(u).current == u.current
  {
  }

  /** With no snapshot, a rollback is a no-op and the speculative edit stands. */
  lemma RollbackWithoutSnapshot<V>(seed: Obj<V>, patch: Obj<V>)
    ensures RolledBack(Updated(InitialState(seed), patch)) == Updated(InitialState(seed), patch)
  {
  }

  /** With a snapshot, a rollback restores it and keeps it. */
  lemma RollbackRestoresSnapshot<T>(u: Undoable<T>)
    requires u.previous.Some?
    ensures RolledBack(u).current == u.previous.value
    ensures RolledBack(u).previous == u.previous
  {
  }

  /** Updates never touch the snapshot. */
  lemma {:induction false} UpdatesKeepSnapshot<V>(u: Undoable<Obj<V>>, patches: seq<Obj<V>>)
    ensures UpdatedAll(u, patches).previous == u.previous
    decreases |patches|
  {
    if patches != [] {
      UpdatesKeepSnapshot(Updated(u, patches[0]), patches[1..]);
    }
  }

  /** After a commit, any series of updates followed by a rollback restores the committed value. */
  lemma {:induction false} CommitUpdatesRollbackRestores<V>(u: Undoable<Obj<V>>, patches: seq<Obj<V>>)
    ensures RolledBack(UpdatedAll(Committed(u), patches)) == Committed(u)
  {
    UpdatesKeepSnapshot(Committed(u), patches);
  }

  /** An update that is committed survives a later rollback. */
  lemma UpdateCommitRollbackKeeps<V>(u: Undoable<Obj<V>>, patch: Obj<V>)
    ensures ValueOf(RolledBack(Committed(Updated(u, patch)))) == u.current + patch
  {
  }

  /** Two states with the same `current` select the same value, whatever their snapshots. */
  lemma ValueIgnoresSnapshot<T>(u: Undoable<T>, w: Undoable<T>)
    requires u.current == w.current
    ensures ValueOf(u) == ValueOf(w)
  {
  }
}
