/**
 * The undoable entity adapter: a normalized collection kept in an undoable
 * state. Every collection mutation is redirected to `state.current` and
 * never touches `state.previous`; `commit` and `rollback` are those of the
 * undo adapter and act on the whole collection value; the selectors read
 * through `current`.
 */
module UndoableEntityAdapter {
  import opened Wrappers
  import opened UndoableAdapter
  import EC = EntityCollection

  type UndoableEntityState<Id, E> = UndoableState<EC.EntityState<Id, E>>

  /** Both generations of the state are valid collections. */
  ghost predicate ValidUndoable<Id, E(!new), P(!new)>(a: EC.Adapter<Id, E, P>, u: Undoable<EC.EntityState<Id, E>>)
  {
    EC.Valid(a, u.current) && (u.previous.Some? ==> EC.Valid(a, u.previous.value))
  }

  /** `getInitialState()`: an empty collection as `current` and no snapshot. */
  method GetInitialState<Id, E(!new), P(!new)>(a: EC.Adapter<Id, E, P>) returns (state: UndoableEntityState<Id, E>)
    ensures fresh(state)
    ensures state.current == EC.Initial() && state.previous == None
    ensures ValidUndoable(a, state.View())
  {
    state := new UndoableState(EC.Initial());
  }

  /** Committing and rolling back keep both generations valid. */
  lemma CommitRollbackKeepValid<Id, E(!new), P(!new)>(a: EC.Adapter<Id, E, P>, u: Undoable<EC.EntityState<Id, E>>)
    requires ValidUndoable(a, u)
    ensures ValidUndoable(a, Committed(u)) && ValidUndoable(a, RolledBack(u))
  {
  }

  method AddOne<Id, E(!new), P(!new)>(a: EC.Adapter<Id, E, P>, state: UndoableEntityState<Id, E>, entity: E)
    requires EC.Valid(a, state.current)
    modifies state
    ensures state.current == EC.AddOne(a, old(state.current), entity)
    ensures state.previous == old(state.previous)
  {
    state.current := EC.AddOne(a, state.current, entity);
  }

  method AddMany<Id, E(!new), P(!new)>(a: EC.Adapter<Id, E, P>, state: UndoableEntityState<Id, E>, entities: seq<E>)
    requires EC.Valid(a, state.current)
    modifies state
    ensures state.current == EC.AddMany(a, old(state.current), entities)
    ensures state.previous == old(state.previous)
  {
    state.current := EC.AddMany(a, state.current, entities);
  }

  method SetAll<Id, E(!new), P(!new)>(a: EC.Adapter<Id, E, P>, state: UndoableEntityState<Id, E>, entities: seq<E>)
    modifies state
    ensures state.current == EC.SetAll(a, entities)
    ensures state.previous == old(state.previous)
  {
    state.current := EC.SetAll(a, entities);
  }

  method RemoveOne<Id, E(!new), P(!new)>(a: EC.Adapter<Id, E, P>, state: UndoableEntityState<Id, E>, id: Id)
    requires EC.Valid(a, state.current)
    modifies state
    ensures state.current == EC.RemoveOne(a, old(state.current), id)
    ensures state.previous == old(state.previous)
  {
    state.current := EC.RemoveOne(a, state.current, id);
  }

  method RemoveMany<Id, E(!new), P(!new)>(a: EC.Adapter<Id, E, P>, state: UndoableEntityState<Id, E>, ids: seq<Id>)
    requires EC.Valid(a, state.current)
    modifies state
    ensures state.current == EC.RemoveMany(a, old(state.current), ids)
    ensures state.previous == old(state.previous)
  {
    state.current := EC.RemoveMany(a, state.current, ids);
  }

  method RemoveAll<Id, E(!new), P(!new)>(a: EC.Adapter<Id, E, P>, state: UndoableEntityState<Id, E>)
    modifies state
    ensures state.current == EC.RemoveAll(a, old(state.current))
    ensures state.current.ids == [] && state.current.entities == map[]
    ensures state.previous == old(state.previous)
  {
    state.current := EC.RemoveAll(a, state.current);
  }

  method UpdateOne<Id, E(!new), P(!new)>(a: EC.Adapter<Id, E, P>, state: UndoableEntityState<Id, E>, update: EC.Update<Id, P>)
    requires EC.Valid(a, state.current) && EC.IdPreserving(a)
    modifies state
    ensures state.current == EC.UpdateOne(a, old(state.current), update)
    ensures state.previous == old(state.previous)
  {
    state.current := EC.UpdateOne(a, state.current, update);
  }

  method UpdateMany<Id, E(!new), P(!new)>(a: EC.Adapter<Id, E, P>, state: UndoableEntityState<Id, E>, updates: seq<EC.Update<Id, P>>)
    requires EC.Valid(a, state.current) && EC.IdPreserving(a)
    modifies state
    ensures state.current == EC.UpdateMany(a, old(state.current), updates)
    ensures state.previous == old(state.previous)
  {
    state.current := EC.UpdateMany(a, state.current, updates);
  }

  method UpsertOne<Id, E(!new), P(!new)>(a: EC.Adapter<Id, E, P>, state: UndoableEntityState<Id, E>, entity: E)
    requires EC.Valid(a, state.current)
    modifies state
    ensures state.current == EC.UpsertOne(a, old(state.current), entity)
    ensures state.previous == old(state.previous)
  {
    state.current := EC.UpsertOne(a, state.current, entity);
  }

  method UpsertMany<Id, E(!new), P(!new)>(a: EC.Adapter<Id, E, P>, state: UndoableEntityState<Id, E>, entities: seq<E>)
    requires EC.Valid(a, state.current)
    modifies state
    ensures state.current == EC.UpsertMany(a, old(state.current), entities)
    ensures state.previous == old(state.previous)
  {
    state.current := EC.UpsertMany(a, state.current, entities);
  }

  // ---------------------------------------------------------------------
  // Selectors: each resolves through `current` and never reads `previous`.

  function SelectIds<Id, E>(state: UndoableEntityState<Id, E>): (r: seq<Id>)
    reads state
    ensures r == state.current.ids
  {
    Value(state).ids
  }

  function SelectEntities<Id, E>(state: UndoableEntityState<Id, E>): (r: map<Id, E>)
    reads state
    ensures r == state.current.entities
  {
    Value(state).entities
  }

  function SelectAll<Id, E(!new), P(!new)>(a: EC.Adapter<Id, E, P>, state: UndoableEntityState<Id, E>): (r: seq<E>)
    requires EC.Valid(a, state.current)
    reads state
    ensures |r| == |state.current.ids|
    ensures forall i :: 0 <= i < |r| ==> r[i] == state.current.entities[state.current.ids[i]]
  {
    EC.SelectAll(a, Value(state))
  }

  function SelectTotal<Id, E(!new), P(!new)>(a: EC.Adapter<Id, E, P>, state: UndoableEntityState<Id, E>): (r: nat)
    requires EC.Valid(a, state.current)
    reads state
    ensures r == |state.current.entities|
  {
    EC.SelectTotal(a, Value(state))
  }

  function SelectById<Id, E>(state: UndoableEntityState<Id, E>, id: Id): (r: Option<E>)
    reads state
    ensures r.Some? <==> id in state.current.entities
    ensures r.Some? ==> r.value == state.current.entities[id]
  {
    EC.SelectById(Value(state), id)
  }
}
