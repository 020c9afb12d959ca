/**
 * The normalized entity collection behind both entity adapters: an ordered
 * list of unique ids and a map from id to entity, kept in one-to-one
 * correspondence. Each entity is filed under the id its adapter's
 * `selectId` reads off it. The operations follow the unsorted collection
 * adapter: adding never overwrites, updating merges changes into an
 * existing entity, removing filters the id list, upserting replaces
 * existing entities and adds the others.
 */
module EntityCollection {
  import opened Wrappers

  datatype EntityState<Id, E> = EntityState(ids: seq<Id>, entities: map<Id, E>)

  /** `{ id, changes }`: a patch for the entity filed under `id`. */
  datatype Update<Id, P> = Update(id: Id, changes: P)

  /**
   * The options of an adapter: how to read an entity's id, and how a patch
   * is shallow-merged into an entity (`Object.assign({}, entity, changes)`).
   */
  datatype Adapter<Id, !E, !P> = Adapter(selectId: E -> Id, merge: (E, P) -> E)

  ghost predicate Distinct<X>(s: seq<X>)
  {
    forall i, j :: 0 <= i < j < |s| ==> s[i] != s[j]
  }

  /** The collection invariant: unique ids, one entity per id, each filed under its own id. */
  ghost predicate Valid<Id, E(!new), P(!new)>(a: Adapter<Id, E, P>, c: EntityState<Id, E>)
  {
    && Distinct(c.ids)
    && (forall i :: 0 <= i < |c.ids| ==> c.ids[i] in c.entities)
    && (forall k :: k in c.entities ==> k in c.ids)
    && (forall k :: k in c.entities ==> a.selectId(c.entities[k]) == k)
  }

  /** Merging a patch never changes an entity's id. */
  ghost predicate IdPreserving<Id, E(!new), P(!new)>(a: Adapter<Id, E, P>)
  {
    forall e, p :: a.selectId(a.merge(e, p)) == a.selectId(e)
  }

  /** A later patch wholly supersedes an earlier one. */
  ghost predicate Overwriting<Id, E(!new), P(!new)>(a: Adapter<Id, E, P>)
  {
    forall e, p, q :: a.merge(a.merge(e, p), q) == a.merge(e, q)
  }

  /** The ids of a list of entities, in order. */
  function IdsOf<Id, E(!new), P(!new)>(a: Adapter<Id, E, P>, es: seq<E>): seq<Id>
  {
    seq(|es|, i requires 0 <= i < |es| => a.selectId(es[i]))
  }

  ghost function IdSet<Id, E(!new), P(!new)>(a: Adapter<Id, E, P>, es: seq<E>): set<Id>
  {
    set i | 0 <= i < |es| :: a.selectId(es[i])
  }

  lemma IdSetSnoc<Id, E(!new), P(!new)>(a: Adapter<Id, E, P>, es: seq<E>, e: E)
    ensures IdSet(a, es + [e]) == IdSet(a, es) + {a.selectId(e)}
  {
    var s := es + [e];
    forall k | k in IdSet(a, s) ensures k in IdSet(a, es) + {a.selectId(e)} {
      var i :| 0 <= i < |s| && a.selectId(s[i]) == k;
      if i < |es| { assert s[i] == es[i]; }
    }
    forall k | k in IdSet(a, es) ensures k in IdSet(a, s) {
      var i :| 0 <= i < |es| && a.selectId(es[i]) == k;
      assert s[i] == es[i];
    }
    assert s[|es|] == e;
  }

  /** `getInitialState()`: the empty collection. */
  function Initial<Id, E>(): EntityState<Id, E>
  {
    EntityState([], map[])
  }

  lemma InitialValid<Id, E(!new), P(!new)>(a: Adapter<Id, E, P>)
    ensures Valid(a, Initial())
  {
  }

  // ---------------------------------------------------------------------
  // Adding

  /** `addOne`: files a new entity at the end; an id already present is left alone. */
  function AddOne<Id, E(!new), P(!new)>(a: Adapter<Id, E, P>, c: EntityState<Id, E>, e: E): (r: EntityState<Id, E>)
    requires Valid(a, c)
    ensures Valid(a, r)
    ensures r.entities.Keys == c.entities.Keys + {a.selectId(e)}
    ensures forall k :: k in c.entities ==> r.entities[k] == c.entities[k]
    ensures a.selectId(e) in c.entities ==> r == c
    ensures a.selectId(e) !in c.entities ==>
      r.ids == c.ids + [a.selectId(e)] && r.entities[a.selectId(e)] == e
  {
    var id := a.selectId(e);
    if id in c.entities then c
    else
      var r := EntityState(c.ids + [id], c.entities[id := e]);
      assert forall i :: 0 <= i < |c.ids| ==> r.ids[i] == c.ids[i];
      r
  }

  /** `addMany`: `addOne` for each entity in order, so the first of several with one id wins. */
  function AddMany<Id, E(!new), P(!new)>(a: Adapter<Id, E, P>, c: EntityState<Id, E>, es: seq<E>): (r: EntityState<Id, E>)
    requires Valid(a, c)
    ensures Valid(a, r)
    ensures c.ids <= r.ids
    ensures r.entities.Keys == c.entities.Keys + IdSet(a, es)
    ensures forall k :: k in c.entities ==> r.entities[k] == c.entities[k]
    decreases |es|
  {
    if es == [] then c
    else
      var init := es[..|es| - 1];
      assert es == init + [es[|es| - 1]];
      IdSetSnoc(a, init, es[|es| - 1]);
      AddOne(a, AddMany(a, c, init), es[|es| - 1])
  }

  /** Adding one more entity is `addOne` after the others. */
  lemma AddManySnoc<Id, E(!new), P(!new)>(a: Adapter<Id, E, P>, c: EntityState<Id, E>, es: seq<E>, e: E)
    requires Valid(a, c)
    ensures AddMany(a, c, es + [e]) == AddOne(a, AddMany(a, c, es), e)
  {
    assert (es + [e])[..|es + [e]| - 1] == es;
  }

  /** An entity with an id that is new to the collection and to the list before it is filed. */
  lemma AddedLastIsFiled<Id, E(!new), P(!new)>(a: Adapter<Id, E, P>, c: EntityState<Id, E>, init: seq<E>, last: E)
    requires Valid(a, c)
    requires a.selectId(last) !in c.entities && a.selectId(last) !in IdSet(a, init)
    ensures a.selectId(last) in AddMany(a, c, init + [last]).entities
    ensures AddMany(a, c, init + [last]).entities[a.selectId(last)] == last
  {
    AddManySnoc(a, c, init, last);
  }

  /** Adding one more entity keeps every entity already filed. */
  lemma AddedKeepsFiled<Id, E(!new), P(!new)>(a: Adapter<Id, E, P>, c: EntityState<Id, E>, init: seq<E>, last: E, id: Id)
    requires Valid(a, c)
    requires id in AddMany(a, c, init).entities
    ensures id in AddMany(a, c, init + [last]).entities
    ensures AddMany(a, c, init + [last]).entities[id] == AddMany(a, c, init).entities[id]
  {
    AddManySnoc(a, c, init, last);
  }

  /** Of several entities with one new id, the first is the one kept. */
  lemma {:induction false} AddManyFirstWins<Id, E(!new), P(!new)>(a: Adapter<Id, E, P>, c: EntityState<Id, E>, es: seq<E>, i: nat)
    requires Valid(a, c)
    requires i < |es| && a.selectId(es[i]) !in c.entities
    requires forall j :: 0 <= j < i ==> a.selectId(es[j]) != a.selectId(es[i])
    ensures a.selectId(es[i]) in AddMany(a, c, es).entities
    ensures AddMany(a, c, es).entities[a.selectId(es[i])] == es[i]
    decreases |es|
  {
    var init := es[..|es| - 1];
    var last := es[|es| - 1];
    assert es == init + [last];
    if i == |es| - 1 {
      assert a.selectId(last) !in IdSet(a, init) by {
        forall j | 0 <= j < |init| ensures a.selectId(init[j]) != a.selectId(last) {
          assert init[j] == es[j];
        }
      }
      AddedLastIsFiled(a, c, init, last);
    } else {
      assert init[i] == es[i];
      AddManyFirstWins(a, c, init, i);
      AddedKeepsFiled(a, c, init, last, a.selectId(es[i]));
    }
  }

  /** The last of a list of distinct ids is not among the ids before it. */
  lemma LastIdIsNew<Id, E(!new), P(!new)>(a: Adapter<Id, E, P>, es: seq<E>, e: E)
    requires Distinct(IdsOf(a, es + [e]))
    ensures a.selectId(e) !in IdSet(a, es)
    ensures Distinct(IdsOf(a, es))
  {
    var ids := IdsOf(a, es + [e]);
    assert IdsOf(a, es) == ids[..|es|];
    forall j | 0 <= j < |es| ensures a.selectId(es[j]) != a.selectId(e) {
      assert ids[j] == a.selectId(es[j]);
      assert ids[|es|] == a.selectId(e);
    }
  }

  lemma IdsOfSnoc<Id, E(!new), P(!new)>(a: Adapter<Id, E, P>, es: seq<E>, e: E)
    ensures IdsOf(a, es + [e]) == IdsOf(a, es) + [a.selectId(e)]
  {
    var l := IdsOf(a, es + [e]);
    var r := IdsOf(a, es) + [a.selectId(e)];
    assert |l| == |r|;
    forall i | 0 <= i < |l| ensures l[i] == r[i] {
      if i < |es| {
        assert (es + [e])[i] == es[i];
      }
    }
  }

  /** One step of `AddManyAppendsIds`: a new id is appended after the others. */
  lemma AppendStep<Id, E(!new), P(!new)>(a: Adapter<Id, E, P>, c: EntityState<Id, E>, init: seq<E>, last: E)
    requires Valid(a, c)
    requires AddMany(a, c, init).ids == c.ids + IdsOf(a, init)
    requires a.selectId(last) !in c.entities && a.selectId(last) !in IdSet(a, init)
    ensures AddMany(a, c, init + [last]).ids == c.ids + IdsOf(a, init + [last])
  {
    var before := AddMany(a, c, init);
    var id := a.selectId(last);
    assert id !in before.entities;
    AddManySnoc(a, c, init, last);
    assert AddMany(a, c, init + [last]).ids == before.ids + [id];
    IdsOfSnoc(a, init, last);
    AppendAssociative(c.ids, IdsOf(a, init), [id]);
  }

  lemma AppendAssociative<X>(x: seq<X>, y: seq<X>, z: seq<X>)
    ensures (x + y) + z == x + (y + z)
  {
  }

  /** Entities with distinct new ids are appended in order. */
  lemma {:induction false} AddManyAppendsIds<Id, E(!new), P(!new)>(a: Adapter<Id, E, P>, c: EntityState<Id, E>, es: seq<E>)
    requires Valid(a, c)
    requires Distinct(IdsOf(a, es))
    requires forall i :: 0 <= i < |es| ==> a.selectId(es[i]) !in c.entities
    ensures AddMany(a, c, es).ids == c.ids + IdsOf(a, es)
    decreases |es|
  {
    if es != [] {
      var init := es[..|es| - 1];
      var last := es[|es| - 1];
      assert es == init + [last];
      LastIdIsNew(a, init, last);
      AddManyAppendsIds(a, c, init);
      AppendStep(a, c, init, last);
    }
  }

  /** With distinct ids, the ids that are new to the collection are appended in list order; the others are skipped. */
  lemma {:induction false} AddManyAppendsNewIds<Id, E(!new), P(!new)>(a: Adapter<Id, E, P>, c: EntityState<Id, E>, es: seq<E>)
    requires Valid(a, c)
    requires Distinct(IdsOf(a, es))
    ensures AddMany(a, c, es).ids == c.ids + IdsOf(a, Filter(es, IsNew(a, c)))
    decreases |es|
  {
    if es == [] {
      assert IdsOf(a, Filter(es, IsNew(a, c))) == [];
    } else {
      var init := es[..|es| - 1];
      var last := es[|es| - 1];
      assert es == init + [last];
      LastIdIsNew(a, init, last);
      AddManyAppendsNewIds(a, c, init);
      FilterAppend(init, [last], IsNew(a, c));
      FilterSingle(last, IsNew(a, c));
      if a.selectId(last) in c.entities {
        assert Filter(init + [last], IsNew(a, c)) == Filter(init, IsNew(a, c)) + [];
        OldLastIsSkipped(a, c, init, last);
      } else {
        NewLastIsAppended(a, c, init, last);
      }
    }
  }

  /** One step of `AddManyAppendsNewIds` for a last entity whose id is already present. */
  lemma OldLastIsSkipped<Id, E(!new), P(!new)>(a: Adapter<Id, E, P>, c: EntityState<Id, E>, init: seq<E>, last: E)
    requires Valid(a, c)
    requires a.selectId(last) in c.entities
    requires AddMany(a, c, init).ids == c.ids + IdsOf(a, Filter(init, IsNew(a, c)))
    requires Filter(init + [last], IsNew(a, c)) == Filter(init, IsNew(a, c))
    ensures AddMany(a, c, init + [last]).ids == c.ids + IdsOf(a, Filter(init + [last], IsNew(a, c)))
  {
    AddManySnoc(a, c, init, last);
  }

  /** One step of `AddManyAppendsNewIds` for a last entity whose id is new. */
  lemma NewLastIsAppended<Id, E(!new), P(!new)>(a: Adapter<Id, E, P>, c: EntityState<Id, E>, init: seq<E>, last: E)
    requires Valid(a, c)
    requires a.selectId(last) !in c.entities && a.selectId(last) !in IdSet(a, init)
    requires AddMany(a, c, init).ids == c.ids + IdsOf(a, Filter(init, IsNew(a, c)))
    requires Filter(init + [last], IsNew(a, c)) == Filter(init, IsNew(a, c)) + [last]
    ensures AddMany(a, c, init + [last]).ids == c.ids + IdsOf(a, Filter(init + [last], IsNew(a, c)))
  {
    var f := Filter(init, IsNew(a, c));
    var id := a.selectId(last);
    AddManySnoc(a, c, init, last);
    assert AddMany(a, c, init + [last]).ids == (c.ids + IdsOf(a, f)) + [id];
    IdsOfSnoc(a, f, last);
    AppendAssociative(c.ids, IdsOf(a, f), [id]);
  }

  /** `setAll`: empties the collection, then adds the entities in order. */
  function SetAll<Id, E(!new), P(!new)>(a: Adapter<Id, E, P>, es: seq<E>): (r: EntityState<Id, E>)
    ensures Valid(a, r)
    ensures r.entities.Keys == IdSet(a, es)
    ensures forall k :: k in r.entities ==> exists i :: 0 <= i < |es| && r.entities[k] == es[i]
  {
    var r := AddMany(a, Initial(), es);
    assert forall k :: k in r.entities ==> exists i :: 0 <= i < |es| && r.entities[k] == es[i] by {
      forall k | k in r.entities ensures exists i :: 0 <= i < |es| && r.entities[k] == es[i] {
        var i :| 0 <= i < |es| && a.selectId(es[i]) == k && forall j :: 0 <= j < i ==> a.selectId(es[j]) != k by {
          FirstIndexOf(a, es, k);
        }
        AddManyFirstWins(a, Initial(), es, i);
      }
    }
    r
  }

  /** An id of a list of entities has a first position in it. */
  lemma {:induction false} FirstIndexOf<Id, E(!new), P(!new)>(a: Adapter<Id, E, P>, es: seq<E>, k: Id)
    requires k in IdSet(a, es)
    ensures exists i :: 0 <= i < |es| && a.selectId(es[i]) == k && forall j :: 0 <= j < i ==> a.selectId(es[j]) != k
    decreases |es|
  {
    if a.selectId(es[0]) != k {
      var i :| 0 <= i < |es| && a.selectId(es[i]) == k;
      assert a.selectId(es[1..][i - 1]) == k;
      FirstIndexOf(a, es[1..], k);
      var i' :| 0 <= i' < |es| - 1 && a.selectId(es[1..][i']) == k && forall j :: 0 <= j < i' ==> a.selectId(es[1..][j]) != k;
      assert es[i' + 1] == es[1..][i'];
      assert forall j :: 1 <= j < i' + 1 ==> es[j] == es[1..][j - 1];
    }
  }

  /** With distinct ids, `setAll` makes the ids exactly those of the list, in order, each filed with its entity. */
  lemma SetAllDistinct<Id, E(!new), P(!new)>(a: Adapter<Id, E, P>, es: seq<E>)
    requires Distinct(IdsOf(a, es))
    ensures SetAll(a, es).ids == IdsOf(a, es)
    ensures forall i :: 0 <= i < |es| ==> SetAll(a, es).entities[a.selectId(es[i])] == es[i]
  {
    AddManyAppendsIds(a, Initial(), es);
    forall i | 0 <= i < |es| ensures SetAll(a, es).entities[a.selectId(es[i])] == es[i] {
      forall j | 0 <= j < i ensures a.selectId(es[j]) != a.selectId(es[i]) {
        assert IdsOf(a, es)[j] != IdsOf(a, es)[i];
      }
      AddManyFirstWins(a, Initial(), es, i);
    }
  }

  // ---------------------------------------------------------------------
  // Removing

  /** The ids not in `keys`, in their original order. */
  function Without<Id(==)>(ids: seq<Id>, keys: seq<Id>): (r: seq<Id>)
    ensures forall i :: 0 <= i < |r| ==> r[i] in ids && r[i] !in keys
    ensures forall i :: 0 <= i < |ids| && ids[i] !in keys ==> ids[i] in r
    ensures Distinct(ids) ==> Distinct(r)
  {
    if ids == [] then []
    else
      var rest := Without(ids[1..], keys);
      assert Distinct(ids) ==> Distinct(ids[1..]) && ids[0] !in ids[1..];
      if ids[0] in keys then rest else [ids[0]] + rest
  }

  /** Removing from a concatenation removes from each part. */
  lemma {:induction false} WithoutAppend<Id>(s: seq<Id>, t: seq<Id>, keys: seq<Id>)
    ensures Without(s + t, keys) == Without(s, keys) + Without(t, keys)
    decreases |s|
  {
    if s == [] {
      assert s + t == t;
    } else {
      assert (s + t)[1..] == s[1..] + t;
      WithoutAppend(s[1..], t, keys);
    }
  }

  /** A single id is dropped when it is removed and kept otherwise. */
  lemma WithoutSingle<Id>(x: Id, keys: seq<Id>)
    ensures Without([x], keys) == if x in keys then [] else [x]
  {
    assert [x][1..] == [];
  }

  /** Where each kept id sits in the original list. */
  ghost function Positions<Id>(ids: seq<Id>, keys: seq<Id>): seq<nat>
    decreases |ids|
  {
    if ids == [] then []
    else if ids[0] in keys then Shift(Positions(ids[1..], keys))
    else [0] + Shift(Positions(ids[1..], keys))
  }

  /**
   * The positions of the kept ids increase, so the kept ids are a
   * subsequence of the original list, in its order.
   */
  lemma {:induction false} WithoutKeepsOrder<Id>(ids: seq<Id>, keys: seq<Id>)
    ensures PositionsOf(ids, Positions(ids, keys), Without(ids, keys))
    decreases |ids|
  {
    if ids != [] {
      WithoutKeepsOrder(ids[1..], keys);
      ShiftStep(ids, Positions(ids[1..], keys), Without(ids[1..], keys));
      if ids[0] !in keys {
        ConsStep(ids, Shift(Positions(ids[1..], keys)), Without(ids[1..], keys));
      }
    }
  }

  /** `pos` is an increasing list of positions in `ids` holding the elements of `w`. */
  ghost predicate PositionsOf<Id>(ids: seq<Id>, pos: seq<nat>, w: seq<Id>)
  {
    && |pos| == |w|
    && (forall i :: 0 <= i < |pos| ==> pos[i] < |ids| && ids[pos[i]] == w[i])
    && (forall i, j :: 0 <= i < j < |pos| ==> pos[i] < pos[j])
  }

  lemma ShiftStep<Id>(ids: seq<Id>, pos: seq<nat>, w: seq<Id>)
    requires ids != [] && PositionsOf(ids[1..], pos, w)
    ensures PositionsOf(ids, Shift(pos), w)
  {
    forall k | 0 <= k < |pos| ensures ids[Shift(pos)[k]] == w[k] {
      assert ids[1..][pos[k]] == w[k];
    }
  }

  lemma ConsStep<Id>(ids: seq<Id>, pos: seq<nat>, w: seq<Id>)
    requires ids != [] && PositionsOf(ids, pos, w)
    requires forall k :: 0 <= k < |pos| ==> pos[k] > 0
    ensures PositionsOf(ids, [0] + pos, [ids[0]] + w)
  {
  }

  /** Every position one further on. */
  function Shift(pos: seq<nat>): (r: seq<nat>)
    ensures |r| == |pos| && forall k :: 0 <= k < |pos| ==> r[k] == pos[k] + 1
  {
    seq(|pos|, k requires 0 <= k < |pos| => pos[k] + 1)
  }

  /** `removeMany`: deletes exactly the given ids; every other entity is untouched. */
  function RemoveMany<Id, E(!new), P(!new)>(a: Adapter<Id, E, P>, c: EntityState<Id, E>, keys: seq<Id>): (r: EntityState<Id, E>)
    requires Valid(a, c)
    ensures Valid(a, r)
    ensures r.ids == Without(c.ids, keys)
    ensures r.entities.Keys == c.entities.Keys - (set k | k in keys)
    ensures forall k :: k in r.entities ==> r.entities[k] == c.entities[k]
  {
    EntityState(Without(c.ids, keys), map k | k in c.entities && k !in keys :: c.entities[k])
  }

  /** The ids that survive `removeMany` keep their relative order. */
  lemma RemoveManyKeepsOrder<Id, E(!new), P(!new)>(a: Adapter<Id, E, P>, c: EntityState<Id, E>, keys: seq<Id>)
    requires Valid(a, c)
    ensures PositionsOf(c.ids, Positions(c.ids, keys), RemoveMany(a, c, keys).ids)
  {
    WithoutKeepsOrder(c.ids, keys);
  }

  /** `removeOne`: `removeMany` of a single id. */
  function RemoveOne<Id, E(!new), P(!new)>(a: Adapter<Id, E, P>, c: EntityState<Id, E>, key: Id): (r: EntityState<Id, E>)
    requires Valid(a, c)
    ensures Valid(a, r)
    ensures r.ids == Without(c.ids, [key])
    ensures r.entities.Keys == c.entities.Keys - {key}
    ensures forall k :: k in r.entities ==> r.entities[k] == c.entities[k]
  {
    RemoveMany(a, c, [key])
  }

  /** `removeAll`: no ids and no entities. */
  function RemoveAll<Id, E(!new), P(!new)>(a: Adapter<Id, E, P>, c: EntityState<Id, E>): (r: EntityState<Id, E>)
    ensures Valid(a, r) && |r.ids| == 0 && |r.entities| == 0
  {
    Initial()
  }

  // ---------------------------------------------------------------------
  // Updating

  /** `updateOne`: merges the changes into the entity with that id; an unknown id is ignored. */
  function UpdateOne<Id, E(!new), P(!new)>(a: Adapter<Id, E, P>, c: EntityState<Id, E>, u: Update<Id, P>): (r: EntityState<Id, E>)
    requires Valid(a, c) && IdPreserving(a)
    ensures Valid(a, r)
    ensures r.ids == c.ids && r.entities.Keys == c.entities.Keys
    ensures forall k :: k in c.entities && k != u.id ==> r.entities[k] == c.entities[k]
    ensures u.id in c.entities ==> r.entities[u.id] == a.merge(c.entities[u.id], u.changes)
    ensures u.id !in c.entities ==> r == c
  {
    if u.id in c.entities then
      c.(entities := c.entities[u.id := a.merge(c.entities[u.id], u.changes)])
    else c
  }

  /** `updateMany`: the updates applied in order. */
  function UpdateMany<Id, E(!new), P(!new)>(a: Adapter<Id, E, P>, c: EntityState<Id, E>, us: seq<Update<Id, P>>): (r: EntityState<Id, E>)
    requires Valid(a, c) && IdPreserving(a)
    ensures Valid(a, r)
    ensures r.ids == c.ids && r.entities.Keys == c.entities.Keys
    ensures forall k :: k in c.entities && (forall i :: 0 <= i < |us| ==> us[i].id != k) ==>
      r.entities[k] == c.entities[k]
    decreases |us|
  {
    if us == [] then c
    else UpdateOne(a, UpdateMany(a, c, us[..|us| - 1]), us[|us| - 1])
  }

  /** The position of the last update for `k`, or -1 when there is none. */
  function LastIndex<Id(==), P>(us: seq<Update<Id, P>>, k: Id): (r: int)
    ensures -1 <= r < |us|
    ensures r >= 0 ==> us[r].id == k
    ensures forall j :: r < j < |us| ==> us[j].id != k
    decreases |us|
  {
    if us == [] then -1
    else if us[|us| - 1].id == k then |us| - 1
    else
      var r := LastIndex(us[..|us| - 1], k);
      assert forall j :: r < j < |us| - 1 ==> us[..|us| - 1][j] == us[j];
      r
  }

  /** The changes of the last update for `k`, if any. */
  function LastChange<Id(==), P>(us: seq<Update<Id, P>>, k: Id): (r: Option<P>)
    ensures r.None? <==> forall i :: 0 <= i < |us| ==> us[i].id != k
    ensures r.Some? ==> exists i :: 0 <= i < |us| && us[i] == Update(k, r.value) &&
                                 (forall j :: i < j < |us| ==> us[j].id != k)
  {
    var i := LastIndex(us, k);
    if i < 0 then None else Some(us[i].changes)
  }

  /** When every update for `k` carries the same changes, those are the last ones. */
  lemma LastChangeUniform<Id, P>(us: seq<Update<Id, P>>, k: Id, p: P)
    requires exists i :: 0 <= i < |us| && us[i].id == k
    requires forall i :: 0 <= i < |us| && us[i].id == k ==> us[i].changes == p
    ensures LastChange(us, k) == Some(p)
  {
  }

  /** With patches that supersede each other, the last update for an entity decides it. */
  lemma {:induction false} UpdateManyLastWins<Id, E(!new), P(!new)>(a: Adapter<Id, E, P>, c: EntityState<Id, E>, us: seq<Update<Id, P>>, k: Id)
    requires Valid(a, c) && IdPreserving(a) && Overwriting(a)
    requires k in c.entities
    ensures UpdateMany(a, c, us).entities[k] ==
      match LastChange(us, k)
      case None => c.entities[k]
      case Some(p) => a.merge(c.entities[k], p)
    decreases |us|
  {
    if us != [] {
      var init := us[..|us| - 1];
      UpdateManyLastWins(a, c, init, k);
      var last := us[|us| - 1];
      if last.id == k {
        match LastChange(init, k)
        case None =>
        case Some(p) =>
          assert a.merge(a.merge(c.entities[k], p), last.changes) == a.merge(c.entities[k], last.changes);
      }
    }
  }

  // ---------------------------------------------------------------------
  // Upserting

  /** The entities that satisfy `p`, in order. */
  function Filter<X>(s: seq<X>, p: X -> bool): (r: seq<X>)
    ensures forall i :: 0 <= i < |r| ==> r[i] in s && p(r[i])
    ensures forall i :: 0 <= i < |s| && p(s[i]) ==> s[i] in r
  {
    if s == [] then []
    else (if p(s[0]) then [s[0]] else []) + Filter(s[1..], p)
  }

  /** Files `e` in place of the entity with its id, if there is one. */
  function Replace<Id, E(!new), P(!new)>(a: Adapter<Id, E, P>, c: EntityState<Id, E>, e: E): (r: EntityState<Id, E>)
    requires Valid(a, c)
    ensures Valid(a, r)
    ensures r.ids == c.ids && r.entities.Keys == c.entities.Keys
    ensures forall k :: k in c.entities && k != a.selectId(e) ==> r.entities[k] == c.entities[k]
    ensures a.selectId(e) in c.entities ==> r.entities[a.selectId(e)] == e
  {
    var id := a.selectId(e);
    if id in c.entities then c.(entities := c.entities[id := e]) else c
  }

  function ReplaceMany<Id, E(!new), P(!new)>(a: Adapter<Id, E, P>, c: EntityState<Id, E>, es: seq<E>): (r: EntityState<Id, E>)
    requires Valid(a, c)
    ensures Valid(a, r)
    ensures r.ids == c.ids && r.entities.Keys == c.entities.Keys
    ensures forall k :: k in c.entities && k !in IdSet(a, es) ==> r.entities[k] == c.entities[k]
    decreases |es|
  {
    if es == [] then c
    else
      var init := es[..|es| - 1];
      assert es == init + [es[|es| - 1]];
      IdSetSnoc(a, init, es[|es| - 1]);
      Replace(a, ReplaceMany(a, c, init), es[|es| - 1])
  }

  /**
   * `upsertMany`: the entities are split by whether their id is already in
   * the collection; the existing ones replace their entity (the last wins),
   * and the new ones are added with `addMany` (the first wins).
   */
  function UpsertMany<Id, E(!new), P(!new)>(a: Adapter<Id, E, P>, c: EntityState<Id, E>, es: seq<E>): (r: EntityState<Id, E>)
    requires Valid(a, c)
    ensures Valid(a, r)
    ensures c.ids <= r.ids
    ensures r.entities.Keys == c.entities.Keys + IdSet(a, es)
    ensures forall k :: k in c.entities && k !in IdSet(a, es) ==> r.entities[k] == c.entities[k]
  {
    var existing := Filter(es, IsExisting(a, c));
    var added := Filter(es, IsNew(a, c));
    FilterIdSet(a, es, IsExisting(a, c));
    FilterIdSet(a, es, IsNew(a, c));
    NewIdsAreAdded(a, c.entities.Keys, es, IsNew(a, c));
    AddMany(a, ReplaceMany(a, c, existing), added)
  }

  /** Whether an entity's id is already in the collection. */
  function IsExisting<Id, E(!new), P(!new)>(a: Adapter<Id, E, P>, c: EntityState<Id, E>): E -> bool
  {
    e => a.selectId(e) in c.entities
  }

  function IsNew<Id, E(!new), P(!new)>(a: Adapter<Id, E, P>, c: EntityState<Id, E>): E -> bool
  {
    e => a.selectId(e) !in c.entities
  }

  /** Filtering a concatenation filters each part. */
  lemma {:induction false} FilterAppend<X>(s: seq<X>, t: seq<X>, p: X -> bool)
    ensures Filter(s + t, p) == Filter(s, p) + Filter(t, p)
    decreases |s|
  {
    if s == [] {
      assert s + t == t;
    } else {
      assert (s + t)[1..] == s[1..] + t;
      FilterAppend(s[1..], t, p);
    }
  }

  /** An element that is kept sits after the kept elements before it and before the kept elements after it. */
  lemma FilterAround<X>(s: seq<X>, i: nat, p: X -> bool)
    requires i < |s| && p(s[i])
    ensures var f := Filter(s, p); var m := |Filter(s[..i], p)|;
      m < |f| && f[m] == s[i] && f[..m] == Filter(s[..i], p) && f[m + 1..] == Filter(s[i + 1..], p)
  {
    var pre, post := s[..i], s[i + 1..];
    assert s == pre + ([s[i]] + post);
    FilterAppend(pre, [s[i]] + post, p);
    FilterAppend([s[i]], post, p);
    FilterSingle(s[i], p);
    SplitAt(Filter(pre, p), s[i], Filter(post, p));
  }

  lemma FilterSingle<X>(x: X, p: X -> bool)
    ensures Filter([x], p) == if p(x) then [x] else []
  {
    assert [x][1..] == [];
  }

  /** The parts of `x + [e] + z` around `e`. */
  lemma SplitAt<X>(x: seq<X>, e: X, z: seq<X>)
    ensures var f := x + ([e] + z);
      f[|x|] == e && f[..|x|] == x && f[|x| + 1..] == z
  {
  }

  /** Of several entities with one existing id, `replaceMany` files the last. */
  lemma {:induction false} ReplaceManyLastWins<Id, E(!new), P(!new)>(a: Adapter<Id, E, P>, c: EntityState<Id, E>, es: seq<E>, i: nat)
    requires Valid(a, c)
    requires i < |es| && a.selectId(es[i]) in c.entities
    requires forall j :: i < j < |es| ==> a.selectId(es[j]) != a.selectId(es[i])
    ensures ReplaceMany(a, c, es).entities[a.selectId(es[i])] == es[i]
    decreases |es|
  {
    var init := es[..|es| - 1];
    if i < |es| - 1 {
      assert init[i] == es[i];
      ReplaceManyLastWins(a, c, init, i);
    }
  }

  /** An existing id listed in `upsertMany` takes the last entity listed with it. */
  lemma UpsertManyExisting<Id, E(!new), P(!new)>(a: Adapter<Id, E, P>, c: EntityState<Id, E>, es: seq<E>, i: nat)
    requires Valid(a, c)
    requires i < |es| && a.selectId(es[i]) in c.entities
    requires forall j :: i < j < |es| ==> a.selectId(es[j]) != a.selectId(es[i])
    ensures a.selectId(es[i]) in UpsertMany(a, c, es).entities
    ensures UpsertMany(a, c, es).entities[a.selectId(es[i])] == es[i]
  {
    var f := Filter(es, IsExisting(a, c));
    FilterAround(es, i, IsExisting(a, c));
    var m := |Filter(es[..i], IsExisting(a, c))|;
    forall j | m < j < |f| ensures a.selectId(f[j]) != a.selectId(f[m]) {
      assert f[j] == f[m + 1..][j - m - 1];
      LaterIdDiffers(a, es, i, f[j]);
    }
    ReplaceManyLastWins(a, c, f, m);
  }

  lemma LaterIdDiffers<Id, E(!new), P(!new)>(a: Adapter<Id, E, P>, es: seq<E>, i: nat, e: E)
    requires i < |es|
    requires forall j :: i < j < |es| ==> a.selectId(es[j]) != a.selectId(es[i])
    requires e in es[i + 1..]
    ensures a.selectId(e) != a.selectId(es[i])
  {
    var t :| 0 <= t < |es[i + 1..]| && es[i + 1..][t] == e;
    assert es[i + 1 + t] == e;
  }

  lemma EarlierIdDiffers<Id, E(!new), P(!new)>(a: Adapter<Id, E, P>, es: seq<E>, i: nat, e: E)
    requires i < |es|
    requires forall j :: 0 <= j < i ==> a.selectId(es[j]) != a.selectId(es[i])
    requires e in es[..i]
    ensures a.selectId(e) != a.selectId(es[i])
  {
    var t :| 0 <= t < i && es[..i][t] == e;
    assert es[t] == e;
  }

  /** A new id listed in `upsertMany` takes the first entity listed with it. */
  lemma UpsertManyNew<Id, E(!new), P(!new)>(a: Adapter<Id, E, P>, c: EntityState<Id, E>, es: seq<E>, i: nat)
    requires Valid(a, c)
    requires i < |es| && a.selectId(es[i]) !in c.entities
    requires forall j :: 0 <= j < i ==> a.selectId(es[j]) != a.selectId(es[i])
    ensures a.selectId(es[i]) in UpsertMany(a, c, es).entities
    ensures UpsertMany(a, c, es).entities[a.selectId(es[i])] == es[i]
  {
    var g := Filter(es, IsNew(a, c));
    FilterAround(es, i, IsNew(a, c));
    var m := |Filter(es[..i], IsNew(a, c))|;
    forall j | 0 <= j < m ensures a.selectId(g[j]) != a.selectId(g[m]) {
      assert g[j] == g[..m][j];
      EarlierIdDiffers(a, es, i, g[j]);
    }
    AddManyFirstWins(a, ReplaceMany(a, c, Filter(es, IsExisting(a, c))), g, m);
  }

  /** Filtering a list with distinct ids keeps them distinct. */
  lemma {:induction false} FilterDistinctIds<Id, E(!new), P(!new)>(a: Adapter<Id, E, P>, es: seq<E>, p: E -> bool)
    requires Distinct(IdsOf(a, es))
    ensures Distinct(IdsOf(a, Filter(es, p)))
    decreases |es|
  {
    if es != [] {
      var x, t := es[0], es[1..];
      assert IdsOf(a, t) == IdsOf(a, es)[1..];
      FilterDistinctIds(a, t, p);
      if p(x) {
        assert a.selectId(x) !in IdSet(a, t) by {
          forall j | 0 <= j < |t| ensures a.selectId(t[j]) != a.selectId(x) {
            assert IdsOf(a, es)[j + 1] == a.selectId(t[j]) && IdsOf(a, es)[0] == a.selectId(x);
          }
        }
        FilterIdSet(a, t, p);
        ConsDistinctIds(a, x, Filter(t, p));
        assert Filter(es, p) == [x] + Filter(t, p);
      } else {
        assert Filter(es, p) == [] + Filter(t, p) == Filter(t, p);
      }
    }
  }

  /** An entity whose id is new to a list with distinct ids keeps them distinct when put in front. */
  lemma ConsDistinctIds<Id, E(!new), P(!new)>(a: Adapter<Id, E, P>, x: E, rest: seq<E>)
    requires Distinct(IdsOf(a, rest)) && a.selectId(x) !in IdSet(a, rest)
    ensures Distinct(IdsOf(a, [x] + rest))
  {
    var ids := IdsOf(a, [x] + rest);
    forall i, j | 0 <= i < j < |ids| ensures ids[i] != ids[j] {
      assert ids[j] == IdsOf(a, rest)[j - 1] && ([x] + rest)[j] == rest[j - 1];
      if i > 0 {
        assert ids[i] == IdsOf(a, rest)[i - 1];
      }
    }
  }

  /** With distinct ids, `upsertMany` appends the new ids in list order and keeps the old ones in place. */
  lemma UpsertManyAppendsIds<Id, E(!new), P(!new)>(a: Adapter<Id, E, P>, c: EntityState<Id, E>, es: seq<E>)
    requires Valid(a, c)
    requires Distinct(IdsOf(a, es))
    ensures UpsertMany(a, c, es).ids == c.ids + IdsOf(a, Filter(es, IsNew(a, c)))
  {
    var g := Filter(es, IsNew(a, c));
    FilterDistinctIds(a, es, IsNew(a, c));
    forall i | 0 <= i < |g| ensures a.selectId(g[i]) !in c.entities {
      assert IsNew(a, c)(g[i]);
    }
    AddManyAppendsIds(a, ReplaceMany(a, c, Filter(es, IsExisting(a, c))), g);
  }

  /** Filtering a list can only lose ids. */
  lemma FilterIdSet<Id, E(!new), P(!new)>(a: Adapter<Id, E, P>, es: seq<E>, p: E -> bool)
    ensures IdSet(a, Filter(es, p)) <= IdSet(a, es)
  {
    var f := Filter(es, p);
    forall k | k in IdSet(a, f) ensures k in IdSet(a, es) {
      var i :| 0 <= i < |f| && a.selectId(f[i]) == k;
      assert f[i] in es;
    }
  }

  /** Every id of a list is either already present or the id of an entity picked as new. */
  lemma NewIdsAreAdded<Id, E(!new), P(!new)>(a: Adapter<Id, E, P>, keys: set<Id>, es: seq<E>, isNew: E -> bool)
    requires forall i :: 0 <= i < |es| ==> (isNew(es[i]) <==> a.selectId(es[i]) !in keys)
    ensures IdSet(a, es) <= keys + IdSet(a, Filter(es, isNew))
  {
    var added := Filter(es, isNew);
    forall k | k in IdSet(a, es) ensures k in keys + IdSet(a, added) {
      var i :| 0 <= i < |es| && a.selectId(es[i]) == k;
      if k !in keys {
        assert es[i] in added;
        var j :| 0 <= j < |added| && added[j] == es[i];
      }
    }
  }

  /** `upsertOne`: afterwards the entity is filed under its id; an existing one is replaced in place. */
  function UpsertOne<Id, E(!new), P(!new)>(a: Adapter<Id, E, P>, c: EntityState<Id, E>, e: E): (r: EntityState<Id, E>)
    requires Valid(a, c)
    ensures Valid(a, r)
    ensures r.entities.Keys == c.entities.Keys + {a.selectId(e)}
    ensures r.entities[a.selectId(e)] == e
    ensures forall k :: k in c.entities && k != a.selectId(e) ==> r.entities[k] == c.entities[k]
    ensures a.selectId(e) in c.entities ==> r.ids == c.ids
    ensures a.selectId(e) !in c.entities ==> r.ids == c.ids + [a.selectId(e)]
  {
    var id := a.selectId(e);
    assert IdSet(a, [e]) == {id} by {
      assert [] + [e] == [e];
      IdSetSnoc(a, [], e);
    }
    assert [e][..0] == [];
    if id in c.entities then
      assert Filter([e], IsExisting(a, c)) == [e];
      assert Filter([e], IsNew(a, c)) == [];
      UpsertMany(a, c, [e])
    else
      assert Filter([e], IsExisting(a, c)) == [];
      assert Filter([e], IsNew(a, c)) == [e];
      assert AddMany(a, c, [e]) == AddOne(a, c, e);
      UpsertMany(a, c, [e])
  }

  // ---------------------------------------------------------------------
  // Selectors

  lemma {:induction false} DistinctCard<X>(s: seq<X>)
    requires Distinct(s)
    ensures |set x | x in s| == |s|
  {
    if s != [] {
      assert Distinct(s[1..]);
      DistinctCard(s[1..]);
      assert (set x | x in s) == (set x | x in s[1..]) + {s[0]};
      assert s[0] !in (set x | x in s[1..]);
    }
  }

  /** `selectTotal`: the number of ids, which is the number of entities. */
  function SelectTotal<Id, E(!new), P(!new)>(a: Adapter<Id, E, P>, c: EntityState<Id, E>): (r: nat)
    requires Valid(a, c)
    ensures r == |c.entities|
  {
    DistinctCard(c.ids);
    assert (set x | x in c.ids) == c.entities.Keys;
    |c.ids|
  }

  /** `selectAll`: the entities in id order, each carrying the id it is filed under. */
  function SelectAll<Id, E(!new), P(!new)>(a: Adapter<Id, E, P>, c: EntityState<Id, E>): (r: seq<E>)
    requires Valid(a, c)
    ensures |r| == |c.ids|
    ensures forall i :: 0 <= i < |r| ==> a.selectId(r[i]) == c.ids[i] && r[i] == c.entities[c.ids[i]]
  {
    seq(|c.ids|, i requires 0 <= i < |c.ids| => c.entities[c.ids[i]])
  }

  /** `selectById`: the entity filed under `id`, or nothing. */
  function SelectById<Id, E>(c: EntityState<Id, E>, id: Id): (r: Option<E>)
    ensures r.Some? <==> id in c.entities
    ensures r.Some? ==> r.value == c.entities[id]
  {
    if id in c.entities then Some(c.entities[id]) else None
  }
}
