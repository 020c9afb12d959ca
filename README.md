# CapacityCraft core, modelled in Dafny

CapacityCraft plans the capacity of a sprint. A room has an id, a start date
and a list of calendar days. Each member of the room has their own copy of
those days, and a day is a working day or a non-working day. The app's state
is kept in Redux slices. Two adapters sit behind the slices:

- a two-generation undo adapter (`{ current, previous }`, with `update`,
  `commit`, `rollback` and a `value` selector);
- an undoable variant of the normalized entity collection, which runs every
  collection mutation on `current`.

Around them are small pure helpers:

- day generation;
- the day-type toggles and their capacity ratios;
- the sprint-summary counts;
- the earliest start date;
- `zip`;
- date-input formatting;
- the attempt-count toast table;
- id generation.

This project models those pieces and proves what they promise.

- The reducers assign fields of a draft in place. Each slice is a Dafny
  `class` whose methods carry `modifies` clauses and state the whole new state.
- The normalized collection is modelled explicitly in `entity_collection.dfy`:
  `ids` (a sequence) and `entities` (a map), kept one-to-one by the predicate
  `EntityCollection.Valid`. Every operation preserves `Valid`.
- The undo adapter's mutable draft is the class `UndoableAdapter.UndoableState`.
  Its value `Undoable` has functions for each operation, so that sequences of
  operations (commit, updates, rollback) can be stated as lemmas.
- Dates are ordinal day numbers (`Calendar.Date = int`). "start plus k days"
  is integer addition, and date order is integer order.
- A day is `{ date, isNonWorkingDay }` for the room, the members, the day
  generator and the summary. That agrees with `src/util/dayGenerator.ts:7` and
  `src/store/roomSlice.ts:56`. `src/types/Day.ts:10-13` declares a `dayType`
  field instead. The `DayType` enum and its toggles are modelled on their own,
  in `day_type.dfy`.
- A reducer that reads a day or a member that is not there raises a
  `TypeError` in JavaScript, and the state stays as it was. The matching
  Dafny method returns `ok == false` and changes nothing.
- Today's date, `Math.random()` and the payloads of the remote actions are
  parameters.

The members slice imports `setDaysLength`, `syncDown` and `roomSelector` from
the room slice (`src/store/membersSlice.ts:9-15`). The room slice in this
repository does not define them; `syncDown` is an async thunk defined in
`src/store/dataThunkActions.ts:8`. The members slice also handles
`setStartDate.fulfilled` (`src/store/membersSlice.ts:82`), but the room
slice's `setStartDate` (`src/store/roomSlice.ts:46-50`) is a plain reducer
action, which has no `fulfilled` case. The model takes the payloads of these
actions as the reducer arguments `newLength`/`startDate` and `room`.

## Model

| member | source | states |
|---|---|---|
| UndoableAdapter.UndoableState.constructor | src/store/utils/createUndoableAdapter.ts:29-32 | the initial state holds the seed as `current` and has no `previous` |
| UndoableAdapter.Updated | src/store/utils/createUndoableAdapter.ts:33-38 | fields named in the patch take its values; every other field of `current` keeps its value; `previous` is unchanged |
| UndoableAdapter.Update | src/store/utils/createUndoableAdapter.ts:33-38 | the draft's new value is the shallow merge `Updated` of its old value |
| UndoableAdapter.Commit | src/store/utils/createUndoableAdapter.ts:39-41 | `previous` becomes the old `current`; `current` is unchanged |
| UndoableAdapter.Rollback | src/store/utils/createUndoableAdapter.ts:42-45 | with no snapshot `current` keeps its value; with one, `current` becomes the snapshot; `previous` is never changed |
| UndoableAdapter.InitialState | src/store/utils/createUndoableAdapter.ts:29-32 | the value form of `getInitialState`: the seed as `current`, no `previous` (stated by `InitialStateHasNoSnapshot`) |
| UndoableAdapter.Committed | src/store/utils/createUndoableAdapter.ts:39-41 | the value form of `commit` (stated by `CommitIdempotent`, `RollbackRestoresSnapshot` and `CommitUpdatesRollbackRestores`) |
| UndoableAdapter.RolledBack | src/store/utils/createUndoableAdapter.ts:42-45 | the value form of `rollback` (stated by `RollbackWithoutSnapshot` and `RollbackRestoresSnapshot`) |
| UndoableAdapter.UpdatedAll | src/store/utils/createUndoableAdapter.ts:33-38 | a series of `update` calls in order (stated by `UpdatesKeepSnapshot` and `CommitUpdatesRollbackRestores`) |
| UndoableAdapter.Value | src/store/utils/createUndoableAdapter.ts:46-48 | the `value` selector reads `current` |
| UndoableAdapter.ValueOf | src/store/utils/createUndoableAdapter.ts:46-48 | the value form of the `value` selector (stated by `ValueIgnoresSnapshot`) |
| UndoableAdapter.InitialStateHasNoSnapshot | src/store/utils/createUndoableAdapter.ts:29-32 | the initial state has the seed and no snapshot, and rolling it back changes nothing |
| UndoableAdapter.CommitIdempotent | src/store/utils/createUndoableAdapter.ts:39-41 | committing twice equals committing once and keeps `current` |
| UndoableAdapter.RollbackWithoutSnapshot | src/store/utils/createUndoableAdapter.ts:42-43 | with no snapshot a rollback is a no-op, so a speculative update stands |
| UndoableAdapter.RollbackRestoresSnapshot | src/store/utils/createUndoableAdapter.ts:44 | with a snapshot a rollback restores it and keeps it |
| UndoableAdapter.UpdatesKeepSnapshot | src/store/utils/createUndoableAdapter.ts:33-38 | any series of updates leaves `previous` unchanged |
| UndoableAdapter.CommitUpdatesRollbackRestores | src/store/utils/createUndoableAdapter.ts:33-45 | after a commit, any series of updates followed by a rollback restores exactly the committed state |
| UndoableAdapter.UpdateCommitRollbackKeeps | src/store/utils/createUndoableAdapter.ts:33-45 | update, commit, rollback leaves the updated value in `current` |
| UndoableAdapter.ValueIgnoresSnapshot | src/store/utils/createUndoableAdapter.ts:46-48 | two states with the same `current` select the same value, whatever their `previous` |
| EntityCollection.InitialValid | src/store/utils/createUndoableEntityAdapter.ts:16-19 | the empty collection satisfies the one-to-one invariant |
| EntityCollection.Initial | src/store/utils/createUndoableEntityAdapter.ts:16-19 | `getInitialState()`: no ids and no entities (stated by `InitialValid`) |
| EntityCollection.IdSetSnoc | src/store/utils/createUndoableEntityAdapter.ts:27-29 | the ids of a list extended by one entity are the old ids plus that entity's id |
| EntityCollection.AddOne | src/store/utils/createUndoableEntityAdapter.ts:24-26 | an entity with a new id is appended to the ids and filed under its id; an id already present leaves the collection as it was; the invariant is kept |
| EntityCollection.AddMany | src/store/utils/createUndoableEntityAdapter.ts:27-29 | the old ids are a prefix of the new ones; the keys become the old keys plus the list's ids; old entities are untouched; the invariant is kept |
| EntityCollection.AddManySnoc | src/store/utils/createUndoableEntityAdapter.ts:27-29 | adding a list extended by one entity is adding the list, then adding that entity |
| EntityCollection.AddedLastIsFiled | src/store/utils/createUndoableEntityAdapter.ts:27-29 | a last entity whose id is new to the collection and to the entities before it is filed under its id |
| EntityCollection.AddedKeepsFiled | src/store/utils/createUndoableEntityAdapter.ts:27-29 | adding one more entity keeps every entity already filed as it was |
| EntityCollection.AddManyFirstWins | src/store/utils/createUndoableEntityAdapter.ts:27-29 | of several new entities with one id, the first is the one filed |
| EntityCollection.AddManyAppendsIds | src/store/utils/createUndoableEntityAdapter.ts:27-29 | entities with distinct new ids are appended to the ids in list order |
| EntityCollection.AddManyAppendsNewIds | src/store/utils/createUndoableEntityAdapter.ts:27-29 | with distinct ids in the list, the ids become the old ids followed by the ids of the listed entities that were new, in list order |
| EntityCollection.OldLastIsSkipped | src/store/utils/createUndoableEntityAdapter.ts:27-29 | a last entity whose id is already present adds no id |
| EntityCollection.NewLastIsAppended | src/store/utils/createUndoableEntityAdapter.ts:27-29 | a last entity whose id is new appends that id after the others |
| EntityCollection.LastIdIsNew | src/store/utils/createUndoableEntityAdapter.ts:27-29 | in a list of distinct ids the last id is not among the earlier ones, and those are distinct |
| EntityCollection.IdsOfSnoc | src/store/utils/createUndoableEntityAdapter.ts:27-29 | the id list of a list extended by one entity is the old id list followed by that id |
| EntityCollection.SetAll | src/store/utils/createUndoableEntityAdapter.ts:30-32 | the keys are exactly the ids of the list and each entity comes from the list; the invariant is kept |
| EntityCollection.FirstIndexOf | src/store/utils/createUndoableEntityAdapter.ts:30-32 | an id of a list has a first position in it |
| EntityCollection.SetAllDistinct | src/store/utils/createUndoableEntityAdapter.ts:30-32 | with distinct ids, the ids become exactly the list's ids in order and each id maps to its element |
| EntityCollection.Without | src/store/utils/createUndoableEntityAdapter.ts:36-38 | `ids.filter`: the kept ids are exactly the ids not being removed, and distinct ids stay distinct |
| EntityCollection.WithoutAppend | src/store/utils/createUndoableEntityAdapter.ts:36-38 | filtering a concatenation filters each part, so the filter works element by element and keeps the list's order |
| EntityCollection.WithoutSingle | src/store/utils/createUndoableEntityAdapter.ts:36-38 | a single id is dropped exactly when it is one of the removed ids |
| EntityCollection.Shift | src/store/utils/createUndoableEntityAdapter.ts:36-38 | every position moved one further on |
| EntityCollection.WithoutKeepsOrder | src/store/utils/createUndoableEntityAdapter.ts:36-38 | the kept ids sit at strictly increasing positions of the original list: they are its subsequence, in its order |
| EntityCollection.ShiftStep | src/store/utils/createUndoableEntityAdapter.ts:36-38 | positions in the tail of a list, moved one on, are positions in the whole list |
| EntityCollection.ConsStep | src/store/utils/createUndoableEntityAdapter.ts:36-38 | a kept first id goes in front of the positions of the rest |
| EntityCollection.RemoveMany | src/store/utils/createUndoableEntityAdapter.ts:36-38 | exactly the given ids are deleted; the ids become the list filtered by `Without`; every other entity is unchanged; the invariant is kept |
| EntityCollection.RemoveManyKeepsOrder | src/store/utils/createUndoableEntityAdapter.ts:36-38 | the ids that survive keep their relative order in the id list |
| EntityCollection.RemoveOne | src/store/utils/createUndoableEntityAdapter.ts:33-35 | exactly that id is deleted; the ids become the list filtered by `Without` of that one id, so the rest keep their order; every other entity is unchanged; the invariant is kept |
| EntityCollection.RemoveAll | src/store/utils/createUndoableEntityAdapter.ts:39-41 | no ids and no entities remain |
| EntityCollection.UpdateOne | src/store/utils/createUndoableEntityAdapter.ts:42-47 | the changes are merged into the entity with that id and nothing else changes; an unknown id changes nothing |
| EntityCollection.UpdateMany | src/store/utils/createUndoableEntityAdapter.ts:48-53 | the ids and keys are unchanged; an entity no update names is unchanged; the invariant is kept |
| EntityCollection.LastChange | src/store/utils/createUndoableEntityAdapter.ts:48-53 | gives the changes of the last update naming an id, or nothing when no update names it |
| EntityCollection.LastIndex | src/store/utils/createUndoableEntityAdapter.ts:48-53 | the position of the last update naming an id, or -1 when none names it |
| EntityCollection.LastChangeUniform | src/store/utils/createUndoableEntityAdapter.ts:48-53 | when every update naming an id carries the same changes, those are its last changes |
| EntityCollection.UpdateManyLastWins | src/store/utils/createUndoableEntityAdapter.ts:48-53 | with superseding patches, each entity is its old value merged with its last change, or unchanged when none names it |
| EntityCollection.Filter | src/store/utils/createUndoableEntityAdapter.ts:57-62 | the result holds exactly the elements that satisfy the predicate |
| EntityCollection.FilterIdSet | src/store/utils/createUndoableEntityAdapter.ts:57-62 | the ids of a filtered list are among the ids of the list |
| EntityCollection.NewIdsAreAdded | src/store/utils/createUndoableEntityAdapter.ts:57-62 | the ids of a list are the existing keys plus the ids of its entities that are not yet present |
| EntityCollection.Replace | src/store/utils/createUndoableEntityAdapter.ts:54-56 | an entity with a present id takes that id's place; ids, keys and other entities are unchanged |
| EntityCollection.ReplaceMany | src/store/utils/createUndoableEntityAdapter.ts:57-62 | ids and keys are unchanged, and entities not in the list are unchanged; the listed values follow from `ReplaceManyLastWins` |
| EntityCollection.ReplaceManyLastWins | src/store/utils/createUndoableEntityAdapter.ts:57-62 | of several listed entities with one existing id, the last is the one filed |
| EntityCollection.UpsertMany | src/store/utils/createUndoableEntityAdapter.ts:57-62 | the old ids are a prefix of the new; the keys become the old keys plus the list's ids; entities not in the list are unchanged; the invariant is kept |
| EntityCollection.FilterAppend | src/store/utils/createUndoableEntityAdapter.ts:57-62 | splitting the list into existing and new entities works part by part and keeps the list's order |
| EntityCollection.FilterSingle | src/store/utils/createUndoableEntityAdapter.ts:57-62 | one entity lands in the part whose predicate it satisfies |
| EntityCollection.FilterAround | src/store/utils/createUndoableEntityAdapter.ts:57-62 | an entity picked for a part sits after the picked entities before it and before the picked entities after it |
| EntityCollection.SplitAt | src/store/utils/createUndoableEntityAdapter.ts:57-62 | the parts of a list on either side of one element |
| EntityCollection.LaterIdDiffers | src/store/utils/createUndoableEntityAdapter.ts:57-62 | an entity after the last one with an id carries another id |
| EntityCollection.EarlierIdDiffers | src/store/utils/createUndoableEntityAdapter.ts:57-62 | an entity before the first one with an id carries another id |
| EntityCollection.UpsertManyExisting | src/store/utils/createUndoableEntityAdapter.ts:57-62 | an id already in the collection takes the last entity listed with it |
| EntityCollection.UpsertManyNew | src/store/utils/createUndoableEntityAdapter.ts:57-62 | an id new to the collection takes the first entity listed with it |
| EntityCollection.FilterDistinctIds | src/store/utils/createUndoableEntityAdapter.ts:57-62 | picking some entities of a list with distinct ids keeps the ids distinct |
| EntityCollection.ConsDistinctIds | src/store/utils/createUndoableEntityAdapter.ts:57-62 | an entity with an id new to a list of distinct ids keeps them distinct when put in front |
| EntityCollection.UpsertManyAppendsIds | src/store/utils/createUndoableEntityAdapter.ts:57-62 | with distinct ids, the old ids stay in place and the new entities' ids are appended in list order |
| EntityCollection.UpsertOne | src/store/utils/createUndoableEntityAdapter.ts:54-56 | the entity is filed under its id; an existing one is replaced in place with the ids unchanged, a new one is appended |
| EntityCollection.DistinctCard | src/store/utils/createUndoableEntityAdapter.ts:75-76 | a list of distinct ids has as many elements as its set of ids |
| EntityCollection.SelectTotal | src/store/utils/createUndoableEntityAdapter.ts:75-76 | the number of ids equals the number of entities |
| EntityCollection.SelectAll | src/store/utils/createUndoableEntityAdapter.ts:73-74 | the entities in id order, each carrying the id it is filed under |
| EntityCollection.SelectById | src/store/utils/createUndoableEntityAdapter.ts:77-78 | the entity filed under the id exactly when there is one |
| UndoableEntityAdapter.GetInitialState | src/store/utils/createUndoableEntityAdapter.ts:16-19 | an empty, valid collection as `current` and no `previous` |
| UndoableEntityAdapter.CommitRollbackKeepValid | src/store/utils/createUndoableEntityAdapter.ts:21-23 | the inherited commit and rollback keep both generations valid collections |
| UndoableEntityAdapter.AddOne | src/store/utils/createUndoableEntityAdapter.ts:24-26 | `current` becomes `addOne` of it; `previous` is untouched |
| UndoableEntityAdapter.AddMany | src/store/utils/createUndoableEntityAdapter.ts:27-29 | `current` becomes `addMany` of it; `previous` is untouched |
| UndoableEntityAdapter.SetAll | src/store/utils/createUndoableEntityAdapter.ts:30-32 | `current` becomes `setAll` of the list; `previous` is untouched |
| UndoableEntityAdapter.RemoveOne | src/store/utils/createUndoableEntityAdapter.ts:33-35 | `current` becomes `removeOne` of it; `previous` is untouched |
| UndoableEntityAdapter.RemoveMany | src/store/utils/createUndoableEntityAdapter.ts:36-38 | `current` becomes `removeMany` of it; `previous` is untouched |
| UndoableEntityAdapter.RemoveAll | src/store/utils/createUndoableEntityAdapter.ts:39-41 | `current` becomes empty; `previous` is untouched |
| UndoableEntityAdapter.UpdateOne | src/store/utils/createUndoableEntityAdapter.ts:42-47 | `current` becomes `updateOne` of it; `previous` is untouched |
| UndoableEntityAdapter.UpdateMany | src/store/utils/createUndoableEntityAdapter.ts:48-53 | `current` becomes `updateMany` of it; `previous` is untouched |
| UndoableEntityAdapter.UpsertOne | src/store/utils/createUndoableEntityAdapter.ts:54-56 | `current` becomes `upsertOne` of it; `previous` is untouched |
| UndoableEntityAdapter.UpsertMany | src/store/utils/createUndoableEntityAdapter.ts:57-62 | `current` becomes `upsertMany` of it; `previous` is untouched |
| UndoableEntityAdapter.SelectIds | src/store/utils/createUndoableEntityAdapter.ts:69-70 | the ids of `current`; `previous` plays no part |
| UndoableEntityAdapter.SelectEntities | src/store/utils/createUndoableEntityAdapter.ts:71-72 | the entity map of `current`; `previous` plays no part |
| UndoableEntityAdapter.SelectAll | src/store/utils/createUndoableEntityAdapter.ts:73-74 | the entities of `current` in id order |
| UndoableEntityAdapter.SelectTotal | src/store/utils/createUndoableEntityAdapter.ts:75-76 | the number of entities in `current` |
| UndoableEntityAdapter.SelectById | src/store/utils/createUndoableEntityAdapter.ts:77-78 | the entity of `current` filed under the id exactly when there is one |
| Calendar.Flip | src/store/roomSlice.ts:54-57 | the date is kept and the non-working flag is negated |
| Calendar.FlipAt | src/store/membersSlice.ts:57-61 | the length and every other index are kept and the flag at the index is flipped; an index outside the days changes nothing |
| Calendar.FlipAtInvolution | src/store/roomSlice.ts:51-58 | toggling the same index twice restores the days |
| DayGenerator.SliceEnd | src/util/dayGenerator.ts:25 | the end index of `slice(0, end)`: clamped to the length, and counted back from the end when negative |
| DayGenerator.GenerateDay | src/util/dayGenerator.ts:4-8 | the day `offset` days after the start date, as a working day (its properties are stated by `GenerateDaysFromEmpty`) |
| DayGenerator.GenerateDays | src/util/dayGenerator.ts:10-26 | the length is `newLength` when it is non-negative; the current days are kept as a prefix; a new position `i` holds `generateDay(start, i)`; a non-extending length gives the prefix |
| DayGenerator.GenerateDaysFromEmpty | src/util/dayGenerator.ts:4-8 | from no days, position `i` is the working day `start + i` |
| DayGenerator.GenerateDaysZero | src/util/dayGenerator.ts:24-25 | length zero gives no days |
| DayGenerator.GenerateDaysIdempotent | src/util/dayGenerator.ts:10-26 | generating twice at one non-negative length equals generating once |
| DayGenerator.GenerateDaysThenShorter | src/util/dayGenerator.ts:10-26 | extending and then cutting to a shorter length equals generating that length directly |
| DayGenerator.ExtendThenTrimRestores | src/util/dayGenerator.ts:10-26 | extending and cutting back to the original length restores the days |
| DayGenerator.ShrinkThenGrowRegenerates | src/util/dayGenerator.ts:15-21 | days dropped by a shrink come back as fresh working days when grown again |
| DayType.DayTypeValueInjective | src/types/Day.ts:3-8 | the four `DayTypes` strings are pairwise different |
| DayType.ToggleGlobalDayType | src/types/Day.ts:15-24 | a full day becomes a holiday and back (both directions); a weekend and a half day are unchanged |
| DayType.ToggleMemberOffDayType | src/types/Day.ts:26-37 | a full day becomes a half day, which becomes a holiday, which becomes a full day; a weekend is unchanged |
| DayType.GlobalToggleInvolution | src/types/Day.ts:15-24 | the global toggle undoes itself |
| DayType.MemberToggleThreeCycle | src/types/Day.ts:26-37 | three member toggles give back any day type |
| DayType.TogglesPreserveWeekend | src/types/Day.ts:15-37 | neither toggle turns a day into a weekend or a weekend into anything else |
| DayTypeRatio.DayTypeToRatio | src/util/dayTypeToRatio.ts:3-15 | the ratio is in [0, 1]; it is 1 exactly for a full day, 0.5 exactly for a half day, and 0 exactly for a holiday or a weekend |
| StartDate.Earliest | src/util/getStartDate.ts:3-5 | the earliest date of a non-empty list: the date of some day, and at most every date |
| StartDate.GetStartDate | src/util/getStartDate.ts:3-5 | nothing exactly for an empty list; otherwise the date of some day that is at most every date |
| StartDate.GetStartDateSingle | src/util/getStartDate.ts:3-5 | a single day's date is the start date |
| StartDate.GetStartDateOrderFree | src/util/getStartDate.ts:4 | two lists with the same days in any order have the same start date |
| RoomSlice.SortByDate | src/store/roomSlice.ts:63-65 | the array ends up sorted by date and is a permutation of what it held |
| RoomSlice.InsertIntoSorted | src/store/roomSlice.ts:63-65 | one insertion step: the sorted prefix grows by one and the contents are permuted |
| RoomSlice.Swap | src/store/roomSlice.ts:63-65 | exchanges two entries, leaves the rest and permutes the contents |
| RoomSlice.SortedFirstIsStartDate | src/store/roomSlice.ts:63-65 | the first day of a date-sorted permutation carries the earliest date |
| RoomSlice.RoomState.constructor | src/store/roomSlice.ts:22-26 | no room id, today as the start date, and nine generated days |
| RoomSlice.RoomState.SetRoomId | src/store/roomSlice.ts:32-34 | sets the id and changes nothing else |
| RoomSlice.RoomState.ClearRoom | src/store/roomSlice.ts:35-39 | back to no id, today and nine generated days |
| RoomSlice.RoomState.SetLength | src/store/roomSlice.ts:40-45 | a non-positive length changes nothing; a positive one regenerates the days to exactly that length; id and start date are kept |
| RoomSlice.RoomState.SetStartDate | src/store/roomSlice.ts:46-50 | the days become `getUpdatedDays` of the old days, the start date is set, and the id is kept |
| RoomSlice.RoomState.ToggleGlobalNonWorkingDay | src/store/roomSlice.ts:51-58 | succeeds exactly for an index inside the days; the days become `FlipAt` of the old days; id and start date are kept |
| RoomSlice.RoomState.FetchRoomAndSetFulfilled | src/store/roomSlice.ts:61-70 | the payload array is sorted in place; it succeeds exactly when the room has days, and then takes the room's id, its sorted days and their earliest date; otherwise nothing changes |
| MembersSlice.MemberAdapterMerges | src/store/membersSlice.ts:40-42 | merging `{ days }` keeps a member's id, and a later merge supersedes an earlier one |
| MembersSlice.SelectId | src/store/membersSlice.ts:40-42 | the member adapter's `selectId`: a member's `id` (stated by `MemberAdapterMerges`) |
| MembersSlice.MergeChanges | src/store/membersSlice.ts:40-42 | the adapter's merge of changes `{ days }`: the member with those days (stated by `MemberAdapterMerges`) |
| MembersSlice.EachMember | src/store/membersSlice.ts:72-80 | one update per member id, in id order, carrying `f` of that member's days (stated by `UpdateEachMember`) |
| MembersSlice.PayloadChanges | src/store/membersSlice.ts:84-92 | one update per payload member, carrying that member's days (stated by `PayloadChangesDistinct`) |
| MembersSlice.UpdateEachMember | src/store/membersSlice.ts:72-80 | a fan-out update gives each member its new days and changes nothing else |
| MembersSlice.PayloadChangesDistinct | src/store/membersSlice.ts:84-92 | with distinct payload ids each named member's last change is the payload's days for it |
| MembersSlice.MembersState.constructor | src/store/membersSlice.ts:46 | no members, and the collection is valid |
| MembersSlice.MembersState.ToggleMemberNonWorkingDay | src/store/membersSlice.ts:48-64 | succeeds exactly for a known member, whose days become `FlipAt`; every other member, the ids and the keys are unchanged |
| MembersSlice.MembersState.ClearMember | src/store/membersSlice.ts:65 | the collection becomes empty |
| MembersSlice.MembersState.SetDaysLength | src/store/membersSlice.ts:69-81 | every member's days become `generateDays(startDate, days, newLength)`; ids, keys and other fields are kept |
| MembersSlice.MembersState.SetStartDateFulfilled | src/store/membersSlice.ts:82-93 | a member named in the payload takes the days of its last entry, any other member is unchanged, and the ids and keys are kept |
| MembersSlice.MembersState.ToggleGlobalNonWorkingDay | src/store/membersSlice.ts:94-112 | every member's days become `FlipAt` at that index; ids, keys and other fields are kept |
| MembersSlice.MembersState.AddMemberFulfilled | src/store/membersSlice.ts:113-116 | the member's id is present afterwards; a new member is appended and stored as given; the collection stays valid with unique ids |
| MembersSlice.MembersState.SyncDownFulfilled | src/store/membersSlice.ts:117-120 | the collection is `setAll` of the room's members; with distinct ids it holds exactly those members in order |
| MembersSlice.SetAllMembers | src/store/membersSlice.ts:117-120 | `setAll` of members with distinct ids holds exactly those members, in order, each under its id |
| SprintSlice.Padding | src/store/sprintSlice.ts:32-34 | `count` copies of `{ isHoliday: 'false' }` |
| SprintSlice.SprintState.constructor | src/store/sprintSlice.ts:13-16 | today as the start date and no days |
| SprintSlice.SprintState.SetLength | src/store/sprintSlice.ts:22-37 | a non-positive length changes nothing; otherwise the length is exactly `n`, a shorter `n` keeps the first `n` days, and a longer one keeps the days and pads |
| SprintSlice.SprintState.SetStartDate | src/store/sprintSlice.ts:38-40 | sets the start date and keeps the days |
| SprintSlice.Resized | src/store/sprintSlice.ts:22-37 | the days after `setLength` as a value: the prefix kept and padding after it |
| SprintSlice.ResizedIdempotent | src/store/sprintSlice.ts:22-37 | setting one length twice equals setting it once |
| SprintSlice.GrowThenShrinkRestores | src/store/sprintSlice.ts:28-35 | padding and then cutting back to the original length restores the days |
| SprintSummary.WorkingDays | src/store/selectors/selectSprintSummary.ts:11 | the working days of a list are at most its length |
| SprintSummary.NonWorkingDays | src/store/selectors/selectSprintSummary.ts:18 | the non-working days of a list are at most its length |
| SprintSummary.AddWorkingDays | src/store/selectors/selectSprintSummary.ts:9-12 | the `reduce` over the members, adding each member's working days to the running total (stated by `AddWorkingDaysIsSum`) |
| SprintSummary.WorkingAndNonWorkingPartition | src/store/selectors/selectSprintSummary.ts:11-18 | working and non-working days add up to all the days |
| SprintSummary.AddWorkingDaysIsSum | src/store/selectors/selectSprintSummary.ts:9-13 | the `reduce` from an accumulator adds the per-member working days to it |
| SprintSummary.SumWorkingDaysBound | src/store/selectors/selectSprintSummary.ts:9-13 | the working days of all members are at most their days |
| SprintSummary.SelectTotalWorkingDays | src/store/selectors/selectSprintSummary.ts:6-14 | the sum over members of their working days, between 0 and the total number of days, and 0 with no members |
| SprintSummary.SelectHolidays | src/store/selectors/selectSprintSummary.ts:16-19 | the room's non-working days: at most the number of days, and all days minus the working ones |
| StatusSlice.StatusState.constructor | src/store/statusSlice.ts:8-10 | the initial status is idle |
| StatusSlice.StatusState.SetLoading | src/store/statusSlice.ts:16-18 | the status becomes loading whatever it was, so the reducer is idempotent |
| StatusSlice.StatusState.SetFinishLoading | src/store/statusSlice.ts:19-21 | the status becomes idle whatever it was, so the reducer is idempotent |
| UserSlice.UserState.constructor | src/store/userSlice.ts:8-11 | no display name and no id |
| UserSlice.UserState.SetDisplayName | src/store/userSlice.ts:17-19 | sets the display name and keeps the id |
| UserSlice.UserState.ClearDisplayName | src/store/userSlice.ts:20-22 | clears the display name and keeps the id |
| Zip.At | src/util/zip.ts:1 | `bs[i]`: present exactly for an index inside `bs`, and then that element |
| Zip.Zip | src/util/zip.ts:1 | as long as the first array; first components are its elements; the second component is `bs[i]` inside `bs` and missing past its end |
| Zip.ZipFirsts | src/util/zip.ts:1 | projecting the first components gives back the first array |
| Zip.ZipEmpty | src/util/zip.ts:1 | zipping an empty array gives an empty result |
| NumberText.DigitChar | src/util/formatDateInput.ts:3-4 | a digit's character is a digit and reads back as that digit |
| NumberText.NatToString | src/util/formatDateInput.ts:3-4 | `String(n)` is a non-empty run of digits without a leading zero |
| NumberText.IntToString | src/util/attemptRoaster.ts:28-30 | `String(n)`: a minus sign exactly for a negative number, followed by digits that read back as its magnitude |
| FormatDateInput.PadStart2 | src/util/formatDateInput.ts:3-4 | `padStart(2, '0')`: a text of two or more characters is kept; a shorter one ends the padded text and is preceded by zeros up to length two |
| FormatDateInput.FormatDate | src/util/formatDateInput.ts:1-9 | the year, the one-based month and the day joined by `-`, month and day padded to two digits (its properties are stated by `FormatDateFields` and `FormatDateExamples`) |
| NumberText.DigitValue | src/util/formatDateInput.ts:3-4 | a digit character's value is a digit whose character it is |
| NumberText.NatToStringRoundTrip | src/util/formatDateInput.ts:3-4 | reading back the digits of `String(n)` gives `n` |
| NumberText.LeadingZeroValue | src/util/formatDateInput.ts:3-4 | a leading zero added by the padding does not change a field's value |
| NumberText.NatToStringLength | src/util/formatDateInput.ts:2-4 | one, two and four digit numbers print as one, two and four characters |
| FormatDateInput.PaddedField | src/util/formatDateInput.ts:3-4 | a padded one- or two-digit field is two digits that read back as the number |
| FormatDateInput.JoinedFields | src/util/formatDateInput.ts:6 | joining three fields with `-` places each field at its offset |
| FormatDateInput.FormatDateFields | src/util/formatDateInput.ts:1-7 | for a four-digit year, a month index 0-11 and a day 1-31 the text is ten characters with `-` at 4 and 7, and its fields read back as the year, the month index plus one and the day |
| FormatDateInput.FormatDateExamples | src/util/formatDateInput.test.ts:5-13 | 2024, month index 0, day 5 gives `2024-01-05`; month index 4, day 7 gives `2024-05-07` |
| AttemptRoaster.AttemptRoaster | src/util/attemptRoaster.ts:26-30 | above 35 the impressed message; at most 35 the table entry when there is one, otherwise the running-out message |
| AttemptRoaster.AttemptPrefix | src/util/attemptRoaster.ts:28-30 | the `Attempt #${count}` template: the fixed text followed by `String(count)` (stated through `NumberText.IntToString`) |
| AttemptRoaster.MappedCounts | src/util/attemptRoaster.ts:1-24 | the table's keys are exactly 0 to 15, 25, 26, 27, 30, 33 and 35 |
| AttemptRoaster.MappedCountsReachable | src/util/attemptRoaster.ts:26-30 | every table key is between 0 and 35, so its entry is what the function returns |
| AttemptRoasterExamples.MappedExamples | src/util/attemptRoaster.test.ts:5-11 | counts 0, 5 and 25 give their table entries |
| AttemptRoasterExamples.CountTexts | src/util/attemptRoaster.ts:28-30 | the counts 16, 36 and 100 print as `16`, `36` and `100` |
| AttemptRoasterExamples.UnmappedExample | src/util/attemptRoaster.test.ts:13-17 | count 16 gives the running-out message |
| AttemptRoasterExamples.ImpressedExamples | src/util/attemptRoaster.test.ts:19-26 | counts 36 and 100 give the impressed message |
| GenId.CharsAreIdChars | src/util/genId.ts:2 | the character set has sixteen characters, each in `A`-`F` or `0`-`9`, all different |
| GenId.IndexIn | src/util/genId.ts:2-5 | the position of an id character in the character set |
| GenId.RandomChar | src/util/genId.ts:4-5 | a random value in [0, 1) draws a character of the set |
| GenId.GenId | src/util/genId.ts:1-12 | seven characters, a dash at index 3, and each other position the character drawn by its own random value, in order |
| GenId.Draw | src/util/genId.ts:4-5 | every id character is drawn by some random value in [0, 1) |
| GenId.Draws | src/util/genId.ts:7-9 | six random values that draw the given characters around the dash |
| GenId.GenIdReachesEveryShape | src/util/genId.test.ts:5-8 | every string matching `^[A-F0-9]{3}-[A-F0-9]{3}$` is the id of some six random values |

## Left out

- Firestore I/O, the async thunks and the `addMember` thunk body
  (`src/store/membersSlice.ts:24-38`): network calls. Only the reducers'
  `fulfilled` cases are modelled, with the payload as a parameter. The
  pending and rejected cases are not handled by these slices.
- JavaScript `Date`, time zones and locales. Dates are ordinal integers, so
  `generateDay` is integer addition, and the month and year rollover of
  `setDate` is not modelled. "Today" in `initialState` and `clearRoom` is a
  parameter. `formatDate` takes the year, the zero-based month and the day as
  integers.
- `getUpdatedDays`: `src/util/dayGenerator.ts` has no definition of it. It is
  a function parameter of `RoomSlice.RoomState.SetStartDate`, and nothing is
  proved about it.
- The room slice stores `startDate` as formatted text. The model stores the
  ordinal date that text denotes.
- The inherited `update` of the undoable entity adapter (a shallow merge into
  an entity collection) is not modelled. `UndoableAdapter.Update` models
  `update` for object-shaped states only.
- UndoableAdapter.Rollback: `if (!state.previous)` also treats a snapshot
  that is a falsy value (`0`, `''`, `false`, `null`) as missing. The model's
  snapshot is an optional value, which matches the object-shaped states this
  adapter holds.
- EntityCollection.UpdateOne and EntityCollection.UpdateMany: when a merge
  changes an entity's id, the collection library re-files the entity under its
  new id. These are modelled only for merges that keep the id
  (`EntityCollection.IdPreserving`), which holds for the members slice
  (`MembersSlice.MemberAdapterMerges`).
- EntityCollection.UpdateMany: the library first combines the changes per id
  and then merges once. For shallow merges that equals merging them in order,
  and in-order merging is how they are modelled.
- EntityCollection.UpsertManyAppendsIds: the order of the appended ids is
  stated for lists with distinct ids. With repeated new ids the ids are still
  appended once each, in order of first appearance, but the model does not
  state that order.
- EntityCollection.UpsertMany and EntityCollection.UpsertOne: the library
  merges an existing entity with the upserted one (`Object.assign`). They are
  modelled as a replacement, which is the same result when the upserted
  entity is complete, as the adapter's typed entities are.
- A `sortComparer` option: `createUndoableEntityAdapter` passes its
  options to `createEntityAdapter`, which with a comparator keeps `ids`
  sorted after every add, set, upsert and update. The model follows the
  unsorted adapter. The only adapter this repository creates, the members
  adapter at `src/store/membersSlice.ts:40-42`, passes only `selectId`.
- NumberText.IntToString: JavaScript numbers are doubles, and `String`
  prints one of magnitude 1e21 or more in exponent notation (`1e+21`). The
  model's numbers are unbounded integers printed digit by digit, so the
  exponent form, fractions and precision loss are not modelled.
- RoomSlice.SortByDate: its comparator never reports a tie, so the order among
  days with the same date is the engine's choice. The contract states sorted
  and permuted, and fixes no order among equal dates.
- RoomSlice.RoomState.FetchRoomAndSetFulfilled: `state.days = room.days`
  shares one array between the payload and the state. The model stores a copy
  of the sorted contents, so later aliasing effects are not modelled.
- SprintSlice.Padding: `fill` shares one pad object across all padded
  positions. The model uses equal values, so aliasing is not modelled.
- `zip`: the first array's length decides the result, as `src/util/zip.ts:1`
  does. The unequal-length test (`src/util/zip.test.ts:14-20`) expects
  truncation to the shorter array. That matches a different version of the
  code, and the model does not follow it.
- GenId.GenId: `Math.random()` is an oracle, namely the six values it returns,
  each in [0, 1), passed as a list.
- The zustand stores, the React components and pages, the Redux store setup
  and history middleware, the clipboard helper, `isWeekend` and the display
  date formatter: UI and library glue.
- The tests that target another version of the code: the day-type weekend
  expectation for `generateDay`, `selectCapacity` and
  `selectTotalWorkingManDays`.
- `selectTotalWorkingDays` and `selectHolidays` are memoized selectors. Only
  their result functions are modelled; the memoization is not.
