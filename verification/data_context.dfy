/** The timestamp rule of the `DataContext`: every save stamps the tracked entities
    before it persists them. Added entities get a creation time, added and modified ones
    an update time, and nothing else is touched. */
module DataContext {
  import opened Entities

  datatype EntityState = Detached | Unchanged | Deleted | Modified | Added

  /** A change-tracker entry: an entity's base columns and its tracked state. */
  datatype Entry = Entry(state: EntityState, entity: Base)

  /** `default(DateTime)`: the timestamp value of an entity that was never saved. */
  const NeverStamped: int := 0

  /** The body of the loop in `UpdateTimeStamps`, for one entry. */
  function StampEntity(state: EntityState, b: Base, now: int): (r: Base)
    ensures r.id == b.id
    ensures state == Added ==> r.createdAt == now && r.updatedAt == now
    ensures state == Modified ==> r.createdAt == b.createdAt && r.updatedAt == now
    ensures state != Added && state != Modified ==> r == b
  {
    if state == Added then b.(createdAt := now, updatedAt := now)
    else if state == Modified then b.(updatedAt := now)
    else b
  }

  /** The base columns of a row inserted with key `id` and saved at `now`. */
  function Inserted(id: int, now: int): (r: Base)
    ensures r == Base(id, now, now)
  {
    StampEntity(Added, Base(id, NeverStamped, NeverStamped), now)
  }

  /** The base columns of a row changed by an operation and saved at `now`. */
  function Touched(b: Base, now: int): (r: Base)
    ensures r.id == b.id && r.createdAt == b.createdAt && r.updatedAt == now
  {
    StampEntity(Modified, b, now)
  }

  /** `UpdateTimeStamps`: every entry keeps its state and identity; only added and
      modified entries change, as `StampEntity` says. */
  function UpdateTimeStamps(entries: seq<Entry>, now: int): (r: seq<Entry>)
    ensures |r| == |entries|
    ensures forall i :: 0 <= i < |r| ==> r[i].state == entries[i].state
    ensures forall i :: 0 <= i < |r| ==> r[i].entity.id == entries[i].entity.id
    ensures forall i :: 0 <= i < |r| && entries[i].state == Added ==>
      r[i].entity.createdAt == now && r[i].entity.updatedAt == now
    ensures forall i :: 0 <= i < |r| && entries[i].state == Modified ==>
      r[i].entity.createdAt == entries[i].entity.createdAt && r[i].entity.updatedAt == now
    ensures forall i :: 0 <= i < |r| && entries[i].state != Added && entries[i].state != Modified ==>
      r[i] == entries[i]
  {
    seq(|entries|, i requires 0 <= i < |entries| =>
      Entry(entries[i].state, StampEntity(entries[i].state, entries[i].entity, now)))
  }

  /** The tracked rows a save leaves in the database: added and modified ones are written,
      unchanged ones are kept as they are, and deleted ones are removed. A detached entity
      is not tracked, so the save neither writes nor removes its row. */
  predicate Persists(state: EntityState)
  {
    state == Added || state == Modified || state == Unchanged
  }

  /** `SaveChangesAsync`: stamp, then persist. The result lists the rows written or kept,
      in tracker order. */
  function SaveChanges(entries: seq<Entry>, now: int): (rows: seq<Base>)
    ensures |rows| <= |entries|
    ensures forall i :: 0 <= i < |entries| && Persists(entries[i].state) ==>
      StampEntity(entries[i].state, entries[i].entity, now) in rows
    ensures forall b :: b in rows ==>
      exists i :: 0 <= i < |entries| && Persists(entries[i].state)
                  && b == StampEntity(entries[i].state, entries[i].entity, now)
    decreases |entries|
  {
    if |entries| == 0 then []
    else
      var rest := SaveChanges(entries[1..], now);
      if Persists(entries[0].state)
      then [StampEntity(entries[0].state, entries[0].entity, now)] + rest
      else rest
  }

  /** Every save stamps before persisting: an added entity is written with its creation
      time set to the save time, a modified one keeps its creation time, and both carry the
      save time as their update time. */
  lemma {:induction false} SaveChangesStampsFirst(entries: seq<Entry>, now: int, i: nat)
    requires i < |entries|
    requires entries[i].state == Added || entries[i].state == Modified
    ensures exists b :: (b in SaveChanges(entries, now) && b.id == entries[i].entity.id && b.updatedAt == now
                         && b.createdAt == (if entries[i].state == Added then now else entries[i].entity.createdAt))
  {
    var b := StampEntity(entries[i].state, entries[i].entity, now);
    assert b in SaveChanges(entries, now);
  }
}
