/** The store in memory and the overlay of two of them, as objects. */
module DomainStorage {
  import opened Options
  import opened StorageHistory

  class RamDomainStorage {
    var state: Store

    constructor ()
      ensures state == map[]
    {
      state := map[];
    }

    /** What the writer does with its buffer when it is destroyed. */
    method SaveData(q: Query, data: Data)
      modifies this
      ensures state == Apply(old(state), Save(q, data))
    {
      if q.obj !in state || state[q.obj].None? {
        state := state[q.obj := Some(map[])];
      }
      var classes := state[q.obj].value;
      ghost var before := classes;
      if q.cls !in classes { classes := classes[q.cls := map[]]; }
      var versions := classes[q.cls];
      classes := classes[q.cls := versions[q.version := data]];
      assert classes == before[q.cls := versions[q.version := data]];
      state := state[q.obj := Some(classes)];
      assert state == old(state)[q.obj := Some(classes)];
    }

    method Load(q: Query) returns (r: LoadResult)
      ensures r == StorageHistory.Load(state, q)
    {
      if q.obj !in state { return Empty; }
      if state[q.obj].None? { return Removed; }
      var classes := state[q.obj].value;
      if q.cls !in classes { return Empty; }
      if q.version !in classes[q.cls] { return Empty; }
      return Loaded(classes[q.cls][q.version]);
    }

    method Remove(obj: nat)
      modifies this
      ensures state == Apply(old(state), Op.Remove(obj))
    {
      state := state[obj := None];
    }

    method CleanUp()
      modifies this
      ensures state == Apply(old(state), Op.CleanUp)
    {
      state := map[];
    }
  }

  class SyncDomainStorage {
    const readOnly: RamDomainStorage
    const readWrite: RamDomainStorage
    ghost var history: seq<Op>
    ghost const original: Store

    ghost predicate Valid()
      reads this, readOnly, readWrite
    {
      readOnly != readWrite && readWrite.state == ApplyAll(history) && readOnly.state == original
    }

    /** The writable store may come with a history of its own. */
    constructor (readOnly: RamDomainStorage, readWrite: RamDomainStorage, ghost past: seq<Op>)
      requires readOnly != readWrite && readWrite.state == ApplyAll(past)
      ensures Valid() && history == past && original == readOnly.state
      ensures this.readOnly == readOnly && this.readWrite == readWrite
    {
      this.readOnly, this.readWrite, history, original := readOnly, readWrite, past, readOnly.state;
    }

    method Store(q: Query, data: Data)
      requires Valid()
      modifies this, readWrite
      ensures Valid() && history == old(history) + [Save(q, data)]
    {
      readWrite.SaveData(q, data);
      history := history + [Save(q, data)];
    }

    method Remove(obj: nat)
      requires Valid()
      modifies this, readWrite
      ensures Valid() && history == old(history) + [Op.Remove(obj)]
    {
      readWrite.Remove(obj);
      history := history + [Op.Remove(obj)];
    }

    method CleanUp()
      requires Valid()
      modifies this, readWrite
      ensures Valid() && history == old(history) + [Op.CleanUp]
    {
      readWrite.CleanUp();
      history := history + [Op.CleanUp];
    }

    method Load(q: Query) returns (r: LoadResult)
      requires Valid()
      ensures IsRemoved(history, q.obj) ==> r == Removed
      ensures forall data :: IsSaved(history, q, data) ==> r == Loaded(data)
      ensures !IsRemoved(history, q.obj) && (forall data :: !IsSaved(history, q, data)) ==>
                r == StorageHistory.Load(original, q)
    {
      OverlayTellsHistory(history, original, q);
      r := readWrite.Load(q);
      if r.Empty? { r := readOnly.Load(q); }
    }
  }
}
