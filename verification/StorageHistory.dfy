/**
 The writable store over a read-only one: what Load returns, told by the history of operations.
 */
module StorageHistory {
  import opened Options

  datatype Query = Query(obj: nat, cls: nat, version: nat)
  type Data = seq<nat>

  datatype LoadResult = Empty | Removed | Loaded(data: Data)

  type ClassData = map<nat, map<nat, Data>>
  /** Objects with the data of their classes and versions; nothing for a removed object. */
  type Store = map<nat, Option<ClassData>>

  datatype Op = Save(q: Query, data: Data) | Remove(obj: nat) | CleanUp

  function SaveData(s: Store, q: Query, data: Data): Store {
    var classes := if q.obj in s && s[q.obj].Some? then s[q.obj].value else map[];
    var versions := if q.cls in classes then classes[q.cls] else map[];
    s[q.obj := Some(classes[q.cls := versions[q.version := data]])]
  }

  function Load(s: Store, q: Query): LoadResult {
    if q.obj !in s then Empty
    else if s[q.obj].None? then Removed
    else if q.cls !in s[q.obj].value then Empty
    else if q.version !in s[q.obj].value[q.cls] then Empty
    else Loaded(s[q.obj].value[q.cls][q.version])
  }

  function Apply(s: Store, op: Op): Store {
    match op
    case Save(q, data) => SaveData(s, q, data)
    case Remove(obj) => s[obj := None]
    case CleanUp => map[]
  }

  function ApplyAll(ops: seq<Op>): Store {
    if ops == [] then map[] else Apply(ApplyAll(ops[..|ops| - 1]), ops[|ops| - 1])
  }

  /** SyncDomainStorage::Load. */
  function Overlay(s: Store, readOnly: Store, q: Query): LoadResult {
    var r := Load(s, q);
    if r.Empty? then Load(readOnly, q) else r
  }

  // ---------------------------------------------------------------- history

  /** Ends what an earlier store of `q` had put there. */
  predicate Replaces(op: Op, q: Query) {
    match op
    case Save(p, _) => p == q
    case Remove(obj) => obj == q.obj
    case CleanUp => true
  }

  /** Ends the removal of an object. */
  predicate Revives(op: Op, obj: nat) {
    match op
    case Save(p, _) => p.obj == obj
    case Remove(_) => false
    case CleanUp => true
  }

  ghost predicate SavedAt(ops: seq<Op>, q: Query, data: Data, i: nat) {
    i < |ops| && ops[i] == Save(q, data) && forall j :: i < j < |ops| ==> !Replaces(ops[j], q)
  }

  ghost predicate RemovedAt(ops: seq<Op>, obj: nat, i: nat) {
    i < |ops| && ops[i] == Remove(obj) && forall j :: i < j < |ops| ==> !Revives(ops[j], obj)
  }

  ghost predicate IsSaved(ops: seq<Op>, q: Query, data: Data) {
    exists i: nat :: SavedAt(ops, q, data, i)
  }

  ghost predicate IsRemoved(ops: seq<Op>, obj: nat) {
    exists i: nat :: RemovedAt(ops, obj, i)
  }

  lemma SavedStep(ops: seq<Op>, op: Op, q: Query, data: Data)
    ensures IsSaved(ops + [op], q, data) <==> op == Save(q, data) || (IsSaved(ops, q, data) && !Replaces(op, q))
  {
    var all := ops + [op];
    if IsSaved(ops, q, data) && !Replaces(op, q) {
      var i: nat :| SavedAt(ops, q, data, i);
      assert SavedAt(all, q, data, i);
    }
    if op == Save(q, data) { assert SavedAt(all, q, data, |ops|); }
    if IsSaved(all, q, data) {
      var i: nat :| SavedAt(all, q, data, i);
      if i < |ops| {
        assert all[|ops|] == op;
        assert forall j :: i < j < |ops| ==> all[j] == ops[j];
        assert SavedAt(ops, q, data, i);
      }
    }
  }

  lemma RemovedStep(ops: seq<Op>, op: Op, obj: nat)
    ensures IsRemoved(ops + [op], obj) <==> op == Remove(obj) || (IsRemoved(ops, obj) && !Revives(op, obj))
  {
    var all := ops + [op];
    if IsRemoved(ops, obj) && !Revives(op, obj) {
      var i: nat :| RemovedAt(ops, obj, i);
      assert RemovedAt(all, obj, i);
    }
    if op == Remove(obj) { assert RemovedAt(all, obj, |ops|); }
    if IsRemoved(all, obj) {
      var i: nat :| RemovedAt(all, obj, i);
      if i < |ops| {
        assert all[|ops|] == op;
        assert forall j :: i < j < |ops| ==> all[j] == ops[j];
        assert RemovedAt(ops, obj, i);
      }
    }
  }

  lemma ApplyLoad(s: Store, op: Op, q: Query, data: Data)
    ensures Load(Apply(s, op), q) == Loaded(data) <==>
            op == Save(q, data) || (Load(s, q) == Loaded(data) && !Replaces(op, q))
    ensures Load(Apply(s, op), q) == Removed <==>
            op == Remove(q.obj) || (Load(s, q) == Removed && !Revives(op, q.obj))
  {
  }

  /** The store answers with the last payload stored since the latest removal or clean-up, and
      "removed" exactly if the object was removed and nothing of it stored since. */
  lemma {:induction false} LoadTellsHistory(ops: seq<Op>, q: Query, data: Data)
    ensures Load(ApplyAll(ops), q) == Loaded(data) <==> IsSaved(ops, q, data)
    ensures Load(ApplyAll(ops), q) == Removed <==> IsRemoved(ops, q.obj)
  {
    if ops != [] {
      var front, op := ops[..|ops| - 1], ops[|ops| - 1];
      LoadTellsHistory(front, q, data);
      ApplyLoad(ApplyAll(front), op, q, data);
      SavedStep(front, op, q, data);
      RemovedStep(front, op, q.obj);
      assert ops == front + [op];
    }
  }

  /** What the overlay returns after any history over any read-only store. */
  lemma OverlayTellsHistory(ops: seq<Op>, readOnly: Store, q: Query)
    ensures IsRemoved(ops, q.obj) ==> Overlay(ApplyAll(ops), readOnly, q) == Removed
    ensures forall data :: IsSaved(ops, q, data) ==> Overlay(ApplyAll(ops), readOnly, q) == Loaded(data)
    ensures !IsRemoved(ops, q.obj) && (forall data :: !IsSaved(ops, q, data)) ==>
              Overlay(ApplyAll(ops), readOnly, q) == Load(readOnly, q)
  {
    var r := Load(ApplyAll(ops), q);
    LoadTellsHistory(ops, q, []);
    forall data ensures r == Loaded(data) <==> IsSaved(ops, q, data) {
      LoadTellsHistory(ops, q, data);
    }
    assert r.Empty? || r.Removed? || r == Loaded(r.data);
  }

  /** Storing one class or version of a removed object shows the read-only data of the others again. */
  lemma RemovedEntryResurfaces(ops: seq<Op>, readOnly: Store, q: Query, p: Query, data: Data)
    requires p.obj == q.obj && p != q
    ensures Overlay(ApplyAll(ops + [Remove(q.obj)]), readOnly, q) == Removed
    ensures Overlay(ApplyAll(ops + [Remove(q.obj), Save(p, data)]), readOnly, q) == Load(readOnly, q)
  {
    var removed := ops + [Remove(q.obj)];
    assert removed[..|ops|] == ops;
    var all := ops + [Remove(q.obj), Save(p, data)];
    assert all[..|ops| + 1] == removed;
  }
}
