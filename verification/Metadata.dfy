/** The metadata records the catalog stores: columns, indexes, partitions and
    tables (core/include/metadata/table.hpp). A table owns its columns and
    indexes by value, so a record is a value here as well. */
module Metadata {

  datatype Option<+T> = None | Some(value: T)

  /** Ids are handed out by a counter that starts at 1; 0 means "no object". */
  type ObjectId = nat

  datatype ColumnType = INT | CHAR | VARCHAR | REAL | BOOL | BYTEA | TEXT

  datatype Generated = NotGenerated | Stored | Virtual

  datatype Column = Column(
    name: string,
    colType: ColumnType,
    length: nat,
    defaultValue: string,
    generated: Generated,
    nullable: bool,
    primaryKey: bool,
    partitionKey: bool,
    fkRef: ObjectId,
    autoIncrement: bool)

  datatype IndexOrdering = DefaultOrder | Asc | Desc

  datatype IndexColumn = IndexColumn(columnName: string, ordering: IndexOrdering)

  datatype Index = Index(name: string, unique: bool, fields: seq<IndexColumn>)

  datatype RangePartitioning = RangePartitioning(rangeSize: nat, ranges: seq<nat>)

  datatype Table = Table(
    id: ObjectId,
    version: nat,
    name: string,
    engine: string,
    tablespace: string,
    partitioning: Option<RangePartitioning>,
    columns: seq<Column>,
    indexes: seq<Index>)
  {
    predicate HasReferenceTo(target: ObjectId) {
      exists i :: 0 <= i < |columns| && columns[i].fkRef == target
    }

    /** The ids this table's foreign keys point at. */
    function Refs(): set<ObjectId> {
      set c | c in columns && c.fkRef != 0 :: c.fkRef
    }
  }

  /** Records by id. */
  type Records = map<ObjectId, Table>

  /** A change to a record. None is the delta that returns false: the copy it
      worked on is thrown away. */
  type Delta = Table -> Option<Table>

  /** ALTER, RENAME, index and partition deltas never add a reference. */
  ghost predicate AddsNoRef(d: Delta) {
    forall t {:trigger d(t)} :: d(t).Some? ==> d(t).value.Refs() <= t.Refs()
  }

  /** r is t without its references to one id, and all else, the columns and
      their order included, is as in t. */
  predicate RefsCleared(r: Table, t: Table, target: ObjectId) {
    && r == t.(columns := r.columns) && |r.columns| == |t.columns|
    && forall i :: 0 <= i < |t.columns| ==>
         && r.columns[i] == t.columns[i].(fkRef := r.columns[i].fkRef)
         && r.columns[i].fkRef == if t.columns[i].fkRef == target then 0 else t.columns[i].fkRef
  }

  function ClearRef(c: Column, target: ObjectId): Column {
    if c.fkRef == target then c.(fkRef := 0) else c
  }

  /** Table::removeReferencesTo: clears matching references in place and tells
      whether there were any. */
  method RemoveReferencesTo(t: Table, target: ObjectId) returns (r: Table, changed: bool)
    ensures changed <==> t.HasReferenceTo(target)
    ensures r == WithoutRefsTo(t, target) && RefsCleared(r, t, target)
  {
    r, changed := t, false;
    for i := 0 to |t.columns|
      invariant r == t.(columns := r.columns) && |r.columns| == |t.columns|
      invariant forall k :: 0 <= k < i ==> r.columns[k] == ClearRef(t.columns[k], target)
      invariant forall k :: i <= k < |t.columns| ==> r.columns[k] == t.columns[k]
      invariant changed <==> exists k :: 0 <= k < i && t.columns[k].fkRef == target
    {
      if r.columns[i].fkRef == target {
        r := r.(columns := r.columns[i := r.columns[i].(fkRef := 0)]);
        changed := true;
      }
    }
    assert r.columns == WithoutRefsTo(t, target).columns;
  }

  function WithoutRefsTo(t: Table, target: ObjectId): (r: Table)
    ensures RefsCleared(r, t, target)
  {
    t.(columns := seq(|t.columns|, i requires 0 <= i < |t.columns| => ClearRef(t.columns[i], target)))
  }

  /** Removing the references to one id takes exactly that id out of the
      table's reference set. */
  lemma WithoutRefsToRefs(t: Table, target: ObjectId)
    ensures WithoutRefsTo(t, target).Refs() == t.Refs() - {target}
  {
    var r := WithoutRefsTo(t, target);
    forall id | id in t.Refs() - {target} ensures id in r.Refs() {
      var c :| c in t.columns && c.fkRef != 0 && c.fkRef == id;
      var i :| 0 <= i < |t.columns| && t.columns[i] == c;
      assert r.columns[i] == c;
    }
    forall id | id in r.Refs() ensures id in t.Refs() - {target} {
      var c :| c in r.columns && c.fkRef != 0 && c.fkRef == id;
      var i :| 0 <= i < |r.columns| && r.columns[i] == c;
      assert r.columns[i] == ClearRef(t.columns[i], target);
      assert t.columns[i] in t.columns;
    }
  }

  lemma HasReferenceToRefs(t: Table, target: ObjectId)
    requires target != 0
    ensures t.HasReferenceTo(target) <==> target in t.Refs()
  {
    if target in t.Refs() {
      var c :| c in t.columns && c.fkRef == target;
      var i :| 0 <= i < |t.columns| && t.columns[i] == c;
      assert t.HasReferenceTo(target);
    }
  }

  /** The delta of the check and of the sweep. */
  function DropRefs(target: ObjectId): Delta {
    (t: Table) => if t.HasReferenceTo(target) then Some(WithoutRefsTo(t, target)) else None
  }

  lemma DropRefsExact(target: ObjectId, t: Table)
    ensures DropRefs(target)(t).Some? <==> exists i :: 0 <= i < |t.columns| && t.columns[i].fkRef == target
    ensures DropRefs(target)(t).Some? ==> RefsCleared(DropRefs(target)(t).value, t, target)
  {
  }

  /** Only the second column of a new table may be a foreign key. */
  predicate OneRef(t: Table) {
    forall i :: 0 <= i < |t.columns| && i != 1 ==> t.columns[i].fkRef == 0
  }

  function FkOf(t: Table): ObjectId {
    if |t.columns| > 1 then t.columns[1].fkRef else 0
  }

  lemma DropRefsShrinks(target: ObjectId)
    ensures forall u {:trigger DropRefs(target)(u)} ::
              DropRefs(target)(u).Some? ==> DropRefs(target)(u).value.Refs() == u.Refs() - {target}
  {
    forall u: Table | DropRefs(target)(u).Some?
      ensures DropRefs(target)(u).value.Refs() == u.Refs() - {target}
    {
      WithoutRefsToRefs(u, target);
    }
  }

  lemma OneRefRefs(t: Table)
    requires OneRef(t)
    ensures t.Refs() == if FkOf(t) != 0 then {FkOf(t)} else {}
  {
    if FkOf(t) != 0 {
      assert t.columns[1] in t.columns;
    }
  }
}
