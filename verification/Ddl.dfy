/** How CREATE TABLE and DROP TABLE publish: separate catalog calls, through a
    view that may be buffered (core/src/action/ddl.cpp). */
module DdlPublish {
  import opened Metadata
  import CatalogSpec
  import opened OverlaySpec
  import opened Catalogs
  import opened TxnBuffers

  /** Every foreign key of a live table points at a live table. */
  ghost predicate Closed(m: Records) {
    forall x :: x in m ==> m[x].Refs() <= m.Keys
  }

  /** now is was without its references to one id; versions aside, the rest of
      the record is untouched, and so is all of a record without such a
      reference. */
  ghost predicate Cleared(now: Table, was: Table, target: ObjectId) {
    if was.HasReferenceTo(target) then RefsCleared(now, was.(version := now.version), target) else now == was
  }

  lemma ClearedRefs(now: Table, was: Table, target: ObjectId)
    requires target != 0 && Cleared(now, was, target)
    ensures now.Refs() == was.Refs() - {target}
  {
    HasReferenceToRefs(was, target);
    if was.HasReferenceTo(target) {
      WithoutRefsToRefs(was, target);
      assert now.columns == WithoutRefsTo(was, target).columns;
    }
  }

  /** Clears x's references to one id and touches nothing else. */
  method ClearRefs(view: CatalogView, x: ObjectId, target: ObjectId)
    requires view.Valid() && target != 0
    modifies view.catalog, view.txn
    ensures view.Valid() && view.Seen().Keys == old(view.Seen()).Keys
    ensures forall y :: y in view.Seen() && y != x ==> view.Seen()[y] == old(view.Seen())[y]
    ensures x in view.Seen() ==> Cleared(view.Seen()[x], old(view.Seen())[x], target)
  {
    SeenKeyed(view);
    if x in view.Seen() {
      DropRefsExact(target, view.Seen()[x]);
    }
    var ok := view.Update(x, DropRefs(target));
  }

  lemma SeenKeyed(view: CatalogView)
    requires view.Valid()
    ensures Keyed(view.Seen())
  {
    if view.txn != null {
      ReplaySane(view.catalog.Recs(), view.txn.log);
      MergedKeyed(view.catalog.Recs(), view.txn.Ov());
    } else {
      assert view.Seen() == view.catalog.Abs().recs;
    }
  }

  method InsertNew(view: CatalogView, table: Table)
    requires view.Valid() && table.id != 0 && table.id !in view.Seen()
    modifies view.catalog, view.txn
    ensures view.Valid() && view.Seen() == old(view.Seen())[table.id := table]
  {
    if view.txn == null {
      assert view.Seen() == view.catalog.Abs().recs;
    }
    var ok := view.Insert(table);
  }

  method EraseKnown(view: CatalogView, id: ObjectId)
    requires view.Valid()
    modifies view.catalog, view.txn
    ensures view.Valid() && view.Seen() == old(view.Seen()) - {id}
  {
    if view.txn == null {
      assert view.Seen() == view.catalog.Abs().recs;
    }
    var ok := view.Erase(id);
  }

  /** CREATE TABLE: insert, then drop the reference again if its target is gone. */
  method PublishCreate(view: CatalogView, table: Table)
    requires view.Valid() && table.id != 0 && table.id !in view.Seen() && OneRef(table)
    modifies view.catalog, view.txn
    ensures view.Valid() && view.Seen().Keys == old(view.Seen()).Keys + {table.id}
    ensures forall y :: y in old(view.Seen()) ==> view.Seen()[y] == old(view.Seen())[y]
    ensures var fk := FkOf(table);
            if fk == 0 || fk in view.Seen() then view.Seen()[table.id] == table
            else Cleared(view.Seen()[table.id], table, fk)
    ensures view.Seen()[table.id].Refs() == table.Refs() * view.Seen().Keys
  {
    hide Merged, Cleared;
    OneRefRefs(table);
    hide Table.Refs, OneRef;
    var fk := FkOf(table);
    InsertNew(view, table);
    if fk != 0 {
      var target := view.ById(fk);
      if target.None? {
        ClearRefs(view, table.id, fk);
        ClearedRefs(view.Seen()[table.id], table, fk);
      }
    }
  }

  /** Alone, neither action leaves a reference to a table that is not live: what
      PublishCreate ensures keeps a closed schema closed, */
  lemma CreateKeepsClosed(before: Records, after: Records, table: Table)
    requires Closed(before) && after.Keys == before.Keys + {table.id}
    requires forall y :: y in before ==> after[y] == before[y]
    requires table.id !in before && after[table.id].Refs() == table.Refs() * after.Keys
    ensures Closed(after)
  {
    forall y | y in after ensures after[y].Refs() <= after.Keys {
      if y in before {
        assert before[y].Refs() <= before.Keys;
      }
    }
  }

  /** and so does what PublishDrop ensures. */
  lemma DropKeepsClosed(before: Records, after: Records, id: ObjectId)
    requires id != 0 && Closed(before) && after.Keys == before.Keys - {id}
    requires forall y :: y in after ==> Cleared(after[y], before[y], id)
    ensures Closed(after)
  {
    forall y | y in after ensures after[y].Refs() <= after.Keys {
      ClearedRefs(after[y], before[y], id);
      assert before[y].Refs() <= before.Keys;
    }
  }

  /** The record of the snapshot decides, the current one is changed. */
  method SweepOne(view: CatalogView, other: Table, target: ObjectId)
    requires view.Valid() && target != 0
    requires other.id in view.Seen() && view.Seen()[other.id] == other
    modifies view.catalog, view.txn
    ensures view.Valid() && view.Seen().Keys == old(view.Seen()).Keys
    ensures forall y :: y in view.Seen() && y != other.id ==> view.Seen()[y] == old(view.Seen())[y]
    ensures Cleared(view.Seen()[other.id], other, target)
  {
    if other.HasReferenceTo(target) {
      ClearRefs(view, other.id, target);
    }
  }

  /** The first i tables of the snapshot are swept, the others as they were. */
  ghost predicate Swept(seen: Records, left: Records, others: seq<Table>, i: nat, id: ObjectId) {
    && i <= |others| && seen.Keys == left.Keys
    && (forall k :: 0 <= k < |others| ==> others[k].id in left)
    && (forall k :: 0 <= k < i ==> Cleared(seen[others[k].id], left[others[k].id], id))
    && (forall k :: i <= k < |others| ==> seen[others[k].id] == left[others[k].id])
  }

  lemma SweptNext(before: Records, after: Records, left: Records, others: seq<Table>, i: nat, id: ObjectId)
    requires Swept(before, left, others, i, id) && i < |others| && left[others[i].id] == others[i]
    requires forall a, b :: 0 <= a < b < |others| ==> others[a].id != others[b].id
    requires after.Keys == before.Keys && Cleared(after[others[i].id], others[i], id)
    requires forall y :: y in after && y != others[i].id ==> after[y] == before[y]
    ensures Swept(after, left, others, i + 1, id)
  {
    hide Cleared;
  }

  lemma SweptAll(seen: Records, left: Records, others: seq<Table>, id: ObjectId)
    requires Enumerates(others, left) && Swept(seen, left, others, |others|, id)
    ensures forall y :: y in seen ==> Cleared(seen[y], left[y], id)
  {
    hide Cleared;
    forall y | y in seen ensures Cleared(seen[y], left[y], id) {
      var k :| 0 <= k < |others| && others[k] == left[y];
    }
  }

  /** DROP TABLE: erase, then sweep the references of a snapshot. */
  method PublishDrop(view: CatalogView, id: ObjectId)
    requires view.Valid() && id != 0
    modifies view.catalog, view.txn
    ensures view.Valid() && view.Seen().Keys == old(view.Seen()).Keys - {id}
    ensures forall y :: y in view.Seen() ==> Cleared(view.Seen()[y], old(view.Seen())[y], id)
  {
    hide Merged, Cleared;
    EraseKnown(view, id);
    ghost var left := view.Seen();
    var others := view.SnapshotAll();
    for i := 0 to |others|
      invariant view.Valid() && Swept(view.Seen(), left, others, i, id)
    {
      ghost var before := view.Seen();
      SweepOne(view, others[i], id);
      SweptNext(before, view.Seen(), left, others, i, id);
    }
    SweptAll(view.Seen(), left, others, id);
  }
}

/** ALTER TABLE: several subcommands in one statement, merged into the current
    record as one delta that addresses columns by name. */
module AlterTables {
  import opened Metadata
  import opened OverlaySpec

  datatype TypeChange = TypeChange(name: string, colType: ColumnType, length: nat)

  datatype Subcommand =
    | AddColumn(column: Column)
    | DropColumn(name: string)
    | ChangeColumn(change: TypeChange)
    | ChangeAccessMethod(engine: string)

  /** What the merge captures: all drops, then all type changes, then all adds. */
  datatype Batch = Batch(dropped: seq<string>, changes: seq<TypeChange>, added: seq<Column>)

  /** i is the position of the first column of that name, or the end. */
  predicate First(cols: seq<Column>, name: string, i: nat) {
    && i <= |cols|
    && (forall k :: 0 <= k < i ==> cols[k].name != name)
    && (i < |cols| ==> cols[i].name == name)
  }

  function FirstNamed(cols: seq<Column>, name: string): (i: nat)
    ensures First(cols, name, i)
  {
    if cols == [] || cols[0].name == name then 0 else
    var rest := FirstNamed(cols[1..], name);
    assert forall k :: 0 < k <= rest && k < |cols| ==> cols[k] == cols[1..][k - 1];
    1 + rest
  }

  function RemoveAt(cols: seq<Column>, i: nat): seq<Column>
    requires i < |cols|
  {
    cols[..i] + cols[i + 1..]
  }

  function RetypeAt(cols: seq<Column>, i: nat, c: TypeChange): seq<Column>
    requires i < |cols|
  {
    cols[i := cols[i].(colType := c.colType, length := c.length)]
  }

  function RemoveFirst(cols: seq<Column>, name: string): seq<Column> {
    var i := FirstNamed(cols, name);
    if i < |cols| then RemoveAt(cols, i) else cols
  }

  function ChangeFirst(cols: seq<Column>, c: TypeChange): seq<Column> {
    var i := FirstNamed(cols, c.name);
    if i < |cols| then RetypeAt(cols, i, c) else cols
  }

  predicate Names(idx: Index, name: string) {
    exists i :: 0 <= i < |idx.fields| && idx.fields[i].columnName == name
  }

  function WithoutField(fields: seq<IndexColumn>, name: string): seq<IndexColumn> {
    if fields == [] then []
    else if fields[0].columnName == name then WithoutField(fields[1..], name)
    else [fields[0]] + WithoutField(fields[1..], name)
  }

  /** What one dropped column does to the indexes: pg drops every index on it,
      mysql takes the column out and drops an index that is left empty. */
  function DropFromIndexes(indexes: seq<Index>, name: string, whole: bool): seq<Index> {
    if indexes == [] then [] else
    var rest := DropFromIndexes(indexes[1..], name, whole);
    if whole then (if Names(indexes[0], name) then rest else [indexes[0]] + rest)
    else
      var left := indexes[0].(fields := WithoutField(indexes[0].fields, name));
      if left.fields == [] then rest else [left] + rest
  }

  function Drop(t: Table, name: string, whole: bool): Table {
    t.(columns := RemoveFirst(t.columns, name), indexes := DropFromIndexes(t.indexes, name, whole))
  }

  function DropAll(t: Table, names: seq<string>, whole: bool): Table {
    if names == [] then t else Drop(DropAll(t, names[..|names| - 1], whole), names[|names| - 1], whole)
  }

  function ChangeAll(cols: seq<Column>, changes: seq<TypeChange>): seq<Column> {
    if changes == [] then cols
    else ChangeFirst(ChangeAll(cols, changes[..|changes| - 1]), changes[|changes| - 1])
  }

  function ApplyBatch(t: Table, b: Batch, whole: bool): Table {
    var d := DropAll(t, b.dropped, whole);
    d.(columns := ChangeAll(d.columns, b.changes) + b.added)
  }

  /** One subcommand alone. The access method is not part of the record's
      merge. */
  function ApplyOne(t: Table, c: Subcommand, whole: bool): Table {
    match c
    case AddColumn(col) => t.(columns := t.columns + [col])
    case DropColumn(name) => Drop(t, name, whole)
    case ChangeColumn(tc) => t.(columns := ChangeFirst(t.columns, tc))
    case ChangeAccessMethod(_) => t
  }

  function ApplyInOrder(t: Table, cs: seq<Subcommand>, whole: bool): Table {
    if cs == [] then t else ApplyOne(ApplyInOrder(t, cs[..|cs| - 1], whole), cs[|cs| - 1], whole)
  }

  function Record(b: Batch, c: Subcommand): Batch {
    match c
    case AddColumn(col) => b.(added := b.added + [col])
    case DropColumn(name) => b.(dropped := b.dropped + [name])
    case ChangeColumn(tc) => b.(changes := b.changes + [tc])
    case ChangeAccessMethod(_) => b
  }

  function BatchOf(cs: seq<Subcommand>): Batch {
    if cs == [] then Batch([], [], []) else Record(BatchOf(cs[..|cs| - 1]), cs[|cs| - 1])
  }

  predicate Mentions(cols: seq<Column>, name: string) {
    exists i :: 0 <= i < |cols| && cols[i].name == name
  }

  predicate Changes(cs: seq<TypeChange>, name: string) {
    exists i :: 0 <= i < |cs| && cs[i].name == name
  }

  /** No column is both dropped and changed, and none of the new columns is. */
  predicate Separate(b: Batch) {
    && (forall n :: n in b.dropped ==> !Changes(b.changes, n) && !Mentions(b.added, n))
    && (forall i :: 0 <= i < |b.changes| ==> !Mentions(b.added, b.changes[i].name))
  }

  // ---- drops, changes and adds of different columns commute ----

  lemma FirstAppend(cols: seq<Column>, more: seq<Column>, name: string)
    requires !Mentions(more, name)
    ensures var i, j := FirstNamed(cols, name), FirstNamed(cols + more, name);
            j == if i < |cols| then i else |cols + more|
  {
    var i := FirstNamed(cols, name);
    FirstUnique(cols + more, name, if i < |cols| then i else |cols + more|);
  }

  lemma FirstUnique(cols: seq<Column>, name: string, i: nat)
    requires First(cols, name, i)
    ensures i == FirstNamed(cols, name)
  {
    var f := FirstNamed(cols, name);
    assert f < |cols| ==> cols[f].name == name;
    assert i < |cols| ==> cols[i].name == name;
  }

  lemma RemoveAppend(cols: seq<Column>, more: seq<Column>, name: string)
    requires !Mentions(more, name)
    ensures RemoveFirst(cols + more, name) == RemoveFirst(cols, name) + more
  {
    FirstAppend(cols, more, name);
    hide FirstNamed, Mentions;
    var i := FirstNamed(cols, name);
    if i < |cols| {
      RemoveAtAppend(cols, more, i);
    }
  }

  lemma RemoveAtAppend(cols: seq<Column>, more: seq<Column>, i: nat)
    requires i < |cols|
    ensures RemoveAt(cols + more, i) == RemoveAt(cols, i) + more
  {
  }

  lemma ChangeAppend(cols: seq<Column>, more: seq<Column>, c: TypeChange)
    requires !Mentions(more, c.name)
    ensures ChangeFirst(cols + more, c) == ChangeFirst(cols, c) + more
  {
    FirstAppend(cols, more, c.name);
  }

  lemma SameNamesSameFirst(a: seq<Column>, b: seq<Column>, name: string)
    requires |a| == |b| && forall k :: 0 <= k < |a| ==> a[k].name == b[k].name
    ensures FirstNamed(a, name) == FirstNamed(b, name)
  {
    FirstUnique(b, name, FirstNamed(a, name));
  }

  /** Where another name stands once the column at i is gone. */
  lemma FirstAfterRemove(cols: seq<Column>, i: nat, name: string)
    requires i < |cols| && cols[i].name != name
    ensures var j := FirstNamed(cols, name);
            FirstNamed(RemoveAt(cols, i), name) == if j < i then j else j - 1
  {
    var j, left := FirstNamed(cols, name), RemoveAt(cols, i);
    var at := if j < i then j else j - 1;
    assert forall k :: 0 <= k < |left| ==> left[k] == cols[if k < i then k else k + 1];
    FirstUnique(left, name, at);
  }

  lemma RemoveRetypeAt(cols: seq<Column>, i: nat, j: nat, c: TypeChange)
    requires i < |cols| && j < |cols| && i != j
    ensures RemoveAt(RetypeAt(cols, j, c), i) == RetypeAt(RemoveAt(cols, i), if j < i then j else j - 1, c)
  {
  }

  lemma RetypeKeepsFirst(cols: seq<Column>, c: TypeChange, name: string)
    ensures FirstNamed(ChangeFirst(cols, c), name) == FirstNamed(cols, name)
    ensures |ChangeFirst(cols, c)| == |cols|
  {
    SameNamesSameFirst(ChangeFirst(cols, c), cols, name);
  }

  lemma RemoveChange(cols: seq<Column>, name: string, c: TypeChange)
    requires name != c.name
    ensures RemoveFirst(ChangeFirst(cols, c), name) == ChangeFirst(RemoveFirst(cols, name), c)
  {
    RetypeKeepsFirst(cols, c, name);
    var i, j := FirstNamed(cols, name), FirstNamed(cols, c.name);
    if i < |cols| {
      FirstAfterRemove(cols, i, c.name);
      if j < |cols| {
        RemoveRetypeAt(cols, i, j, c);
      }
    }
  }

  lemma {:induction false} RemoveChangeAll(cols: seq<Column>, name: string, changes: seq<TypeChange>)
    requires !Changes(changes, name)
    ensures RemoveFirst(ChangeAll(cols, changes), name) == ChangeAll(RemoveFirst(cols, name), changes)
  {
    if changes != [] {
      var front, last := changes[..|changes| - 1], changes[|changes| - 1];
      assert !Changes(front, name) by {
        assert forall i :: 0 <= i < |front| ==> front[i] == changes[i];
      }
      RemoveChangeAll(cols, name, front);
      assert last.name != name;
      RemoveChange(ChangeAll(cols, front), name, last);
    }
  }

  lemma DropLast(t: Table, b: Batch, name: string, whole: bool)
    requires !Changes(b.changes, name) && !Mentions(b.added, name)
    ensures ApplyBatch(t, b.(dropped := b.dropped + [name]), whole) == Drop(ApplyBatch(t, b, whole), name, whole)
  {
    var d := DropAll(t, b.dropped, whole);
    assert (b.dropped + [name])[..|b.dropped|] == b.dropped;
    RemoveAppend(ChangeAll(d.columns, b.changes), b.added, name);
    RemoveChangeAll(d.columns, name, b.changes);
  }

  lemma ChangeLast(cols: seq<Column>, changes: seq<TypeChange>, added: seq<Column>, c: TypeChange)
    requires !Mentions(added, c.name)
    ensures ChangeAll(cols, changes + [c]) + added == ChangeFirst(ChangeAll(cols, changes) + added, c)
  {
    assert (changes + [c])[..|changes|] == changes;
    ChangeAppend(ChangeAll(cols, changes), added, c);
  }

  lemma RecordApplies(t: Table, b: Batch, c: Subcommand, whole: bool)
    requires Separate(Record(b, c))
    ensures ApplyBatch(t, Record(b, c), whole) == ApplyOne(ApplyBatch(t, b, whole), c, whole)
  {
    var d := DropAll(t, b.dropped, whole);
    match c {
      case AddColumn(col) =>
        var mid := ChangeAll(d.columns, b.changes);
        assert (mid + b.added) + [col] == mid + (b.added + [col]);
      case DropColumn(name) =>
        assert name in Record(b, c).dropped;
        DropLast(t, b, name, whole);
      case ChangeColumn(tc) =>
        assert Record(b, c).changes[|b.changes|] == tc;
        ChangeLast(d.columns, b.changes, b.added, tc);
      case ChangeAccessMethod(_) =>
    }
  }

  lemma SeparateBefore(b: Batch, c: Subcommand)
    requires Separate(Record(b, c))
    ensures Separate(b)
  {
    var after := Record(b, c);
    forall n | n in b.dropped ensures !Changes(b.changes, n) && !Mentions(b.added, n) {
      assert n in after.dropped;
      assert forall i :: 0 <= i < |b.changes| ==> after.changes[i] == b.changes[i];
      assert forall i :: 0 <= i < |b.added| ==> after.added[i] == b.added[i];
    }
    forall i | 0 <= i < |b.changes| ensures !Mentions(b.added, b.changes[i].name) {
      assert after.changes[i] == b.changes[i];
      assert forall k :: 0 <= k < |b.added| ==> after.added[k] == b.added[k];
    }
  }

  /** Merging the batch gives the same record, on any record it meets, as
      applying the subcommands one by one in the order they were emitted. */
  lemma {:induction false} BatchIsInOrder(t: Table, cs: seq<Subcommand>, whole: bool)
    requires Separate(BatchOf(cs))
    ensures ApplyBatch(t, BatchOf(cs), whole) == ApplyInOrder(t, cs, whole)
  {
    if cs == [] {
      assert t.columns + [] == t.columns;
    } else {
      var front, last := cs[..|cs| - 1], cs[|cs| - 1];
      SeparateBefore(BatchOf(front), last);
      BatchIsInOrder(t, front, whole);
      RecordApplies(t, BatchOf(front), last, whole);
    }
  }

  // ---- what the merge keeps ----

  /** Every index has a key and names only columns of the table. */
  ghost predicate IndexesOk(t: Table) {
    forall i :: 0 <= i < |t.indexes| ==>
      t.indexes[i].fields != [] &&
      forall k :: 0 <= k < |t.indexes[i].fields| ==> Mentions(t.columns, t.indexes[i].fields[k].columnName)
  }

  lemma {:induction false} WithoutFieldIs(fields: seq<IndexColumn>, name: string)
    ensures forall f :: f in WithoutField(fields, name) <==> f in fields && f.columnName != name
  {
    if fields != [] {
      WithoutFieldIs(fields[1..], name);
      assert fields == [fields[0]] + fields[1..];
    }
  }

  lemma {:induction false} DropFromIndexesOk(indexes: seq<Index>, name: string, whole: bool, idx: Index)
    requires idx in DropFromIndexes(indexes, name, whole)
    requires forall o :: o in indexes ==> o.fields != []
    ensures idx.fields != []
    ensures exists o :: o in indexes && forall f :: f in idx.fields ==> f in o.fields && f.columnName != name
  {
    var rest := DropFromIndexes(indexes[1..], name, whole);
    if idx in rest {
      DropFromIndexesOk(indexes[1..], name, whole, idx);
      var o :| o in indexes[1..] && forall f :: f in idx.fields ==> f in o.fields && f.columnName != name;
      assert o in indexes;
    } else {
      WithoutFieldIs(indexes[0].fields, name);
      assert indexes[0] in indexes;
      assert forall f :: f in idx.fields ==> f in indexes[0].fields && f.columnName != name;
    }
  }

  lemma RemoveMentions(cols: seq<Column>, name: string, other: string)
    requires other != name && Mentions(cols, other)
    ensures Mentions(RemoveFirst(cols, name), other)
  {
    var k :| 0 <= k < |cols| && cols[k].name == other;
    var i, r := FirstNamed(cols, name), RemoveFirst(cols, name);
    assert r[if k < i then k else k - 1] == cols[k];
  }

  lemma DropIndexesOk(t: Table, name: string, whole: bool)
    requires IndexesOk(t)
    ensures IndexesOk(Drop(t, name, whole))
  {
    var r := Drop(t, name, whole);
    forall i | 0 <= i < |r.indexes|
      ensures r.indexes[i].fields != []
      ensures forall k :: 0 <= k < |r.indexes[i].fields| ==> Mentions(r.columns, r.indexes[i].fields[k].columnName)
    {
      DropFromIndexesOk(t.indexes, name, whole, r.indexes[i]);
      var o :| o in t.indexes && forall f :: f in r.indexes[i].fields ==> f in o.fields && f.columnName != name;
      forall k | 0 <= k < |r.indexes[i].fields|
        ensures Mentions(r.columns, r.indexes[i].fields[k].columnName)
      {
        assert r.indexes[i].fields[k] in o.fields;
        RemoveMentions(t.columns, name, r.indexes[i].fields[k].columnName);
      }
    }
  }

  lemma {:induction false} DropAllIndexesOk(t: Table, names: seq<string>, whole: bool)
    requires IndexesOk(t)
    ensures IndexesOk(DropAll(t, names, whole))
  {
    if names != [] {
      DropAllIndexesOk(t, names[..|names| - 1], whole);
      DropIndexesOk(DropAll(t, names[..|names| - 1], whole), names[|names| - 1], whole);
    }
  }

  function ColumnNames(cols: seq<Column>): seq<string> {
    seq(|cols|, i requires 0 <= i < |cols| => cols[i].name)
  }

  lemma ChangeKeepsNames(cols: seq<Column>, c: TypeChange)
    ensures ColumnNames(ChangeFirst(cols, c)) == ColumnNames(cols)
  {
  }

  lemma {:induction false} ChangeAllKeepsNames(cols: seq<Column>, changes: seq<TypeChange>)
    ensures ColumnNames(ChangeAll(cols, changes)) == ColumnNames(cols)
  {
    if changes != [] {
      ChangeAllKeepsNames(cols, changes[..|changes| - 1]);
      ChangeKeepsNames(ChangeAll(cols, changes[..|changes| - 1]), changes[|changes| - 1]);
    }
  }

  /** On any current record, whatever concurrent ALTERs made of it, the merge
      keeps every index non-empty and on existing columns. */
  lemma BatchKeepsIndexesOk(t: Table, b: Batch, whole: bool)
    requires IndexesOk(t)
    ensures IndexesOk(ApplyBatch(t, b, whole))
  {
    DropAllIndexesOk(t, b.dropped, whole);
    var d, r := DropAll(t, b.dropped, whole), ApplyBatch(t, b, whole);
    ChangeAllKeepsNames(d.columns, b.changes);
    forall n | Mentions(d.columns, n) ensures Mentions(r.columns, n) {
      var i :| 0 <= i < |d.columns| && d.columns[i].name == n;
      assert ColumnNames(d.columns)[i] == n;
      assert ColumnNames(ChangeAll(d.columns, b.changes))[i] == n;
      assert r.columns[i].name == n;
    }
  }

  // ---- what the other workers may rely on ----

  /** The delta of the batch, which never refuses. */
  function BatchDelta(b: Batch, whole: bool): Delta {
    (t: Table) => Some(ApplyBatch(t, b, whole))
  }

  /** Every reference of the columns more is one of the columns cols. */
  ghost predicate NoMoreRefs(more: seq<Column>, cols: seq<Column>) {
    forall c :: c in more && c.fkRef != 0 ==> exists o :: o in cols && o.fkRef == c.fkRef
  }

  lemma RemoveRefs(cols: seq<Column>, name: string)
    ensures NoMoreRefs(RemoveFirst(cols, name), cols)
  {
  }

  lemma ChangeRefs(cols: seq<Column>, c: TypeChange)
    ensures NoMoreRefs(ChangeFirst(cols, c), cols)
  {
    var i, r := FirstNamed(cols, c.name), ChangeFirst(cols, c);
    forall x | x in r ensures exists o :: o in cols && o.fkRef == x.fkRef {
      var k :| 0 <= k < |r| && r[k] == x;
      assert cols[k] in cols && cols[k].fkRef == x.fkRef;
    }
  }

  lemma {:induction false} DropAllRefs(t: Table, names: seq<string>, whole: bool)
    ensures NoMoreRefs(DropAll(t, names, whole).columns, t.columns)
  {
    if names != [] {
      DropAllRefs(t, names[..|names| - 1], whole);
      RemoveRefs(DropAll(t, names[..|names| - 1], whole).columns, names[|names| - 1]);
    }
  }

  lemma {:induction false} ChangeAllRefs(cols: seq<Column>, changes: seq<TypeChange>)
    ensures NoMoreRefs(ChangeAll(cols, changes), cols)
  {
    if changes != [] {
      ChangeAllRefs(cols, changes[..|changes| - 1]);
      ChangeRefs(ChangeAll(cols, changes[..|changes| - 1]), changes[|changes| - 1]);
    }
  }

  /** New columns are no references (randomColumn sets none), so the batch adds
      no reference to any record, */
  lemma BatchAddsNoRef(b: Batch, whole: bool)
    requires forall c :: c in b.added ==> c.fkRef == 0
    ensures AddsNoRef(BatchDelta(b, whole))
  {
    forall t: Table ensures ApplyBatch(t, b, whole).Refs() <= t.Refs() {
      var d := DropAll(t, b.dropped, whole);
      DropAllRefs(t, b.dropped, whole);
      ChangeAllRefs(d.columns, b.changes);
      forall id | id in ApplyBatch(t, b, whole).Refs() ensures id in t.Refs() {
        var c :| c in ApplyBatch(t, b, whole).columns && c.fkRef != 0 && c.fkRef == id;
        var o :| o in d.columns && o.fkRef == c.fkRef;
        assert exists p :: p in t.columns && p.fkRef == o.fkRef;
      }
    }
  }

  lemma {:induction false} DropAllBlind(t: Table, names: seq<string>, whole: bool)
    ensures Unversioned(DropAll(t, names, whole)) == DropAll(Unversioned(t), names, whole)
  {
    if names != [] {
      DropAllBlind(t, names[..|names| - 1], whole);
    }
  }

  /** and it does the same to records that differ in their versions only. */
  lemma BatchIsBlind(b: Batch, whole: bool)
    ensures VersionBlind(BatchDelta(b, whole))
  {
    forall t: Table ensures Unversioned(ApplyBatch(t, b, whole)) == ApplyBatch(Unversioned(t), b, whole) {
      DropAllBlind(t, b.dropped, whole);
    }
  }

  // ---- emitting the subcommands ----

  /** One turn of the retry loop, with everything it draws. */
  datatype Turn =
    | TryAdd(column: Column)
    | TryDrop(pick: nat)
    | TryChange
    | TryAccessMethod(engine: string)

  predicate Numeric(c: Column) {
    c.colType == INT || c.colType == REAL
  }

  predicate Distinct(names: seq<string>) {
    forall i, j :: 0 <= i < j < |names| ==> names[i] != names[j]
  }

  /** The dropped columns are distinct, are of the snapshot but not its first,
      and leave at least two. */
  ghost predicate DropsOk(snap: Table, dropped: seq<string>) {
    && Distinct(dropped)
    && (forall i :: 0 <= i < |dropped| ==> OtherColumn(snap, dropped[i]))
    && (dropped != [] ==> |dropped| + 2 <= |snap.columns|)
  }

  predicate OtherColumn(snap: Table, name: string) {
    exists k :: 0 < k < |snap.columns| && snap.columns[k].name == name
  }

  /** The available positions are distinct and of columns not used so far. */
  ghost predicate AvailableOk(snap: Table, b: Batch, available: seq<nat>) {
    && (forall i :: 0 <= i < |available| ==> available[i] < |snap.columns|)
    && (forall i, j :: 0 <= i < j < |available| ==> available[i] != available[j])
    && (forall i :: 0 <= i < |available| ==>
          snap.columns[available[i]].name !in b.dropped && !Changes(b.changes, snap.columns[available[i]].name))
  }

  ghost predicate NamesOk(snap: Table, b: Batch) {
    && (forall i :: 0 <= i < |b.changes| ==> Mentions(snap.columns, b.changes[i].name))
    && (forall i :: 0 <= i < |b.added| ==> !Mentions(snap.columns, b.added[i].name))
    && (forall n :: n in b.dropped ==> !Changes(b.changes, n))
    && DistinctChanges(b.changes)
  }

  ghost predicate DistinctChanges(changes: seq<TypeChange>) {
    forall i, j :: 0 <= i < j < |changes| ==> changes[i].name != changes[j].name
  }

  function Without(xs: seq<nat>, i: nat): seq<nat>
    requires i < |xs|
  {
    xs[..i] + xs[i + 1..]
  }

  // ---- what the turns come down to ----

  predicate Used(b: Batch, name: string) {
    name in b.dropped || Changes(b.changes, name)
  }

  /** The first n columns of the snapshot that no subcommand uses, by position. */
  function Free(snap: Table, b: Batch, n: nat): (free: seq<nat>)
    requires n <= |snap.columns|
    ensures forall i :: 0 <= i < |free| ==> free[i] < n && !Used(b, snap.columns[free[i]].name)
  {
    if n == 0 then []
    else Free(snap, b, n - 1) + if Used(b, snap.columns[n - 1].name) then [] else [n - 1]
  }

  /** Where the first column that may become text stands among those free. */
  function FirstToChange(snap: Table, free: seq<nat>): (i: nat)
    requires forall k :: 0 <= k < |free| ==> free[k] < |snap.columns|
    ensures i <= |free|
  {
    if free == [] || Changeable(snap.columns[free[0]]) then 0 else 1 + FirstToChange(snap, free[1..])
  }

  predicate HasAccessMethod(cs: seq<Subcommand>) {
    exists i :: 0 <= i < |cs| && cs[i].ChangeAccessMethod?
  }

  /** The subcommand a turn adds to those before it, if it adds one. */
  function Given(snap: Table, cs: seq<Subcommand>, turn: Turn, canDropFk: bool): Option<Subcommand> {
    var b := BatchOf(cs);
    var free := Free(snap, b, |snap.columns|);
    match turn
    case TryAdd(column) => Some(AddColumn(column))
    case TryDrop(pick) =>
      if |snap.columns| - |b.dropped| >= 3 && pick < |free| && Droppable(snap, free[pick], canDropFk)
      then Some(DropColumn(snap.columns[free[pick]].name)) else None
    case TryChange =>
      var i := FirstToChange(snap, free);
      if i < |free| then Some(ChangeColumn(TypeChange(snap.columns[free[i]].name, VARCHAR, 32))) else None
    case TryAccessMethod(engine) => if HasAccessMethod(cs) then None else Some(ChangeAccessMethod(engine))
  }

  /** The subcommands of all the turns, until there are as many as wanted. */
  function GivenAll(snap: Table, count: nat, turns: seq<Turn>, canDropFk: bool): seq<Subcommand> {
    if turns == [] then []
    else
      var cs := GivenAll(snap, count, turns[..|turns| - 1], canDropFk);
      if |cs| >= count then cs
      else
        match Given(snap, cs, turns[|turns| - 1], canDropFk)
        case None => cs
        case Some(c) => cs + [c]
  }

  lemma {:induction false} FreeSame(snap: Table, b: Batch, b': Batch, n: nat)
    requires n <= |snap.columns|
    requires forall k :: 0 <= k < n ==> (Used(b, snap.columns[k].name) <==> Used(b', snap.columns[k].name))
    ensures Free(snap, b, n) == Free(snap, b', n)
  {
    if n > 0 {
      FreeSame(snap, b, b', n - 1);
    }
  }

  lemma {:induction false} FreeWithout(snap: Table, b: Batch, b': Batch, n: nat, i: nat)
    requires n <= |snap.columns| && i < |Free(snap, b, n)|
    requires forall k :: 0 <= k < n ==>
      (Used(b', snap.columns[k].name) <==> Used(b, snap.columns[k].name) || k == Free(snap, b, n)[i])
    ensures Free(snap, b', n) == Without(Free(snap, b, n), i)
  {
    if n > 0 {
      var front := Free(snap, b, n - 1);
      if i < |front| {
        FreeWithout(snap, b, b', n - 1, i);
      } else {
        FreeSame(snap, b, b', n - 1);
      }
    }
  }

  /** Once as many are there as wanted, further turns add nothing. */
  lemma {:induction false} GivenEnough(snap: Table, count: nat, turns: seq<Turn>, canDropFk: bool, n: nat)
    requires n <= |turns| && |GivenAll(snap, count, turns[..n], canDropFk)| >= count
    ensures GivenAll(snap, count, turns, canDropFk) == GivenAll(snap, count, turns[..n], canDropFk)
  {
    if n < |turns| {
      assert turns[..|turns| - 1][..n] == turns[..n];
      GivenEnough(snap, count, turns[..|turns| - 1], canDropFk, n);
    } else {
      assert turns[..n] == turns;
    }
  }

  lemma OkIsSeparate(snap: Table, b: Batch)
    requires NamesOk(snap, b) && DropsOk(snap, b.dropped)
    ensures Separate(b) && DistinctChanges(b.changes)
  {
    forall n | n in b.dropped ensures !Mentions(b.added, n) {
      var i :| 0 <= i < |b.dropped| && b.dropped[i] == n;
      assert OtherColumn(snap, n) && Mentions(snap.columns, n);
    }
  }

  lemma ChangesAppend(changes: seq<TypeChange>, tc: TypeChange, name: string)
    ensures Changes(changes + [tc], name) <==> Changes(changes, name) || tc.name == name
  {
    var more := changes + [tc];
    if Changes(changes, name) {
      var i :| 0 <= i < |changes| && changes[i].name == name;
      assert more[i].name == name;
    }
    assert more[|changes|] == tc;
  }

  lemma UseFree(snap: Table, b: Batch, i: nat, c: Subcommand)
    requires Distinct(ColumnNames(snap.columns)) && i < |Free(snap, b, |snap.columns|)|
    requires
      var name := snap.columns[Free(snap, b, |snap.columns|)[i]].name;
      c == DropColumn(name) || (c.ChangeColumn? && c.change.name == name)
    ensures Free(snap, Record(b, c), |snap.columns|) == Without(Free(snap, b, |snap.columns|), i)
  {
    var p, names, b' := Free(snap, b, |snap.columns|)[i], ColumnNames(snap.columns), Record(b, c);
    forall k | 0 <= k < |snap.columns|
      ensures Used(b', snap.columns[k].name) <==> Used(b, snap.columns[k].name) || k == p
    {
      assert k != p ==> names[k] != names[p];
      if c.ChangeColumn? {
        ChangesAppend(b.changes, c.change, names[k]);
      }
    }
    FreeWithout(snap, b, b', |snap.columns|, i);
  }

  /** Using one available column leaves the others available. */
  lemma UseColumn(snap: Table, b: Batch, b': Batch, available: seq<nat>, i: nat)
    requires Distinct(ColumnNames(snap.columns)) && AvailableOk(snap, b, available) && i < |available|
    requires var n := snap.columns[available[i]].name;
             (b' == b.(dropped := b.dropped + [n]))
             || exists tc: TypeChange :: tc.name == n && b' == b.(changes := b.changes + [tc])
    ensures AvailableOk(snap, b', Without(available, i))
  {
    var left := Without(available, i);
    forall k | 0 <= k < |left|
      ensures left[k] < |snap.columns| && left[k] != available[i]
      ensures snap.columns[left[k]].name !in b'.dropped && !Changes(b'.changes, snap.columns[left[k]].name)
    {
      var o := if k < i then k else k + 1;
      assert left[k] == available[o] && available[o] != available[i];
      var names := ColumnNames(snap.columns);
      assert names[available[o]] != names[available[i]];
      assert snap.columns[available[o]].name !in b.dropped && !Changes(b.changes, snap.columns[available[o]].name);
      assert forall j :: 0 <= j < |b.changes| ==> b.changes[j].name != snap.columns[available[o]].name;
    }
  }

  predicate Droppable(snap: Table, k: nat, canDropFk: bool) {
    0 < k < |snap.columns| && (canDropFk || snap.columns[k].fkRef == 0)
  }

  /** Drop a column, but never the first, never one of the last two, and on
      mysql never a referencing one. */
  method DropTurn(snap: Table, b: Batch, available: seq<nat>, pick: nat, canDropFk: bool)
    returns (c: Option<Subcommand>, left: seq<nat>)
    requires Distinct(ColumnNames(snap.columns)) && AvailableOk(snap, b, available)
    requires NamesOk(snap, b) && DropsOk(snap, b.dropped)
    ensures c.Some? <==>
      |snap.columns| - |b.dropped| >= 3 && pick < |available| && Droppable(snap, available[pick], canDropFk)
    ensures c.None? ==> left == available
    ensures c.Some? ==> c.value == DropColumn(snap.columns[available[pick]].name) && left == Without(available, pick)
    ensures c.Some? ==> AvailableOk(snap, Record(b, c.value), left)
    ensures c.Some? ==> NamesOk(snap, Record(b, c.value)) && DropsOk(snap, Record(b, c.value).dropped)
    ensures c.Some? && available == Free(snap, b, |snap.columns|) ==>
      left == Free(snap, Record(b, c.value), |snap.columns|)
  {
    c, left := None, available;
    if |snap.columns| - |b.dropped| >= 3 && pick < |available| {
      var k := available[pick];
      if Droppable(snap, k, canDropFk) {
        c, left := Some(DropColumn(snap.columns[k].name)), Without(available, pick);
        UseColumn(snap, b, Record(b, c.value), available, pick);
        if available == Free(snap, b, |snap.columns|) {
          UseFree(snap, b, pick, c.value);
        }
        assert OtherColumn(snap, snap.columns[k].name);
      }
    }
  }

  /** The change turns a numeric column of the snapshot, neither a key nor a
      reference, into text of length 32. */
  predicate ToText(snap: Table, c: TypeChange) {
    c.colType == VARCHAR && c.length == 32
    && exists k :: 0 <= k < |snap.columns| && Changeable(snap.columns[k]) && snap.columns[k].name == c.name
  }

  /** Turn the first available numeric column into text. */
  method ChangeTurn(snap: Table, b: Batch, available: seq<nat>) returns (c: Option<Subcommand>, left: seq<nat>)
    requires Distinct(ColumnNames(snap.columns)) && AvailableOk(snap, b, available) && NamesOk(snap, b)
    ensures c.None? <==> forall k :: 0 <= k < |available| ==> !Changeable(snap.columns[available[k]])
    ensures c.None? ==> left == available
    ensures c.Some? ==> c.value.ChangeColumn? && ToText(snap, c.value.change)
    ensures c.Some? ==> AvailableOk(snap, Record(b, c.value), left) && NamesOk(snap, Record(b, c.value))
    ensures
      var i := FirstToChange(snap, available);
      if i == |available| then c.None?
      else c == Some(ChangeColumn(TypeChange(snap.columns[available[i]].name, VARCHAR, 32)))
    ensures c.Some? && available == Free(snap, b, |snap.columns|) ==>
      left == Free(snap, Record(b, c.value), |snap.columns|)
  {
    c, left := None, available;
    var i := FirstChangeable(snap, available);
    if i < |available| {
      var tc := TypeChange(snap.columns[available[i]].name, VARCHAR, 32);
      c, left := Some(ChangeColumn(tc)), Without(available, i);
      UseColumn(snap, b, Record(b, c.value), available, i);
      if available == Free(snap, b, |snap.columns|) {
        UseFree(snap, b, i, c.value);
      }
    }
  }

  /** The columns the turns want to add, in order. */
  function Additions(turns: seq<Turn>): seq<Column> {
    if turns == [] then []
    else Additions(turns[..|turns| - 1]) + (var t := turns[|turns| - 1]; if t.TryAdd? then [t.column] else [])
  }

  lemma {:induction false} AdditionsPrefix(turns: seq<Turn>, n: nat)
    requires n <= |turns|
    ensures Additions(turns[..n]) <= Additions(turns)
  {
    if n < |turns| {
      AdditionsPrefix(turns[..|turns| - 1], n);
      assert turns[..|turns| - 1][..n] == turns[..n];
    } else {
      assert turns[..n] == turns;
    }
  }

  predicate PlainColumn(snap: Table, name: string) {
    exists k :: 0 <= k < |snap.columns| && snap.columns[k].name == name && snap.columns[k].fkRef == 0
  }

  predicate OneAccessMethod(cs: seq<Subcommand>, am: bool) {
    && (!am ==> forall i :: 0 <= i < |cs| ==> !cs[i].ChangeAccessMethod?)
    && (forall i, j :: 0 <= i < j < |cs| && cs[i].ChangeAccessMethod? ==> !cs[j].ChangeAccessMethod?)
  }

  /** Every change is to text, and on mysql no reference is dropped. */
  ghost predicate PartsOk(snap: Table, b: Batch, canDropFk: bool) {
    && (forall tc :: tc in b.changes ==> ToText(snap, tc))
    && (!canDropFk ==> forall n :: n in b.dropped ==> PlainColumn(snap, n))
  }

  /** What holds between two turns. */
  ghost predicate EmitOk(snap: Table, cs: seq<Subcommand>, b: Batch, available: seq<nat>, done: seq<Turn>,
          canDropFk: bool, am: bool) {
    && b == BatchOf(cs) && b.added == Additions(done)
    && NamesOk(snap, b) && DropsOk(snap, b.dropped) && AvailableOk(snap, b, available)
    && PartsOk(snap, b, canDropFk) && OneAccessMethod(cs, am)
    && available == Free(snap, b, |snap.columns|) && (am <==> HasAccessMethod(cs))
  }

  /** What one turn adds keeps it so. */
  ghost predicate TurnOk(snap: Table, b: Batch, available: seq<nat>, turn: Turn, canDropFk: bool, am: bool,
          c: Subcommand, left: seq<nat>, am': bool) {
    var b' := Record(b, c);
    && AvailableOk(snap, b', left) && NamesOk(snap, b') && DropsOk(snap, b'.dropped)
    && (turn.TryAdd? <==> c.AddColumn?) && (turn.TryAdd? ==> c.column == turn.column)
    && (c.ChangeColumn? ==> ToText(snap, c.change))
    && (c.DropColumn? && !canDropFk ==> PlainColumn(snap, c.name))
    && (if c.ChangeAccessMethod? then !am && am' else am' == am)
    && left == Free(snap, b', |snap.columns|)
  }

  method TakeTurn(snap: Table, ghost cs: seq<Subcommand>, b: Batch, available: seq<nat>, turn: Turn, canDropFk: bool,
          am: bool)
    returns (c: Option<Subcommand>, left: seq<nat>, am': bool)
    requires b == BatchOf(cs) && available == Free(snap, b, |snap.columns|) && (am <==> HasAccessMethod(cs))
    requires Distinct(ColumnNames(snap.columns)) && AvailableOk(snap, b, available)
    requires NamesOk(snap, b) && DropsOk(snap, b.dropped)
    requires turn.TryAdd? ==> !Mentions(snap.columns, turn.column.name)
    ensures c.Some? ==> TurnOk(snap, b, available, turn, canDropFk, am, c.value, left, am')
    ensures c.None? ==> left == available && am' == am && !turn.TryAdd?
    ensures c == Given(snap, cs, turn, canDropFk)
  {
    c, left, am' := None, available, am;
    match turn {
      case TryAdd(column) =>
        c := Some(AddColumn(column));
        FreeSame(snap, b, Record(b, c.value), |snap.columns|);
      case TryDrop(pick) =>
        c, left := DropTurn(snap, b, available, pick, canDropFk);
      case TryChange =>
        c, left := ChangeTurn(snap, b, available);
      case TryAccessMethod(engine) =>
        if !am {
          c, am' := Some(ChangeAccessMethod(engine)), true;
          FreeSame(snap, b, Record(b, c.value), |snap.columns|);
        }
    }
  }

  lemma EmitSome(snap: Table, cs: seq<Subcommand>, b: Batch, available: seq<nat>, done: seq<Turn>,
          canDropFk: bool, am: bool, turn: Turn, c: Subcommand, left: seq<nat>, am': bool)
    requires EmitOk(snap, cs, b, available, done, canDropFk, am)
    requires TurnOk(snap, b, available, turn, canDropFk, am, c, left, am')
    ensures EmitOk(snap, cs + [c], Record(b, c), left, done + [turn], canDropFk, am')
  {
    AccessMethods(cs, c, am);
    AddedSoFar(cs, b, done, turn, c);
    PartsGrow(snap, b, canDropFk, c);
    hide NamesOk, DropsOk, AvailableOk, ToText, PlainColumn, Free, HasAccessMethod, OneAccessMethod, PartsOk, Additions,
      BatchOf;
  }

  lemma AddedSoFar(cs: seq<Subcommand>, b: Batch, done: seq<Turn>, turn: Turn, c: Subcommand)
    requires b == BatchOf(cs) && b.added == Additions(done)
    requires (turn.TryAdd? <==> c.AddColumn?) && (turn.TryAdd? ==> c.column == turn.column)
    ensures Record(b, c) == BatchOf(cs + [c]) && Record(b, c).added == Additions(done + [turn])
  {
    assert (cs + [c])[..|cs|] == cs && (done + [turn])[..|done|] == done;
  }

  lemma PartsGrow(snap: Table, b: Batch, canDropFk: bool, c: Subcommand)
    requires PartsOk(snap, b, canDropFk) && (c.ChangeColumn? ==> ToText(snap, c.change))
    requires c.DropColumn? && !canDropFk ==> PlainColumn(snap, c.name)
    ensures PartsOk(snap, Record(b, c), canDropFk)
  {
    hide ToText, PlainColumn;
  }

  lemma AccessMethods(cs: seq<Subcommand>, c: Subcommand, am: bool)
    requires OneAccessMethod(cs, am)
    ensures HasAccessMethod(cs + [c]) <==> HasAccessMethod(cs) || c.ChangeAccessMethod?
    ensures c.ChangeAccessMethod? && !am ==> OneAccessMethod(cs + [c], true)
    ensures !c.ChangeAccessMethod? ==> OneAccessMethod(cs + [c], am)
  {
    var more := cs + [c];
    assert more[|cs|] == c && forall i :: 0 <= i < |cs| ==> more[i] == cs[i];
  }

  lemma EmitNone(snap: Table, cs: seq<Subcommand>, b: Batch, available: seq<nat>, done: seq<Turn>,
          canDropFk: bool, am: bool, turn: Turn)
    requires EmitOk(snap, cs, b, available, done, canDropFk, am) && !turn.TryAdd?
    ensures EmitOk(snap, cs, b, available, done + [turn], canDropFk, am)
  {
    hide NamesOk, DropsOk, AvailableOk, PartsOk, OneAccessMethod;
    assert (done + [turn])[..|done|] == done;
  }

  lemma {:induction false} AllFree(snap: Table, n: nat)
    requires n <= |snap.columns|
    ensures Free(snap, Batch([], [], []), n) == seq(n, i => i)
  {
    if n > 0 {
      AllFree(snap, n - 1);
    }
  }

  lemma EmitStart(snap: Table, canDropFk: bool)
    ensures EmitOk(snap, [], Batch([], [], []), seq(|snap.columns|, i => i), [], canDropFk, false)
  {
    AllFree(snap, |snap.columns|);
  }

  /** The loop that draws subcommands until it has as many as it wants, for
      every sequence of turns it may take. Names of new columns are fresh. */
  method Emit(snap: Table, count: nat, turns: seq<Turn>, canDropFk: bool) returns (cs: seq<Subcommand>, b: Batch)
    requires Distinct(ColumnNames(snap.columns))
    requires forall i :: 0 <= i < |turns| && turns[i].TryAdd? ==> !Mentions(snap.columns, turns[i].column.name)
    ensures cs == GivenAll(snap, count, turns, canDropFk)
    ensures b == BatchOf(cs) && Separate(b) && DropsOk(snap, b.dropped) && DistinctChanges(b.changes)
    ensures |cs| <= count
    ensures b.added <= Additions(turns) && (|cs| < count ==> b.added == Additions(turns))
    ensures PartsOk(snap, b, canDropFk) && exists am :: OneAccessMethod(cs, am)
    ensures forall whole: bool, t: Table {:trigger ApplyBatch(t, b, whole)} ::
              ApplyBatch(t, b, whole) == ApplyInOrder(t, cs, whole)
  {
    hide Given, Free, NamesOk, AvailableOk, TurnOk, Additions, ApplyBatch, ApplyInOrder;
    cs, b := [], Batch([], [], []);
    var available: seq<nat> := seq(|snap.columns|, i => i);
    EmitStart(snap, canDropFk);
    var changingAm := false;
    var next := 0;
    while |cs| < count && next < |turns|
      invariant 0 <= next <= |turns| && |cs| <= count
      invariant EmitOk(snap, cs, b, available, turns[..next], canDropFk, changingAm)
      invariant cs == GivenAll(snap, count, turns[..next], canDropFk)
    {
      var turn := turns[next];
      assert turns[..next + 1] == turns[..next] + [turn] && turns[..next + 1][..next] == turns[..next];
      var c, left, am := TakeTurn(snap, cs, b, available, turn, canDropFk, changingAm);
      if c.Some? {
        EmitSome(snap, cs, b, available, turns[..next], canDropFk, changingAm, turn, c.value, left, am);
        b := Record(b, c.value);
        cs := cs + [c.value];
      } else {
        EmitNone(snap, cs, b, available, turns[..next], canDropFk, changingAm, turn);
      }
      available, changingAm, next := left, am, next + 1;
    }
    AdditionsPrefix(turns, next);
    assert next == |turns| ==> turns[..next] == turns;
    if next < |turns| {
      GivenEnough(snap, count, turns, canDropFk, next);
    }
    OkIsSeparate(snap, b);
    forall whole: bool, t: Table ensures ApplyBatch(t, b, whole) == ApplyInOrder(t, cs, whole) {
      BatchIsInOrder(t, cs, whole);
    }
  }

  /** The first available numeric column that is neither a key nor a
      reference. */
  method FirstChangeable(snap: Table, available: seq<nat>) returns (i: nat)
    requires forall k :: 0 <= k < |available| ==> available[k] < |snap.columns|
    ensures i <= |available| && i == FirstToChange(snap, available)
    ensures i < |available| ==> Changeable(snap.columns[available[i]])
    ensures forall k :: 0 <= k < i ==> !Changeable(snap.columns[available[k]])
  {
    i := 0;
    assert available[0..] == available;
    while i < |available| && !Changeable(snap.columns[available[i]])
      invariant i <= |available| && FirstToChange(snap, available) == i + FirstToChange(snap, available[i..])
      invariant forall k :: 0 <= k < i ==> !Changeable(snap.columns[available[k]])
    {
      assert available[i..][1..] == available[i + 1..];
      i := i + 1;
    }
  }

  predicate Changeable(c: Column) {
    Numeric(c) && c.fkRef == 0 && !c.primaryKey
  }

  lemma RemoveSize(cols: seq<Column>, name: string)
    requires Mentions(cols, name)
    ensures |RemoveFirst(cols, name)| == |cols| - 1
    ensures cols[0].name != name ==> RemoveFirst(cols, name) != [] && RemoveFirst(cols, name)[0] == cols[0]
  {
    assert FirstNamed(cols, name) < |cols|;
  }

  lemma {:induction false} DropsKeep(snap: Table, names: seq<string>, whole: bool)
    requires Distinct(names) && snap.columns != []
    requires forall i :: 0 <= i < |names| ==> Mentions(snap.columns, names[i]) && names[i] != snap.columns[0].name
    ensures var d := DropAll(snap, names, whole);
            && |d.columns| == |snap.columns| - |names| && d.columns != [] && d.columns[0] == snap.columns[0]
            && forall n :: Mentions(snap.columns, n) && n !in names ==> Mentions(d.columns, n)
  {
    if names != [] {
      var front, last := names[..|names| - 1], names[|names| - 1];
      DropsKeep(snap, front, whole);
      var d := DropAll(snap, front, whole);
      assert last !in front;
      RemoveSize(d.columns, last);
      forall n | Mentions(snap.columns, n) && n !in names ensures Mentions(DropAll(snap, names, whole).columns, n) {
        assert n !in front && last in names;
        RemoveMentions(d.columns, last, n);
      }
    }
  }

  /** A type change leaves the rest of a column alone. */
  lemma {:induction false} ChangeAllHead(cols: seq<Column>, changes: seq<TypeChange>)
    requires cols != []
    ensures var r := ChangeAll(cols, changes);
            |r| == |cols| && r[0] == cols[0].(colType := r[0].colType, length := r[0].length)
    ensures !Changes(changes, cols[0].name) ==> ChangeAll(cols, changes)[0] == cols[0]
  {
    if changes != [] {
      var front, last := changes[..|changes| - 1], changes[|changes| - 1];
      ChangeAllHead(cols, front);
      assert Changes(front, cols[0].name) ==> Changes(changes, cols[0].name);
    }
  }

  /** On the snapshot, the merge keeps the first column, with its type and length
      unless they are changed by name, which the emitted changes never do to a
      key. It adds and removes as many columns as it says, and never leaves
      fewer than two. */
  lemma BatchKeepsColumns(snap: Table, b: Batch, whole: bool)
    requires Distinct(ColumnNames(snap.columns)) && |snap.columns| >= 2 && DropsOk(snap, b.dropped)
    ensures var r, first := ApplyBatch(snap, b, whole), snap.columns[0];
            && |r.columns| == |snap.columns| - |b.dropped| + |b.added| && |r.columns| >= 2
            && r.columns[0] == first.(colType := r.columns[0].colType, length := r.columns[0].length)
            && (!Changes(b.changes, first.name) ==> r.columns[0] == first)
    ensures snap.columns[0].primaryKey && (forall tc :: tc in b.changes ==> ToText(snap, tc)) ==>
      ApplyBatch(snap, b, whole).columns[0] == snap.columns[0]
  {
    var names := ColumnNames(snap.columns);
    forall i | 0 <= i < |b.dropped|
      ensures Mentions(snap.columns, b.dropped[i]) && b.dropped[i] != snap.columns[0].name
    {
      assert OtherColumn(snap, b.dropped[i]);
      var k :| 0 < k < |snap.columns| && snap.columns[k].name == b.dropped[i];
      assert names[0] != names[k];
    }
    DropsKeep(snap, b.dropped, whole);
    ChangeAllHead(DropAll(snap, b.dropped, whole).columns, b.changes);
    forall tc | tc in b.changes && ToText(snap, tc) && snap.columns[0].primaryKey ensures tc.name != names[0] {
      var k :| 0 <= k < |snap.columns| && Changeable(snap.columns[k]) && snap.columns[k].name == tc.name;
      assert names[k] == tc.name;
    }
  }

  // ---- the merge itself, in place ----

  method Merge(t0: Table, b: Batch, whole: bool) returns (t: Table)
    ensures t == ApplyBatch(t0, b, whole)
  {
    t := MergeDrops(t0, b.dropped, whole);
    var columns := MergeChanges(t.columns, b.changes);
    t := t.(columns := columns + b.added);
  }

  method MergeDrops(t0: Table, names: seq<string>, whole: bool) returns (t: Table)
    ensures t == DropAll(t0, names, whole)
  {
    t := t0;
    for i := 0 to |names|
      invariant t == DropAll(t0, names[..i], whole)
    {
      assert names[..i + 1][..i] == names[..i];
      var columns := EraseNamed(t.columns, names[i]);
      var indexes := EraseFromIndexes(t.indexes, names[i], whole);
      t := t.(columns := columns, indexes := indexes);
    }
    assert names[..|names|] == names;
  }

  method MergeChanges(cols0: seq<Column>, changes: seq<TypeChange>) returns (cols: seq<Column>)
    ensures cols == ChangeAll(cols0, changes)
  {
    cols := cols0;
    for i := 0 to |changes|
      invariant cols == ChangeAll(cols0, changes[..i])
    {
      assert changes[..i + 1][..i] == changes[..i];
      cols := Retype(cols, changes[i]);
    }
    assert changes[..|changes|] == changes;
  }

  method FindNamed(cols: seq<Column>, name: string) returns (i: nat)
    ensures i == FirstNamed(cols, name)
  {
    i := 0;
    while i < |cols| && cols[i].name != name
      invariant i <= |cols| && forall k :: 0 <= k < i ==> cols[k].name != name
    {
      i := i + 1;
    }
    FirstUnique(cols, name, i);
  }

  method EraseNamed(cols: seq<Column>, name: string) returns (r: seq<Column>)
    ensures r == RemoveFirst(cols, name)
  {
    var i := FindNamed(cols, name);
    r := if i < |cols| then RemoveAt(cols, i) else cols;
  }

  method Retype(cols: seq<Column>, c: TypeChange) returns (r: seq<Column>)
    ensures r == ChangeFirst(cols, c)
  {
    var i := FindNamed(cols, c.name);
    r := if i < |cols| then RetypeAt(cols, i, c) else cols;
  }

  /** pg: drop the whole index; mysql: drop the key part, then empty indexes. */
  method EraseFromIndexes(indexes: seq<Index>, name: string, whole: bool) returns (r: seq<Index>)
    ensures r == DropFromIndexes(indexes, name, whole)
  {
    r := [];
    var i := |indexes|;
    while i > 0
      invariant 0 <= i <= |indexes|
      invariant r == DropFromIndexes(indexes[i..], name, whole)
    {
      i := i - 1;
      assert indexes[i..][0] == indexes[i] && indexes[i..][1..] == indexes[i + 1..];
      if whole {
        if !Names(indexes[i], name) {
          r := [indexes[i]] + r;
        }
      } else {
        var left := indexes[i].(fields := WithoutField(indexes[i].fields, name));
        if left.fields != [] {
          r := [left] + r;
        }
      }
    }
    assert indexes[0..] == indexes;
  }
}
