/** What the ALTER TABLE merge makes of a record, said of the record before and
    the record after alone. */
module Merging {
  import opened Metadata
  import opened AlterTables

  // ---- columns ----

  /** The column keeps all but its type and length, and those too unless a
      change names it. */
  ghost predicate Retyped(after: Column, before: Column, changes: seq<TypeChange>) {
    && (forall c :: c in changes && c.name == before.name ==>
          after == before.(colType := c.colType, length := c.length))
    && ((forall c :: c in changes ==> c.name != before.name) ==> after == before)
  }

  predicate HasName(cols: seq<Column>, name: string) {
    exists i :: 0 <= i < |cols| && cols[i].name == name
  }

  ghost predicate ComesFrom(after: Column, before: seq<Column>, dropped: seq<string>, changes: seq<TypeChange>) {
    exists p :: 0 <= p < |before| && before[p].name == after.name && after.name !in dropped
      && Retyped(after, before[p], changes)
  }

  /** Every column named x stands before every column named y. */
  predicate Ahead(cols: seq<Column>, x: string, y: string) {
    forall p, q :: 0 <= p < |cols| && 0 <= q < |cols| && cols[p].name == x && cols[q].name == y ==> p < q
  }

  /** In the order before, just the columns of other names than the dropped ones
      are left, and just the changed ones are retyped. */
  ghost predicate ColumnsMerged(before: seq<Column>, dropped: seq<string>, changes: seq<TypeChange>,
          after: seq<Column>) {
    && (forall p :: 0 <= p < |before| && before[p].name !in dropped ==> HasName(after, before[p].name))
    && (forall i :: 0 <= i < |after| ==> ComesFrom(after[i], before, dropped, changes))
    && (forall i, j :: 0 <= i < j < |after| ==> Ahead(before, after[i].name, after[j].name))
  }

  ghost predicate DistinctColumns(cols: seq<Column>) {
    forall i, j :: 0 <= i < j < |cols| ==> cols[i].name != cols[j].name
  }

  lemma NothingMerged(cols: seq<Column>)
    requires DistinctColumns(cols)
    ensures ColumnsMerged(cols, [], [], cols)
  {
    forall i | 0 <= i < |cols| ensures ComesFrom(cols[i], cols, [], []) {
      assert Retyped(cols[i], cols[i], []);
    }
    forall i, j | 0 <= i < j < |cols| ensures Ahead(cols, cols[i].name, cols[j].name) {
      DistinctAhead(cols, i, j);
    }
    hide Ahead, ComesFrom, DistinctColumns;
    assert forall p :: 0 <= p < |cols| ==> HasName(cols, cols[p].name);
  }

  lemma DistinctAhead(cols: seq<Column>, i: nat, j: nat)
    requires DistinctColumns(cols) && i < j < |cols|
    ensures Ahead(cols, cols[i].name, cols[j].name)
  {
  }

  lemma MergedDistinct(before: seq<Column>, dropped: seq<string>, changes: seq<TypeChange>, after: seq<Column>)
    requires ColumnsMerged(before, dropped, changes, after)
    ensures DistinctColumns(after)
  {
    forall i, j | 0 <= i < j < |after| ensures after[i].name != after[j].name {
      assert ComesFrom(after[i], before, dropped, changes) && Ahead(before, after[i].name, after[j].name);
    }
  }

  /** A column of another name than the dropped one is still there. */
  lemma RemovedNames(cols: seq<Column>, name: string)
    requires DistinctColumns(cols)
    ensures var r := RemoveFirst(cols, name);
            && |r| <= |cols| && (forall i :: 0 <= i < |r| ==> r[i].name != name)
            && forall n :: n != name && HasName(cols, n) ==> HasName(r, n)
  {
    var f, r := FirstNamed(cols, name), RemoveFirst(cols, name);
    forall n | n != name && HasName(cols, n) ensures HasName(r, n) {
      var k :| 0 <= k < |cols| && cols[k].name == n;
      assert r[if k < f then k else k - 1] == cols[k];
    }
  }

  /** Where the columns left by a drop stood. */
  lemma RemovedAt(cols: seq<Column>, name: string)
    ensures var f, r := FirstNamed(cols, name), RemoveFirst(cols, name);
            forall i :: 0 <= i < |r| ==>
              (if i < f then i else i + 1) < |cols| && r[i] == cols[if i < f then i else i + 1]
  {
  }

  lemma StillComes(after: Column, before: seq<Column>, dropped: seq<string>, name: string)
    requires ComesFrom(after, before, dropped, []) && after.name != name
    ensures ComesFrom(after, before, dropped + [name], [])
  {
  }

  lemma DropComes(before: seq<Column>, dropped: seq<string>, after: seq<Column>, name: string)
    requires DistinctColumns(after)
    requires forall i :: 0 <= i < |after| ==> ComesFrom(after[i], before, dropped, [])
    ensures
      var r := RemoveFirst(after, name);
      forall i :: 0 <= i < |r| ==> ComesFrom(r[i], before, dropped + [name], [])
  {
    RemovedNames(after, name);
    RemovedAt(after, name);
    var f, r := FirstNamed(after, name), RemoveFirst(after, name);
    hide RemoveFirst, FirstNamed, ComesFrom, HasName, DistinctColumns;
    forall i | 0 <= i < |r| ensures ComesFrom(r[i], before, dropped + [name], []) {
      assert ComesFrom(after[if i < f then i else i + 1], before, dropped, []);
      StillComes(r[i], before, dropped, name);
    }
  }

  lemma DropAhead(before: seq<Column>, after: seq<Column>, name: string)
    requires forall i, j :: 0 <= i < j < |after| ==> Ahead(before, after[i].name, after[j].name)
    ensures
      var r := RemoveFirst(after, name);
      forall i, j :: 0 <= i < j < |r| ==> Ahead(before, r[i].name, r[j].name)
  {
    RemovedAt(after, name);
    var f, r := FirstNamed(after, name), RemoveFirst(after, name);
    hide RemoveFirst, FirstNamed, Ahead;
    forall i, j | 0 <= i < j < |r| ensures Ahead(before, r[i].name, r[j].name) {
      var k, l := if i < f then i else i + 1, if j < f then j else j + 1;
      var x, y := r[i], r[j];
      assert x == after[k] && y == after[l];
      assert Ahead(before, after[k].name, after[l].name);
    }
  }

  lemma DropOneMore(before: seq<Column>, dropped: seq<string>, after: seq<Column>, name: string)
    requires ColumnsMerged(before, dropped, [], after)
    ensures ColumnsMerged(before, dropped + [name], [], RemoveFirst(after, name))
  {
    MergedDistinct(before, dropped, [], after);
    RemovedNames(after, name);
    DropComes(before, dropped, after, name);
    DropAhead(before, after, name);
    var r := RemoveFirst(after, name);
    hide RemoveFirst, Ahead, ComesFrom, HasName, DistinctColumns;
    forall p | 0 <= p < |before| && before[p].name !in dropped + [name] ensures HasName(r, before[p].name) {
      assert HasName(after, before[p].name);
    }
  }

  lemma RetypeOneMore(after: Column, before: Column, changes: seq<TypeChange>, c: TypeChange)
    requires Retyped(after, before, changes) && after.name == before.name
    requires forall o :: o in changes ==> o.name != c.name
    ensures c.name != before.name ==> Retyped(after, before, changes + [c])
    ensures c.name == before.name ==>
      Retyped(after.(colType := c.colType, length := c.length), before, changes + [c])
  {
    assert forall o :: o in changes + [c] <==> o in changes || o == c;
    assert c in changes + [c];
  }

  /** What a type change does to each column. */
  lemma ChangedAt(cols: seq<Column>, c: TypeChange)
    requires DistinctColumns(cols)
    ensures var r := ChangeFirst(cols, c);
            |r| == |cols| && forall i :: 0 <= i < |r| ==>
              r[i] == if cols[i].name == c.name then cols[i].(colType := c.colType, length := c.length) else cols[i]
  {
    var f := FirstNamed(cols, c.name);
    assert forall i :: 0 <= i < |cols| && i != f ==> cols[i].name != c.name;
  }

  function ChangeOf(col: Column, c: TypeChange): Column {
    if col.name == c.name then col.(colType := c.colType, length := c.length) else col
  }

  lemma ComesOn(after: Column, before: seq<Column>, dropped: seq<string>, changes: seq<TypeChange>, c: TypeChange)
    requires ComesFrom(after, before, dropped, changes) && forall o :: o in changes ==> o.name != c.name
    ensures ComesFrom(ChangeOf(after, c), before, dropped, changes + [c])
  {
    var p :| 0 <= p < |before| && before[p].name == after.name && after.name !in dropped
      && Retyped(after, before[p], changes);
    RetypeOneMore(after, before[p], changes, c);
  }

  lemma SameNames(a: seq<Column>, b: seq<Column>, name: string)
    requires |a| == |b| && (forall i :: 0 <= i < |a| ==> a[i].name == b[i].name) && HasName(a, name)
    ensures HasName(b, name)
  {
    var k :| 0 <= k < |a| && a[k].name == name;
    assert b[k].name == name;
  }

  lemma ChangeOneMore(before: seq<Column>, dropped: seq<string>, changes: seq<TypeChange>, after: seq<Column>,
          c: TypeChange)
    requires ColumnsMerged(before, dropped, changes, after)
    requires forall o :: o in changes ==> o.name != c.name
    ensures ColumnsMerged(before, dropped, changes + [c], ChangeFirst(after, c))
  {
    MergedDistinct(before, dropped, changes, after);
    ChangedAt(after, c);
    var r := ChangeFirst(after, c);
    assert forall i :: 0 <= i < |r| ==> r[i] == ChangeOf(after[i], c) && r[i].name == after[i].name;
    hide ChangeFirst, Ahead, Retyped, DistinctColumns, ComesFrom, ChangeOf, HasName;
    forall i | 0 <= i < |r| ensures ComesFrom(r[i], before, dropped, changes + [c]) {
      ComesOn(after[i], before, dropped, changes, c);
    }
    forall p | 0 <= p < |before| && before[p].name !in dropped ensures HasName(r, before[p].name) {
      SameNames(after, r, before[p].name);
    }
    forall i, j | 0 <= i < j < |r| ensures Ahead(before, r[i].name, r[j].name) {
      assert Ahead(before, after[i].name, after[j].name);
    }
  }

  lemma {:induction false} DropsMerged(t: Table, dropped: seq<string>, whole: bool)
    requires DistinctColumns(t.columns)
    ensures ColumnsMerged(t.columns, dropped, [], DropAll(t, dropped, whole).columns)
    ensures DropAll(t, dropped, whole) ==
      t.(columns := DropAll(t, dropped, whole).columns, indexes := DropAll(t, dropped, whole).indexes)
  {
    if dropped == [] {
      NothingMerged(t.columns);
    } else {
      var front, last := dropped[..|dropped| - 1], dropped[|dropped| - 1];
      DropsMerged(t, front, whole);
      DropOneMore(t.columns, front, DropAll(t, front, whole).columns, last);
      assert front + [last] == dropped;
    }
  }

  lemma {:induction false} ChangesMerged(before: seq<Column>, dropped: seq<string>, cols: seq<Column>,
          changes: seq<TypeChange>)
    requires ColumnsMerged(before, dropped, [], cols) && DistinctChanges(changes)
    ensures ColumnsMerged(before, dropped, changes, ChangeAll(cols, changes))
  {
    if changes != [] {
      var front, last := changes[..|changes| - 1], changes[|changes| - 1];
      ChangesMerged(before, dropped, cols, front);
      ChangeOneMore(before, dropped, front, ChangeAll(cols, front), last);
      assert front + [last] == changes;
    }
  }

  // ---- indexes ----

  /** Strictly increasing positions below n. */
  predicate Positions(pos: seq<nat>, n: nat) {
    && (forall i :: 0 <= i < |pos| ==> pos[i] < n)
    && (forall i, j :: 0 <= i < j < |pos| ==> pos[i] < pos[j])
  }

  lemma OneMorePosition(pos: seq<nat>, n: nat)
    requires Positions(pos, n)
    ensures Positions(pos + [n], n + 1) && Positions(pos, n + 1) && n !in pos
    ensures forall k :: k in pos + [n] <==> k in pos || k == n
  {
  }

  /** Just the key parts on other columns are left, in order. */
  ghost predicate PartsLeft(before: seq<IndexColumn>, dropped: seq<string>, after: seq<IndexColumn>) {
    exists pos: seq<nat> :: PartsAt(pos, before, dropped, after)
  }

  predicate PartsAt(pos: seq<nat>, before: seq<IndexColumn>, dropped: seq<string>, after: seq<IndexColumn>) {
    && Positions(pos, |before|) && |after| == |pos|
    && (forall i :: 0 <= i < |pos| ==> after[i] == before[pos[i]])
    && (forall k :: 0 <= k < |before| ==> (k in pos <==> before[k].columnName !in dropped))
  }

  predicate OnDropped(idx: Index, dropped: seq<string>) {
    exists i :: 0 <= i < |idx.fields| && idx.fields[i].columnName in dropped
  }

  predicate OnOther(idx: Index, dropped: seq<string>) {
    exists i :: 0 <= i < |idx.fields| && idx.fields[i].columnName !in dropped
  }

  /** With whole, just the indexes on no dropped column are left, unchanged.
      Without it each keeps its other key parts, and goes if none is left. */
  predicate IndexStays(idx: Index, dropped: seq<string>, whole: bool) {
    if whole then !OnDropped(idx, dropped) else dropped == [] || OnOther(idx, dropped)
  }

  ghost predicate IndexMerged(before: Index, dropped: seq<string>, whole: bool, after: Index) {
    if whole then after == before
    else after == before.(fields := after.fields) && PartsLeft(before.fields, dropped, after.fields)
  }

  ghost predicate IndexesAt(pos: seq<nat>, before: seq<Index>, dropped: seq<string>, whole: bool, after: seq<Index>) {
    && Positions(pos, |before|) && |after| == |pos|
    && (forall i :: 0 <= i < |pos| ==> IndexMerged(before[pos[i]], dropped, whole, after[i]))
    && (forall k :: 0 <= k < |before| ==> (k in pos <==> IndexStays(before[k], dropped, whole)))
  }

  ghost predicate IndexesMerged(before: seq<Index>, dropped: seq<string>, whole: bool, after: seq<Index>) {
    exists pos: seq<nat> :: IndexesAt(pos, before, dropped, whole, after)
  }

  // ---- all drops at once ----

  function FieldsLeft(fields: seq<IndexColumn>, dropped: seq<string>): seq<IndexColumn> {
    if fields == [] then []
    else FieldsLeft(fields[..|fields| - 1], dropped)
         + if fields[|fields| - 1].columnName in dropped then [] else [fields[|fields| - 1]]
  }

  lemma {:induction false} FieldsLeftMore(fields: seq<IndexColumn>, dropped: seq<string>, name: string)
    ensures WithoutField(FieldsLeft(fields, dropped), name) == FieldsLeft(fields, dropped + [name])
  {
    if fields != [] {
      FieldsLeftMore(fields[..|fields| - 1], dropped, name);
      var last := fields[|fields| - 1];
      var kept := if last.columnName in dropped then [] else [last];
      WithoutFieldAppend(FieldsLeft(fields[..|fields| - 1], dropped), kept, name);
      assert WithoutField([last], name) == if last.columnName == name then [] else [last];
    }
  }

  lemma {:induction false} WithoutFieldAppend(a: seq<IndexColumn>, b: seq<IndexColumn>, name: string)
    ensures WithoutField(a + b, name) == WithoutField(a, name) + WithoutField(b, name)
  {
    if a == [] {
      assert a + b == b;
    } else {
      assert (a + b)[0] == a[0] && (a + b)[1..] == a[1..] + b;
      WithoutFieldAppend(a[1..], b, name);
    }
  }

  lemma {:induction false} FieldsLeftAll(fields: seq<IndexColumn>)
    ensures FieldsLeft(fields, []) == fields
  {
    if fields != [] {
      FieldsLeftAll(fields[..|fields| - 1]);
    }
  }

  /** One key part more at the end. */
  lemma PartsPush(pos: seq<nat>, before: seq<IndexColumn>, dropped: seq<string>, after: seq<IndexColumn>)
    requires before != [] && PartsAt(pos, before[..|before| - 1], dropped, after)
    ensures
      var n := |before| - 1;
      if before[n].columnName in dropped then PartsAt(pos, before, dropped, after)
      else PartsAt(pos + [n], before, dropped, after + [before[n]])
  {
    OneMorePosition(pos, |before| - 1);
  }

  lemma {:induction false} FieldsLeftAt(fields: seq<IndexColumn>, dropped: seq<string>) returns (pos: seq<nat>)
    ensures PartsAt(pos, fields, dropped, FieldsLeft(fields, dropped))
  {
    pos := [];
    if fields != [] {
      var n := |fields| - 1;
      pos := FieldsLeftAt(fields[..n], dropped);
      PartsPush(pos, fields, dropped, FieldsLeft(fields[..n], dropped));
      hide PartsAt;
      if fields[n].columnName !in dropped {
        pos := pos + [n];
      } else {
        assert FieldsLeft(fields, dropped) == FieldsLeft(fields[..n], dropped);
      }
    }
  }

  function IndexLeft(idx: Index, dropped: seq<string>, whole: bool): Index {
    if whole then idx else idx.(fields := FieldsLeft(idx.fields, dropped))
  }

  function IndexesLeft(indexes: seq<Index>, dropped: seq<string>, whole: bool): seq<Index> {
    if indexes == [] then [] else
    var idx := indexes[|indexes| - 1];
    IndexesLeft(indexes[..|indexes| - 1], dropped, whole)
    + if IndexStays(idx, dropped, whole) then [IndexLeft(idx, dropped, whole)] else []
  }

  lemma StaysExact(idx: Index, dropped: seq<string>)
    ensures OnOther(idx, dropped) <==> FieldsLeft(idx.fields, dropped) != []
  {
    var pos := FieldsLeftAt(idx.fields, dropped);
    if OnOther(idx, dropped) {
      var i :| 0 <= i < |idx.fields| && idx.fields[i].columnName !in dropped;
      assert i in pos;
    }
    assert pos != [] ==> pos[0] in pos;
  }

  /** What one more drop does to one index. */
  lemma OneMore(idx: Index, dropped: seq<string>, name: string, whole: bool)
    ensures
      DropFromIndexes(if IndexStays(idx, dropped, whole) then [IndexLeft(idx, dropped, whole)] else [], name, whole) ==
      if IndexStays(idx, dropped + [name], whole) then [IndexLeft(idx, dropped + [name], whole)] else []
  {
    if whole {
      assert OnDropped(idx, dropped + [name]) <==> OnDropped(idx, dropped) || Names(idx, name);
    } else {
      FieldsLeftMore(idx.fields, dropped, name);
      FieldsLeftAll(idx.fields);
      StaysExact(idx, dropped);
      StaysExact(idx, dropped + [name]);
      assert WithoutField([], name) == [];
    }
  }

  lemma {:induction false} DropFromAppend(a: seq<Index>, b: seq<Index>, name: string, whole: bool)
    ensures DropFromIndexes(a + b, name, whole) == DropFromIndexes(a, name, whole) + DropFromIndexes(b, name, whole)
  {
    if a == [] {
      assert a + b == b;
    } else {
      assert (a + b)[0] == a[0] && (a + b)[1..] == a[1..] + b;
      DropFromAppend(a[1..], b, name, whole);
    }
  }

  lemma {:induction false} IndexesLeftMore(indexes: seq<Index>, dropped: seq<string>, name: string, whole: bool)
    ensures DropFromIndexes(IndexesLeft(indexes, dropped, whole), name, whole) ==
      IndexesLeft(indexes, dropped + [name], whole)
  {
    if indexes != [] {
      var front, idx := indexes[..|indexes| - 1], indexes[|indexes| - 1];
      IndexesLeftMore(front, dropped, name, whole);
      OneMore(idx, dropped, name, whole);
      DropFromAppend(IndexesLeft(front, dropped, whole),
        if IndexStays(idx, dropped, whole) then [IndexLeft(idx, dropped, whole)] else [], name, whole);
    }
  }

  lemma {:induction false} IndexesLeftAll(indexes: seq<Index>, whole: bool)
    ensures IndexesLeft(indexes, [], whole) == indexes
  {
    if indexes != [] {
      IndexesLeftAll(indexes[..|indexes| - 1], whole);
      FieldsLeftAll(indexes[|indexes| - 1].fields);
    }
  }

  lemma {:induction false} DropAllIndexes(t: Table, dropped: seq<string>, whole: bool)
    ensures DropAll(t, dropped, whole).indexes == IndexesLeft(t.indexes, dropped, whole)
  {
    if dropped == [] {
      IndexesLeftAll(t.indexes, whole);
    } else {
      var front, last := dropped[..|dropped| - 1], dropped[|dropped| - 1];
      DropAllIndexes(t, front, whole);
      IndexesLeftMore(t.indexes, front, last, whole);
      assert front + [last] == dropped;
    }
  }

  lemma LeftMerged(idx: Index, dropped: seq<string>, whole: bool)
    ensures IndexMerged(idx, dropped, whole, IndexLeft(idx, dropped, whole))
  {
    var parts := FieldsLeftAt(idx.fields, dropped);
  }

  /** One index more at the end. */
  lemma IndexPush(pos: seq<nat>, before: seq<Index>, dropped: seq<string>, whole: bool, after: seq<Index>, last: Index)
    requires before != [] && IndexesAt(pos, before[..|before| - 1], dropped, whole, after)
    requires IndexMerged(before[|before| - 1], dropped, whole, last)
    ensures
      var n := |before| - 1;
      if IndexStays(before[n], dropped, whole) then IndexesAt(pos + [n], before, dropped, whole, after + [last])
      else IndexesAt(pos, before, dropped, whole, after)
  {
    hide IndexMerged, IndexStays;
    OneMorePosition(pos, |before| - 1);
  }

  lemma {:induction false} IndexesLeftAt(indexes: seq<Index>, dropped: seq<string>, whole: bool) returns (pos: seq<nat>)
    ensures IndexesAt(pos, indexes, dropped, whole, IndexesLeft(indexes, dropped, whole))
  {
    pos := [];
    if indexes != [] {
      var n := |indexes| - 1;
      pos := IndexesLeftAt(indexes[..n], dropped, whole);
      LeftMerged(indexes[n], dropped, whole);
      IndexPush(pos, indexes, dropped, whole, IndexesLeft(indexes[..n], dropped, whole),
        IndexLeft(indexes[n], dropped, whole));
      hide IndexesAt, IndexMerged, IndexStays, IndexLeft;
      if IndexStays(indexes[n], dropped, whole) {
        pos := pos + [n];
      } else {
        assert IndexesLeft(indexes, dropped, whole) == IndexesLeft(indexes[..n], dropped, whole);
      }
    }
  }

  // ---- the merge ----

  /** On a record with distinct column names and for changes of distinct columns,
      the merge leaves exactly the columns and indexes it should, in their order,
      and the new columns after them. */
  lemma MergeExact(t0: Table, b: Batch, whole: bool)
    requires DistinctColumns(t0.columns) && DistinctChanges(b.changes)
    ensures
      var t := ApplyBatch(t0, b, whole);
      var n := |t.columns| - |b.added|;
      && t == t0.(columns := t.columns, indexes := t.indexes)
      && n >= 0 && t.columns[n..] == b.added && ColumnsMerged(t0.columns, b.dropped, b.changes, t.columns[..n])
      && IndexesMerged(t0.indexes, b.dropped, whole, t.indexes)
  {
    var d, t := DropAll(t0, b.dropped, whole), ApplyBatch(t0, b, whole);
    DropsMerged(t0, b.dropped, whole);
    ChangesMerged(t0.columns, b.dropped, d.columns, b.changes);
    assert t.columns[..|t.columns| - |b.added|] == ChangeAll(d.columns, b.changes);
    DropAllIndexes(t0, b.dropped, whole);
    var pos := IndexesLeftAt(t0.indexes, b.dropped, whole);
  }
}
