/** Sorted sequences: with distinct keys a sorted order is unique. */
module Sorting {

  /** The order of strings by character, a proper prefix first. */
  predicate StringLe(a: string, b: string) {
    a == "" || (b != "" && (a[0] < b[0] || (a[0] == b[0] && StringLe(a[1..], b[1..]))))
  }

  lemma {:induction false} StringTotal(a: string, b: string)
    ensures StringLe(a, b) || StringLe(b, a)
  {
    if a != "" && b != "" {
      StringTotal(a[1..], b[1..]);
    }
  }

  lemma {:induction false} StringAntisymmetric(a: string, b: string)
    requires StringLe(a, b) && StringLe(b, a)
    ensures a == b
  {
    if a != "" && b != "" {
      StringAntisymmetric(a[1..], b[1..]);
      assert a == [a[0]] + a[1..] && b == [b[0]] + b[1..];
    }
  }

  lemma {:induction false} StringTransitive(a: string, b: string, c: string)
    requires StringLe(a, b) && StringLe(b, c)
    ensures StringLe(a, c)
  {
    if a != "" && a[0] == b[0] == c[0] {
      StringTransitive(a[1..], b[1..], c[1..]);
    }
  }

  ghost predicate DistinctKeys<T(!new)>(xs: seq<T>, key: T -> string) {
    forall i, j :: 0 <= i < j < |xs| ==> key(xs[i]) != key(xs[j])
  }

  ghost predicate SortedBy<T(!new)>(xs: seq<T>, key: T -> string) {
    forall i, j :: 0 <= i < j < |xs| ==> StringLe(key(xs[i]), key(xs[j]))
  }

  /** ys is xs in the order of the keys. */
  ghost predicate SortOf<T(!new)>(xs: seq<T>, ys: seq<T>, key: T -> string) {
    multiset(xs) == multiset(ys) && SortedBy(ys, key)
  }

  ghost predicate SameElements<T(!new)>(xs: seq<T>, ys: seq<T>) {
    forall x :: x in xs <==> x in ys
  }

  lemma HeadIsLeast<T(!new)>(xs: seq<T>, ys: seq<T>, key: T -> string)
    requires xs != [] && ys != [] && SameElements(xs, ys)
    requires DistinctKeys(xs, key) && SortedBy(xs, key) && SortedBy(ys, key)
    ensures xs[0] == ys[0]
  {
    assert ys[0] in ys && xs[0] in xs;
    var i :| 0 <= i < |xs| && xs[i] == ys[0];
    var j :| 0 <= j < |ys| && ys[j] == xs[0];
    assert i == 0 || StringLe(key(xs[0]), key(ys[0]));
    assert j == 0 || StringLe(key(ys[0]), key(xs[0]));
    if i > 0 {
      assert key(xs[0]) != key(xs[i]);
      StringAntisymmetric(key(xs[0]), key(ys[0]));
    }
  }

  lemma TailElement<T(!new)>(xs: seq<T>, key: T -> string, x: T)
    requires xs != [] && DistinctKeys(xs, key)
    ensures x in xs[1..] <==> x in xs && x != xs[0]
  {
    if x in xs {
      var i :| 0 <= i < |xs| && xs[i] == x;
      if i > 0 {
        assert xs[1..][i - 1] == x;
      }
    }
    if x in xs[1..] {
      var i :| 0 <= i < |xs[1..]| && xs[1..][i] == x;
      assert xs[i + 1] == x && key(xs[0]) != key(xs[i + 1]);
    }
  }

  lemma TailElements<T(!new)>(xs: seq<T>, ys: seq<T>, key: T -> string)
    requires xs != [] && ys != [] && xs[0] == ys[0] && SameElements(xs, ys)
    requires DistinctKeys(xs, key) && DistinctKeys(ys, key)
    ensures SameElements(xs[1..], ys[1..])
  {
    forall x ensures x in xs[1..] <==> x in ys[1..] {
      TailElement(xs, key, x);
      TailElement(ys, key, x);
    }
  }

  /** Two sorted sequences with the same elements and distinct keys are equal. */
  lemma {:induction false} SortedUnique<T(!new)>(xs: seq<T>, ys: seq<T>, key: T -> string)
    requires SameElements(xs, ys) && DistinctKeys(xs, key) && DistinctKeys(ys, key)
    requires SortedBy(xs, key) && SortedBy(ys, key)
    ensures xs == ys
    decreases |xs|
  {
    assert xs != [] ==> xs[0] in ys;
    assert ys != [] ==> ys[0] in xs;
    if xs != [] {
      HeadIsLeast(xs, ys, key);
      TailElements(xs, ys, key);
      SortedUnique(xs[1..], ys[1..], key);
      assert xs == [xs[0]] + xs[1..] && ys == [ys[0]] + ys[1..];
    }
  }

  lemma {:induction false} CountOne<T(!new)>(xs: seq<T>, key: T -> string, x: T)
    requires DistinctKeys(xs, key)
    ensures multiset(xs)[x] <= 1
  {
    if xs != [] {
      var front, last := xs[..|xs| - 1], xs[|xs| - 1];
      assert xs == front + [last];
      CountOne(front, key, x);
      forall i | 0 <= i < |front| ensures front[i] != last {
        assert key(xs[i]) != key(xs[|xs| - 1]);
      }
      assert last !in front;
    }
  }

  /** A permutation keeps keys distinct and elements the same. */
  lemma SortKeeps<T(!new)>(xs: seq<T>, ys: seq<T>, key: T -> string)
    requires multiset(xs) == multiset(ys) && DistinctKeys(xs, key)
    ensures SameElements(xs, ys) && DistinctKeys(ys, key) && |xs| == |ys|
  {
    assert |multiset(xs)| == |xs| && |multiset(ys)| == |ys|;
    forall x ensures x in xs <==> x in ys {
      assert x in multiset(xs) <==> x in multiset(ys);
    }
    forall i, j | 0 <= i < j < |ys| ensures key(ys[i]) != key(ys[j]) {
      assert ys[i] in xs && ys[j] in xs;
      var a :| 0 <= a < |xs| && xs[a] == ys[i];
      var b :| 0 <= b < |xs| && xs[b] == ys[j];
      if ys[i] == ys[j] {
        CountOne(xs, key, ys[i]);
        CountTwo(ys, i, j);
      } else {
        assert a != b;
      }
    }
  }

  lemma CountTwo<T>(ys: seq<T>, i: nat, j: nat)
    requires i < j < |ys| && ys[i] == ys[j]
    ensures multiset(ys)[ys[i]] >= 2
  {
    assert ys == ys[..j] + ys[j..];
    assert ys[..j][i] in multiset(ys[..j]) && ys[j..][0] in multiset(ys[j..]);
  }

  /** Sorts of two sequences with the same elements and distinct keys agree. */
  lemma SortsAgree<T(!new)>(xs: seq<T>, xs': seq<T>, ys: seq<T>, ys': seq<T>, key: T -> string)
    requires SortOf(xs, ys, key) && SortOf(xs', ys', key)
    requires DistinctKeys(xs, key) && DistinctKeys(xs', key) && SameElements(xs, xs')
    ensures ys == ys'
  {
    SortKeeps(xs, ys, key);
    SortKeeps(xs', ys', key);
    SortedUnique(ys, ys', key);
  }

  ghost predicate Ascending(xs: seq<nat>) {
    forall i, j :: 0 <= i < j < |xs| ==> xs[i] <= xs[j]
  }

  lemma AscendingHead(xs: seq<nat>, y: nat)
    requires Ascending(xs) && y in multiset(xs)
    ensures xs != [] && xs[0] <= y
  {
    assert y in xs;
  }

  /** Numbers sort in one way even when some are equal. */
  lemma {:induction false} AscendingUnique(xs: seq<nat>, ys: seq<nat>)
    requires multiset(xs) == multiset(ys) && Ascending(xs) && Ascending(ys)
    ensures xs == ys
    decreases |xs|
  {
    SameLength(xs, ys);
    if xs != [] {
      SameHead(xs, ys);
      TailCount(xs);
      TailCount(ys);
      AscendingUnique(xs[1..], ys[1..]);
      assert xs == [xs[0]] + xs[1..] && ys == [ys[0]] + ys[1..];
    }
  }

  lemma SameLength<T>(xs: seq<T>, ys: seq<T>)
    requires multiset(xs) == multiset(ys)
    ensures |xs| == |ys|
  {
    assert |multiset(xs)| == |xs| && |multiset(ys)| == |ys|;
  }

  lemma SameHead(xs: seq<nat>, ys: seq<nat>)
    requires multiset(xs) == multiset(ys) && Ascending(xs) && Ascending(ys) && xs != [] && ys != []
    ensures xs[0] == ys[0]
  {
    assert xs[0] in multiset(xs) && ys[0] in multiset(ys);
    AscendingHead(xs, ys[0]);
    AscendingHead(ys, xs[0]);
  }

  lemma TailCount(xs: seq<nat>)
    requires xs != []
    ensures multiset(xs[1..]) == multiset(xs) - multiset{xs[0]}
  {
    assert xs == [xs[0]] + xs[1..];
  }

  /** The library sort: some order of the elements by key. */
  method Sort<T(!new)>(xs: seq<T>, key: T -> string) returns (ys: seq<T>)
    ensures SortOf(xs, ys, key)
  {
    ys := [];
    for n := 0 to |xs|
      invariant SortOf(xs[..n], ys, key)
    {
      var i := |ys|;
      while i > 0 && !StringLe(key(ys[i - 1]), key(xs[n]))
        invariant 0 <= i <= |ys|
        invariant forall k :: i <= k < |ys| ==> !StringLe(key(ys[k]), key(xs[n]))
      {
        i := i - 1;
      }
      InsertKeepsSorted(ys, xs[n], i, key);
      InsertCount(ys, xs[n], i);
      assert xs[..n + 1] == xs[..n] + [xs[n]];
      ys := ys[..i] + [xs[n]] + ys[i..];
    }
    assert xs[..|xs|] == xs;
  }

  lemma InsertKeepsSorted<T(!new)>(ys: seq<T>, x: T, i: nat, key: T -> string)
    requires SortedBy(ys, key) && i <= |ys|
    requires i > 0 ==> StringLe(key(ys[i - 1]), key(x))
    requires forall k :: i <= k < |ys| ==> !StringLe(key(ys[k]), key(x))
    ensures SortedBy(ys[..i] + [x] + ys[i..], key)
  {
    var zs := ys[..i] + [x] + ys[i..];
    forall a, b | 0 <= a < b < |zs| ensures StringLe(key(zs[a]), key(zs[b])) {
      if b == i {
        if a < i - 1 {
          StringTransitive(key(ys[a]), key(ys[i - 1]), key(x));
        }
      } else if a == i {
        StringTotal(key(ys[b - 1]), key(x));
      } else {
        var a', b' := if a < i then a else a - 1, if b < i then b else b - 1;
        assert zs[a] == ys[a'] && zs[b] == ys[b'];
      }
    }
  }

  method SortNumbers(xs: seq<nat>) returns (ys: seq<nat>)
    ensures multiset(xs) == multiset(ys) && Ascending(ys)
  {
    ys := [];
    for n := 0 to |xs|
      invariant multiset(xs[..n]) == multiset(ys) && Ascending(ys)
    {
      assert xs[..n + 1] == xs[..n] + [xs[n]];
      ys := InsertNumber(ys, xs[n]);
    }
    assert xs[..|xs|] == xs;
  }

  method InsertNumber(ys: seq<nat>, x: nat) returns (zs: seq<nat>)
    requires Ascending(ys)
    ensures Ascending(zs) && multiset(zs) == multiset(ys) + multiset{x}
  {
    var i := |ys|;
    while i > 0 && ys[i - 1] > x
      invariant 0 <= i <= |ys| && forall k :: i <= k < |ys| ==> ys[k] > x
    {
      i := i - 1;
    }
    zs := ys[..i] + [x] + ys[i..];
    InsertKeepsAscending(ys, x, i);
    InsertCount(ys, x, i);
  }

  lemma InsertCount<T>(ys: seq<T>, x: T, i: nat)
    requires i <= |ys|
    ensures multiset(ys[..i] + [x] + ys[i..]) == multiset(ys) + multiset{x}
  {
    assert ys == ys[..i] + ys[i..];
  }

  lemma InsertKeepsAscending(ys: seq<nat>, x: nat, i: nat)
    requires Ascending(ys) && i <= |ys| && (i > 0 ==> ys[i - 1] <= x)
    requires forall k :: i <= k < |ys| ==> ys[k] > x
    ensures Ascending(ys[..i] + [x] + ys[i..])
  {
    var zs := ys[..i] + [x] + ys[i..];
    forall a, b | 0 <= a < b < |zs| ensures zs[a] <= zs[b] {
      var a', b' := if a < i then a else a - 1, if b < i then b else b - 1;
      assert a != i ==> zs[a] == ys[a'];
      assert b != i ==> zs[b] == ys[b'];
      assert b == i ==> ys[a] <= ys[i - 1];
    }
  }
}

/** The id-independent view of a registry (core/src/metadata/table.cpp). */
module Normalization {
  import opened Metadata
  import opened Catalogs
  import opened Sorting

  datatype NColumn = NColumn(column: Column, target: string)

  datatype NTable = NTable(
    name: string,
    engine: string,
    tablespace: string,
    partitioning: Option<RangePartitioning>,
    columns: seq<NColumn>,
    indexes: seq<Index>)

  function ColumnKey(c: NColumn): string { c.column.name }

  function IndexKey(i: Index): string { i.name }

  function TableKey(t: NTable): string { t.name }

  function ResolveTargetName(recs: Records, fk: ObjectId): string {
    if fk == 0 then "" else if fk in recs then recs[fk].name else "#dangling"
  }

  function NormalColumn(recs: Records, c: Column): NColumn {
    NColumn(c.(fkRef := 0), ResolveTargetName(recs, c.fkRef))
  }

  function NormalColumns(recs: Records, cols: seq<Column>): seq<NColumn> {
    seq(|cols|, i requires 0 <= i < |cols| => NormalColumn(recs, cols[i]))
  }

  ghost predicate NormalPartitioning(p: Option<RangePartitioning>, n: Option<RangePartitioning>) {
    match (p, n)
    case (None, None) => true
    case (Some(a), Some(b)) => a.rangeSize == b.rangeSize && multiset(a.ranges) == multiset(b.ranges) &&
      Ascending(b.ranges)
    case _ => false
  }

  /** n is the normal form of one table. */
  ghost predicate NormalTable(recs: Records, t: Table, n: NTable) {
    && n.name == t.name && n.engine == t.engine && n.tablespace == t.tablespace
    && NormalPartitioning(t.partitioning, n.partitioning)
    && SortOf(NormalColumns(recs, t.columns), n.columns, ColumnKey)
    && SortOf(t.indexes, n.indexes, IndexKey)
  }

  /** us lists the normal forms of the tables ts, one by one. */
  ghost predicate NormalTables(recs: Records, ts: seq<Table>, us: seq<NTable>) {
    |us| == |ts| && forall i :: 0 <= i < |ts| ==> NormalTable(recs, ts[i], us[i])
  }

  /** r is what normalize returns on a quiet registry. */
  ghost predicate NormalForm(recs: Records, r: seq<NTable>) {
    exists ts, us :: Enumerates(ts, recs) && NormalTables(recs, ts, us) && SortOf(us, r, TableKey)
  }

  method NormalizeTable(catalog: Catalog, t: Table) returns (n: NTable)
    requires catalog.Valid()
    ensures NormalTable(catalog.Recs(), t, n)
  {
    var cols: seq<NColumn> := [];
    for i := 0 to |t.columns|
      invariant cols == NormalColumns(catalog.Recs(), t.columns[..i])
    {
      var fk := t.columns[i].fkRef;
      var target := "";
      if fk != 0 {
        var rec := catalog.ById(fk);
        target := if rec.None? then "#dangling" else rec.value.name;
      }
      cols := cols + [NColumn(t.columns[i].(fkRef := 0), target)];
    }
    assert t.columns[..|t.columns|] == t.columns;
    cols := Sort(cols, ColumnKey);
    var indexes := Sort(t.indexes, IndexKey);
    var p := t.partitioning;
    if p.Some? {
      var ranges := SortNumbers(p.value.ranges);
      p := Some(p.value.(ranges := ranges));
    }
    n := NTable(t.name, t.engine, t.tablespace, p, cols, indexes);
  }

  method Normalize(catalog: Catalog) returns (r: seq<NTable>)
    requires catalog.Valid()
    ensures NormalForm(catalog.Recs(), r)
  {
    var ts := catalog.SnapshotAll();
    var us: seq<NTable> := [];
    for i := 0 to |ts|
      invariant |us| == i && forall k :: 0 <= k < i ==> NormalTable(catalog.Recs(), ts[k], us[k])
    {
      var n := NormalizeTable(catalog, ts[i]);
      us := us + [n];
    }
    assert NormalTables(catalog.Recs(), ts, us);
    r := Sort(us, TableKey);
  }

  // ---- registries with the same structure ----

  ghost predicate DistinctNames(recs: Records) {
    && (forall a, b :: a in recs && b in recs && recs[a].name == recs[b].name ==> a == b)
    && (forall id :: id in recs ==>
          (forall i, j :: 0 <= i < j < |recs[id].columns| ==> recs[id].columns[i].name != recs[id].columns[j].name)
          && DistinctKeys(recs[id].indexes, IndexKey))
  }

  /** c' is c with its reference carried along by f; a dangling one stays so. */
  ghost predicate ColumnMatches(f: map<ObjectId, ObjectId>, recs': Records, c: Column, c': Column) {
    && c.(fkRef := 0) == c'.(fkRef := 0)
    && (c.fkRef == 0 <==> c'.fkRef == 0)
    && (c.fkRef != 0 && c.fkRef in f ==> c'.fkRef == f[c.fkRef])
    && (c.fkRef != 0 && c.fkRef !in f ==> c'.fkRef !in recs')
  }

  ghost predicate HasMatch(f: map<ObjectId, ObjectId>, recs': Records, c: Column, cols': seq<Column>) {
    exists c' :: c' in cols' && ColumnMatches(f, recs', c, c')
  }

  ghost predicate IsMatch(f: map<ObjectId, ObjectId>, recs': Records, cols: seq<Column>, c': Column) {
    exists c :: c in cols && ColumnMatches(f, recs', c, c')
  }

  ghost predicate TableMatches(f: map<ObjectId, ObjectId>, recs': Records, t: Table, t': Table) {
    && t.name == t'.name && t.engine == t'.engine && t.tablespace == t'.tablespace
    && (match (t.partitioning, t'.partitioning)
        case (None, None) => true
        case (Some(a), Some(b)) => a.rangeSize == b.rangeSize && multiset(a.ranges) == multiset(b.ranges)
        case _ => false)
    && (forall c :: c in t.columns ==> HasMatch(f, recs', c, t'.columns))
    && (forall c' :: c' in t'.columns ==> IsMatch(f, recs', t.columns, c'))
    && SameElements(t.indexes, t'.indexes)
  }

  ghost predicate Bijection(f: map<ObjectId, ObjectId>, ids: set<ObjectId>, ids': set<ObjectId>) {
    && f.Keys == ids
    && (forall id :: id in f ==> f[id] in ids')
    && (forall a, b :: a in f && b in f && f[a] == f[b] ==> a == b)
    && (forall id' :: id' in ids' ==> exists id :: id in f && f[id] == id')
  }

  /** f is a bijection between the ids that carries names, contents and foreign
      keys along; orders may differ. */
  ghost predicate Related(f: map<ObjectId, ObjectId>, recs: Records, recs': Records) {
    && Bijection(f, recs.Keys, recs'.Keys)
    && (forall id :: id in f ==> TableMatches(f, recs', recs[id], recs'[f[id]]))
  }

  lemma MatchNormalizes(f: map<ObjectId, ObjectId>, recs: Records, recs': Records, c: Column, c': Column)
    requires Related(f, recs, recs') && ColumnMatches(f, recs', c, c')
    ensures NormalColumn(recs, c) == NormalColumn(recs', c')
  {
    if c.fkRef != 0 && c.fkRef in f {
      assert TableMatches(f, recs', recs[c.fkRef], recs'[f[c.fkRef]]);
    }
  }

  lemma NormalColumnsElements(recs: Records, cols: seq<Column>)
    ensures forall n :: n in NormalColumns(recs, cols) <==> exists c :: c in cols && NormalColumn(recs, c) == n
  {
    var ns := NormalColumns(recs, cols);
    forall n ensures n in ns <==> exists c :: c in cols && NormalColumn(recs, c) == n {
      if n in ns {
        var i :| 0 <= i < |ns| && ns[i] == n;
        assert cols[i] in cols;
      }
      if c :| c in cols && NormalColumn(recs, c) == n {
        var i :| 0 <= i < |cols| && cols[i] == c;
        assert ns[i] == n;
      }
    }
  }

  lemma ColumnsAgree(f: map<ObjectId, ObjectId>, recs: Records, recs': Records, id: ObjectId)
    requires Related(f, recs, recs') && id in recs
    ensures SameElements(NormalColumns(recs, recs[id].columns), NormalColumns(recs', recs'[f[id]].columns))
  {
    var cols, cols' := recs[id].columns, recs'[f[id]].columns;
    NormalColumnsElements(recs, cols);
    NormalColumnsElements(recs', cols');
    assert TableMatches(f, recs', recs[id], recs'[f[id]]);
    forall n ensures n in NormalColumns(recs, cols) <==> n in NormalColumns(recs', cols') {
      if n in NormalColumns(recs, cols) {
        var c :| c in cols && NormalColumn(recs, c) == n;
        assert HasMatch(f, recs', c, cols');
        var c' :| c' in cols' && ColumnMatches(f, recs', c, c');
        MatchNormalizes(f, recs, recs', c, c');
      }
      if n in NormalColumns(recs', cols') {
        var c' :| c' in cols' && NormalColumn(recs', c') == n;
        assert IsMatch(f, recs', cols, c');
        var c :| c in cols && ColumnMatches(f, recs', c, c');
        MatchNormalizes(f, recs, recs', c, c');
      }
    }
  }

  lemma NormalColumnKeys(recs: Records, cols: seq<Column>)
    requires forall i, j :: 0 <= i < j < |cols| ==> cols[i].name != cols[j].name
    ensures DistinctKeys(NormalColumns(recs, cols), ColumnKey)
  {
  }

  lemma PartitioningAgrees(p: Option<RangePartitioning>, p': Option<RangePartitioning>,
          n: Option<RangePartitioning>, n': Option<RangePartitioning>)
    requires NormalPartitioning(p, n) && NormalPartitioning(p', n')
    requires match (p, p')
             case (None, None) => true
             case (Some(a), Some(b)) => a.rangeSize == b.rangeSize && multiset(a.ranges) == multiset(b.ranges)
             case _ => false
    ensures n == n'
  {
    if p.Some? {
      AscendingUnique(n.value.ranges, n'.value.ranges);
    }
  }

  lemma TablesAgree(f: map<ObjectId, ObjectId>, recs: Records, recs': Records, id: ObjectId, n: NTable, n': NTable)
    requires Related(f, recs, recs') && DistinctNames(recs) && DistinctNames(recs') && id in recs
    requires NormalTable(recs, recs[id], n) && NormalTable(recs', recs'[f[id]], n')
    ensures n == n'
  {
    var t, t' := recs[id], recs'[f[id]];
    assert TableMatches(f, recs', t, t');
    ColumnsAgree(f, recs, recs', id);
    NormalColumnKeys(recs, t.columns);
    NormalColumnKeys(recs', t'.columns);
    SortsAgree(NormalColumns(recs, t.columns), NormalColumns(recs', t'.columns), n.columns, n'.columns, ColumnKey);
    SortsAgree(t.indexes, t'.indexes, n.indexes, n'.indexes, IndexKey);
    PartitioningAgrees(t.partitioning, t'.partitioning, n.partitioning, n'.partitioning);
  }

  /** n is the normal form of the live table id. */
  ghost predicate FormOf(recs: Records, id: ObjectId, n: NTable) {
    id in recs && NormalTable(recs, recs[id], n)
  }

  /** forms gives every live table its normal form, and r lists them. */
  ghost predicate Listed(r: seq<NTable>, forms: map<ObjectId, NTable>) {
    && (forall n :: n in r ==> exists id :: id in forms && forms[id] == n)
    && (forall id :: id in forms ==> forms[id] in r)
  }

  ghost predicate FormsOf(recs: Records, forms: map<ObjectId, NTable>) {
    forms.Keys == recs.Keys && forall id :: id in forms ==> FormOf(recs, id, forms[id])
  }

  lemma Forms(recs: Records, r: seq<NTable>) returns (forms: map<ObjectId, NTable>)
    requires NormalForm(recs, r) && DistinctNames(recs)
    ensures FormsOf(recs, forms) && Listed(r, forms)
    ensures DistinctKeys(r, TableKey) && SortedBy(r, TableKey)
  {
    var ts: seq<Table>, us: seq<NTable> :| Enumerates(ts, recs) && NormalTables(recs, ts, us) &&
      SortOf(us, r, TableKey);
    forall i, j | 0 <= i < j < |us| ensures TableKey(us[i]) != TableKey(us[j]) {
      assert recs[ts[i].id] == ts[i] && recs[ts[j].id] == ts[j];
    }
    SortKeeps(us, r, TableKey);
    forms := FormMap(recs, ts, us);
    forall id | id in forms ensures FormOf(recs, id, forms[id]) {
      var i :| 0 <= i < |ts| && ts[i].id == id && forms[id] == us[i];
      assert recs[ts[i].id] == ts[i];
    }
    forall n | n in r ensures exists id :: id in forms && forms[id] == n {
      assert n in us;
      var i :| 0 <= i < |us| && us[i] == n;
      assert forms[ts[i].id] == n;
    }
  }

  lemma FormMap(recs: Records, ts: seq<Table>, us: seq<NTable>) returns (forms: map<ObjectId, NTable>)
    requires Enumerates(ts, recs) && |us| == |ts|
    ensures forms.Keys == recs.Keys
    ensures forall i :: 0 <= i < |ts| ==> ts[i].id in forms && forms[ts[i].id] == us[i]
    ensures forall id :: id in forms ==> exists i :: 0 <= i < |ts| && ts[i].id == id && forms[id] == us[i]
  {
    forall id | id in recs ensures exists i :: 0 <= i < |ts| && ts[i].id == id {
      assert recs[id] in ts;
      var i :| 0 <= i < |ts| && ts[i] == recs[id];
    }
    forms := map id | id in recs :: var i :| 0 <= i < |ts| && ts[i].id == id; us[i];
    forall i | 0 <= i < |ts| ensures ts[i].id in forms && forms[ts[i].id] == us[i] {
      assert ts[i].id in recs;
    }
  }

  lemma ListsAgree(f: map<ObjectId, ObjectId>, r: seq<NTable>, r': seq<NTable>, forms: map<ObjectId, NTable>,
          forms': map<ObjectId, NTable>)
    requires Bijection(f, forms.Keys, forms'.Keys) && Listed(r, forms) && Listed(r', forms')
    requires forall id :: id in forms ==> forms[id] == forms'[f[id]]
    ensures SameElements(r, r')
  {
    ListedThere(f, r, r', forms, forms');
    ListedBack(f, r, r', forms, forms');
    hide Bijection, Listed;
  }

  lemma ListedThere(f: map<ObjectId, ObjectId>, r: seq<NTable>, r': seq<NTable>, forms: map<ObjectId, NTable>,
          forms': map<ObjectId, NTable>)
    requires Bijection(f, forms.Keys, forms'.Keys) && Listed(r, forms) && Listed(r', forms')
    requires forall id :: id in forms ==> forms[id] == forms'[f[id]]
    ensures forall n :: n in r ==> n in r'
  {
    forall n | n in r ensures n in r' {
      var id :| id in forms && forms[id] == n;
      assert f[id] in forms'.Keys;
      assert forms'[f[id]] in r';
    }
  }

  lemma ListedBack(f: map<ObjectId, ObjectId>, r: seq<NTable>, r': seq<NTable>, forms: map<ObjectId, NTable>,
          forms': map<ObjectId, NTable>)
    requires Bijection(f, forms.Keys, forms'.Keys) && Listed(r, forms) && Listed(r', forms')
    requires forall id :: id in forms ==> forms[id] == forms'[f[id]]
    ensures forall n :: n in r' ==> n in r
  {
    forall n | n in r' ensures n in r {
      var id' :| id' in forms' && forms'[id'] == n;
      assert id' in forms'.Keys;
      var id :| id in f && f[id] == id';
      assert forms[id] in r;
    }
  }

  lemma FormsAgree(f: map<ObjectId, ObjectId>, recs: Records, recs': Records, forms: map<ObjectId, NTable>,
          forms': map<ObjectId, NTable>)
    requires DistinctNames(recs) && DistinctNames(recs') && Related(f, recs, recs')
    requires FormsOf(recs, forms) && FormsOf(recs', forms')
    ensures forall id :: id in forms ==> id in f && f[id] in forms' && forms[id] == forms'[f[id]]
  {
    forall id | id in forms ensures id in f && f[id] in forms' && forms[id] == forms'[f[id]] {
      FormAgrees(f, recs, recs', id, forms, forms');
    }
  }

  lemma FormAgrees(f: map<ObjectId, ObjectId>, recs: Records, recs': Records, id: ObjectId, forms: map<ObjectId,
          NTable>, forms': map<ObjectId, NTable>)
    requires DistinctNames(recs) && DistinctNames(recs') && Related(f, recs, recs') && id in recs
    requires FormsOf(recs, forms) && FormsOf(recs', forms')
    ensures id in f && f[id] in forms' && forms[id] == forms'[f[id]]
  {
    assert f[id] in recs'.Keys;
    assert FormOf(recs, id, forms[id]) && FormOf(recs', f[id], forms'[f[id]]);
    TablesAgree(f, recs, recs', id, forms[id], forms'[f[id]]);
  }

  /** Related registries have equal normal forms, whatever ids and orders they
      use. */
  lemma RelatedNormalizeEqually(f: map<ObjectId, ObjectId>, recs: Records, recs': Records, r: seq<NTable>,
          r': seq<NTable>)
    requires DistinctNames(recs) && DistinctNames(recs') && Related(f, recs, recs')
    requires NormalForm(recs, r) && NormalForm(recs', r')
    ensures r == r'
  {
    var forms := Forms(recs, r);
    var forms' := Forms(recs', r');
    FormsAgree(f, recs, recs', forms, forms');
    ListsAgree(f, r, r', forms, forms');
    SortedUnique(r, r', TableKey);
  }

  // ---- and conversely ----

  /** No table's name reads like no reference, or like a dangling one. */
  ghost predicate PlainNames(recs: Records) {
    forall id :: id in recs ==> recs[id].name !in {"", "#dangling"}
  }

  ghost predicate NameLive(recs: Records, name: string) {
    exists id :: id in recs && recs[id].name == name
  }

  /** Every name of recs is live in recs'. */
  ghost predicate NamesLive(recs: Records, recs': Records) {
    forall id :: id in recs ==> NameLive(recs', recs[id].name)
  }

  /** The id of the table of that name. */
  ghost function IdNamed(recs: Records, name: string): (id: ObjectId)
    requires NameLive(recs, name)
    ensures id in recs && recs[id].name == name
  {
    var id :| id in recs && recs[id].name == name;
    id
  }

  /** Two lists with the same elements pair the ids up by form. */
  lemma PairUp(r: seq<NTable>, forms: map<ObjectId, NTable>, forms': map<ObjectId, NTable>)
    requires Listed(r, forms) && Listed(r, forms')
    ensures forall id :: id in forms ==> exists id' :: id' in forms' && forms'[id'] == forms[id]
  {
    forall id | id in forms ensures exists id' :: id' in forms' && forms'[id'] == forms[id] {
      assert forms[id] in r;
    }
  }

  /** Every live table of recs has a namesake of the same form in recs'. */
  ghost predicate Namesakes(recs: Records, recs': Records, forms: map<ObjectId, NTable>, forms': map<ObjectId,
          NTable>) {
    forms.Keys == recs.Keys && forms'.Keys == recs'.Keys
    && forall id :: id in recs ==> HasNamesake(recs[id].name, forms[id], recs', forms')
  }

  ghost predicate HasNamesake(name: string, form: NTable, recs': Records, forms': map<ObjectId, NTable>) {
    exists id' :: id' in recs' && id' in forms' && recs'[id'].name == name && forms'[id'] == form
  }

  lemma SameNamesLive(recs: Records, recs': Records, forms: map<ObjectId, NTable>, forms': map<ObjectId, NTable>)
    requires FormsOf(recs, forms) && FormsOf(recs', forms')
    requires forall id :: id in forms ==> exists id' :: id' in forms' && forms'[id'] == forms[id]
    ensures Namesakes(recs, recs', forms, forms')
  {
    forall id | id in recs ensures HasNamesake(recs[id].name, forms[id], recs', forms') {
      assert id in forms;
      var id' :| id' in forms' && forms'[id'] == forms[id];
      assert FormOf(recs, id, forms[id]) && FormOf(recs', id', forms'[id']);
    }
  }

  /** Columns with one normal form match under the name bijection. */
  lemma EqualFormsMatch(f: map<ObjectId, ObjectId>, recs: Records, recs': Records, c: Column, c': Column)
    requires NormalColumn(recs, c) == NormalColumn(recs', c')
    requires f.Keys == recs.Keys && DistinctNames(recs')
    requires forall id :: id in f ==> f[id] in recs' && recs'[f[id]].name == recs[id].name
    requires PlainNames(recs) && PlainNames(recs')
    ensures ColumnMatches(f, recs', c, c')
  {
    assert "" != "#dangling";
  }

  lemma FormsMatch(f: map<ObjectId, ObjectId>, recs: Records, recs': Records, id: ObjectId, n: NTable)
    requires f.Keys == recs.Keys && DistinctNames(recs) && DistinctNames(recs')
    requires forall k :: k in f ==> f[k] in recs' && recs'[f[k]].name == recs[k].name
    requires PlainNames(recs) && PlainNames(recs')
    requires id in recs && NormalTable(recs, recs[id], n) && NormalTable(recs', recs'[f[id]], n)
    ensures TableMatches(f, recs', recs[id], recs'[f[id]])
  {
    var t, t' := recs[id], recs'[f[id]];
    NormalColumnKeys(recs, t.columns);
    NormalColumnKeys(recs', t'.columns);
    SortKeeps(NormalColumns(recs, t.columns), n.columns, ColumnKey);
    SortKeeps(NormalColumns(recs', t'.columns), n.columns, ColumnKey);
    SortKeeps(t.indexes, n.indexes, IndexKey);
    SortKeeps(t'.indexes, n.indexes, IndexKey);
    NormalColumnsElements(recs, t.columns);
    NormalColumnsElements(recs', t'.columns);
    forall c | c in t.columns ensures HasMatch(f, recs', c, t'.columns) {
      assert NormalColumn(recs, c) in NormalColumns(recs, t.columns);
      assert NormalColumn(recs, c) in NormalColumns(recs', t'.columns);
      var c' :| c' in t'.columns && NormalColumn(recs', c') == NormalColumn(recs, c);
      EqualFormsMatch(f, recs, recs', c, c');
    }
    forall c' | c' in t'.columns ensures IsMatch(f, recs', t.columns, c') {
      assert NormalColumn(recs', c') in NormalColumns(recs', t'.columns);
      assert NormalColumn(recs', c') in NormalColumns(recs, t.columns);
      var c :| c in t.columns && NormalColumn(recs, c) == NormalColumn(recs', c');
      EqualFormsMatch(f, recs, recs', c, c');
    }
  }

  lemma PairForms(recs: Records, recs': Records, r: seq<NTable>)
    returns (forms: map<ObjectId, NTable>, forms': map<ObjectId, NTable>)
    requires DistinctNames(recs) && DistinctNames(recs') && NormalForm(recs, r) && NormalForm(recs', r)
    ensures FormsOf(recs, forms) && FormsOf(recs', forms')
    ensures Namesakes(recs, recs', forms, forms') && Namesakes(recs', recs, forms', forms)
  {
    forms := Forms(recs, r);
    forms' := Forms(recs', r);
    PairUp(r, forms, forms');
    PairUp(r, forms', forms);
    SameNamesLive(recs, recs', forms, forms');
    SameNamesLive(recs', recs, forms', forms);
  }

  lemma PairNames(recs: Records, recs': Records, forms: map<ObjectId, NTable>, forms': map<ObjectId, NTable>)
    returns (f: map<ObjectId, ObjectId>)
    requires DistinctNames(recs) && DistinctNames(recs')
    requires Namesakes(recs, recs', forms, forms') && Namesakes(recs', recs, forms', forms)
    ensures Bijection(f, recs.Keys, recs'.Keys)
    ensures forall id :: id in f ==> f[id] in recs' && recs'[f[id]].name == recs[id].name
  {
    NamesakesLive(recs, recs', forms, forms');
    NamesakesLive(recs', recs, forms', forms);
    hide Namesakes;
    f := map id | id in recs :: IdNamed(recs', recs[id].name);
    NamesPair(recs, recs', f);
  }

  lemma NamesakesLive(recs: Records, recs': Records, forms: map<ObjectId, NTable>, forms': map<ObjectId, NTable>)
    requires Namesakes(recs, recs', forms, forms')
    ensures NamesLive(recs, recs')
  {
    forall id | id in recs ensures NameLive(recs', recs[id].name) {
      assert HasNamesake(recs[id].name, forms[id], recs', forms');
    }
  }

  /** With plain table names, equal normal forms mean that the registries are
      related, dangling references included. */
  lemma EqualFormsAreRelated(recs: Records, recs': Records, r: seq<NTable>) returns (f: map<ObjectId, ObjectId>)
    requires DistinctNames(recs) && DistinctNames(recs') && NormalForm(recs, r) && NormalForm(recs', r)
    requires PlainNames(recs) && PlainNames(recs')
    ensures Related(f, recs, recs')
  {
    var forms, forms' := PairForms(recs, recs', r);
    f := PairNames(recs, recs', forms, forms');
    forall id | id in f ensures TableMatches(f, recs', recs[id], recs'[f[id]]) {
      TableMatch(f, recs, recs', id, forms, forms');
    }
  }

  lemma TableMatch(f: map<ObjectId, ObjectId>, recs: Records, recs': Records, id: ObjectId, forms: map<ObjectId,
          NTable>, forms': map<ObjectId, NTable>)
    requires DistinctNames(recs) && DistinctNames(recs') && FormsOf(recs, forms) && FormsOf(recs', forms')
    requires PlainNames(recs) && PlainNames(recs')
    requires f.Keys == recs.Keys && forall k :: k in f ==> f[k] in recs' && recs'[f[k]].name == recs[k].name
    requires id in recs && HasNamesake(recs[id].name, forms[id], recs', forms')
    ensures TableMatches(f, recs', recs[id], recs'[f[id]])
  {
    var id' :| id' in recs' && id' in forms' && recs'[id'].name == recs[id].name && forms'[id'] == forms[id];
    assert id' == f[id];
    assert FormOf(recs, id, forms[id]) && FormOf(recs', id', forms'[id']);
    FormsMatch(f, recs, recs', id, forms[id]);
  }

  lemma NamesPair(recs: Records, recs': Records, f: map<ObjectId, ObjectId>)
    requires DistinctNames(recs) && DistinctNames(recs') && f.Keys == recs.Keys
    requires forall id :: id in f ==> f[id] in recs' && recs'[f[id]].name == recs[id].name
    requires NamesLive(recs', recs)
    ensures Bijection(f, recs.Keys, recs'.Keys)
  {
    forall id' | id' in recs'.Keys ensures exists id :: id in f && f[id] == id' {
      assert NameLive(recs, recs'[id'].name);
      var id :| id in recs && recs[id].name == recs'[id'].name;
      assert f[id] == id';
    }
  }

  /** Equal normal forms, exactly: on registries with distinct and plain names,
      they are the related ones. */
  lemma NormalFormsDecide(recs: Records, recs': Records, r: seq<NTable>, r': seq<NTable>)
    requires DistinctNames(recs) && DistinctNames(recs') && NormalForm(recs, r) && NormalForm(recs', r')
    requires PlainNames(recs) && PlainNames(recs')
    ensures r == r' <==> exists f :: Related(f, recs, recs')
  {
    if r == r' {
      var f := EqualFormsAreRelated(recs, recs', r);
    }
    if f :| Related(f, recs, recs') {
      RelatedNormalizeEqually(f, recs, recs', r, r');
    }
  }

  function Selfish(name: string, fk: ObjectId): Table {
    Table(1, 0, name, "", "", None, [Column("a", INT, 0, "", NotGenerated, true, false, false, fk, false)], [])
  }

  lemma OnlyOne<T(!new)>(x: T, ys: seq<T>, key: T -> string)
    requires SortOf([x], ys, key)
    ensures ys == [x]
  {
    assert |multiset(ys)| == |multiset([x])| == 1;
    assert ys[0] in multiset(ys);
  }

  lemma OneTable(t: Table, r: seq<NTable>)
    requires t.id == 1 && NormalForm(map[1 := t], r)
    ensures |r| == 1 && NormalTable(map[1 := t], t, r[0])
  {
    hide NormalTable;
    var recs := map[1 := t];
    var ts: seq<Table>, us: seq<NTable> :|
      Enumerates(ts, recs) && NormalTables(recs, ts, us) && SortOf(us, r, TableKey);
    EnumeratesSize(ts, recs);
    assert ts[0] == t && us == [us[0]];
    OnlyOne(us[0], r, TableKey);
  }

  lemma SelfishForm(name: string, fk: ObjectId, r: seq<NTable>)
    requires NormalForm(map[1 := Selfish(name, fk)], r)
    ensures
      var column := NColumn(Selfish(name, 0).columns[0], ResolveTargetName(map[1 := Selfish(name, fk)], fk));
      r == [NTable(name, "", "", None, [column], [])]
  {
    var t, recs := Selfish(name, fk), map[1 := Selfish(name, fk)];
    OneTable(t, r);
    hide NormalForm, ResolveTargetName, SortedBy;
    var columns := NormalColumns(recs, t.columns);
    assert columns == [columns[0]];
    OnlyOne(columns[0], r[0].columns, ColumnKey);
    assert |multiset(r[0].indexes)| == |multiset(t.indexes)| == 0;
  }

  lemma MatchKept(f: map<ObjectId, ObjectId>, recs: Records, recs': Records, id: ObjectId, c: Column)
    requires Related(f, recs, recs') && id in recs && c in recs[id].columns
    ensures id in f && f[id] in recs' && HasMatch(f, recs', c, recs'[f[id]].columns)
  {
    hide SameElements, IsMatch, HasMatch;
  }

  lemma SelfishRelated(f: map<ObjectId, ObjectId>, name: string, fk: ObjectId)
    requires Related(f, map[1 := Selfish(name, 1)], map[1 := Selfish(name, fk)])
    ensures fk == 1
  {
    hide Related;
    var c := Selfish(name, 1).columns[0];
    MatchKept(f, map[1 := Selfish(name, 1)], map[1 := Selfish(name, fk)], 1, c);
    assert f[1] == 1;
    var c' :| c' in Selfish(name, fk).columns && ColumnMatches(f, map[1 := Selfish(name, fk)], c, c');
  }

  /** A failing input for the other names: a table of that name that refers to
      itself looks like one with no reference, or like one with a dangling one. */
  lemma OtherNamesConfuse(name: string, r: seq<NTable>, r': seq<NTable>)
    requires name in {"", "#dangling"}
    ensures
      var recs, recs' := map[1 := Selfish(name, 1)], map[1 := Selfish(name, if name == "" then 0 else 2)];
      && DistinctNames(recs) && DistinctNames(recs')
      && (NormalForm(recs, r) && NormalForm(recs', r') ==> r == r')
      && !exists f :: Related(f, recs, recs')
  {
    hide NormalForm, Related;
    var fk := if name == "" then 0 else 2;
    if NormalForm(map[1 := Selfish(name, 1)], r) && NormalForm(map[1 := Selfish(name, fk)], r') {
      SelfishForm(name, 1, r);
      SelfishForm(name, fk, r');
    }
    if f :| Related(f, map[1 := Selfish(name, 1)], map[1 := Selfish(name, fk)]) {
      SelfishRelated(f, name, fk);
    }
  }
}
