/** What a transaction buffer means: an overlay of local records and erased ids
    over an unchanged catalog map g, computed from the operation log. */
module OverlaySpec {
  import opened Metadata
  import opened CatalogSpec

  datatype Overlay = Overlay(local: map<ObjectId, Table>, erased: set<ObjectId>)

  const NOTHING := Overlay(map[], {})

  ghost predicate Keyed(m: Records) {
    forall id :: id in m ==> m[id].id == id
  }

  ghost predicate Sane(ov: Overlay) {
    ov.local.Keys !! ov.erased && Keyed(ov.local)
  }

  /** The record a buffered read of id returns. */
  function Lookup(g: Records, ov: Overlay, id: ObjectId): Option<Table> {
    if id in ov.erased then None
    else if id in ov.local then Some(ov.local[id])
    else if id in g then Some(g[id])
    else None
  }

  /** The schema the transaction sees. */
  function Merged(g: Records, ov: Overlay): Records {
    map id | id in g.Keys + ov.local.Keys && Lookup(g, ov, id).Some? :: Lookup(g, ov, id).value
  }

  lemma MergedLookup(g: Records, ov: Overlay)
    ensures forall id :: id in Merged(g, ov) <==> Lookup(g, ov, id).Some?
    ensures forall id :: id in Merged(g, ov) ==> Merged(g, ov)[id] == Lookup(g, ov, id).value
  {
  }

  lemma MergedKeyed(g: Records, ov: Overlay)
    requires Keyed(g) && Sane(ov)
    ensures Keyed(Merged(g, ov))
  {
  }

  /** The overlay after one buffered operation; None when it is refused. */
  function ApplyOp(g: Records, ov: Overlay, op: Op): Option<Overlay> {
    match op
    case InsertOp(rec) =>
      Some(Overlay(ov.local[rec.id := rec], ov.erased - {rec.id}))
    case UpdateOp(id, d) =>
      (match Lookup(g, ov, id)
       case None => None
       case Some(base) =>
         match d(base)
         case None => None
         case Some(t) => Some(ov.(local := ov.local[id := t.(id := id)])))
    case EraseOp(id) =>
      if Lookup(g, ov, id).None? then None
      else Some(Overlay(ov.local - {id}, ov.erased + {id}))
  }

  function Step(g: Records, ov: Overlay, op: Op): Overlay {
    match ApplyOp(g, ov, op)
    case None => ov
    case Some(next) => next
  }

  function Replay(g: Records, log: seq<Op>): Overlay {
    if log == [] then NOTHING
    else Step(g, Replay(g, log[..|log| - 1]), log[|log| - 1])
  }

  lemma ReplayExtend(g: Records, log: seq<Op>, op: Op)
    ensures Replay(g, log + [op]) == Step(g, Replay(g, log), op)
  {
    assert (log + [op])[..|log|] == log;
  }

  lemma {:induction false} ReplaySane(g: Records, log: seq<Op>)
    ensures Sane(Replay(g, log))
  {
    if log != [] {
      ReplaySane(g, log[..|log| - 1]);
    }
  }

  lemma MergedUpdateAt(g: Records, ov: Overlay, next: Overlay, k: ObjectId, v: Option<Table>)
    requires forall j :: Lookup(g, next, j) == if j == k then v else Lookup(g, ov, j)
    ensures Merged(g, next) == if v.Some? then Merged(g, ov)[k := v.value] else Merged(g, ov) - {k}
  {
    MergedLookup(g, ov);
    MergedLookup(g, next);
  }

  /** The merged schema after an operation on the merged schema m. */
  function OnSchema(m: Records, op: Op): Records {
    match op
    case InsertOp(rec) => m[rec.id := rec]
    case UpdateOp(id, d) =>
      if id in m && d(m[id]).Some? then m[id := d(m[id]).value.(id := id)] else m
    case EraseOp(id) => m - {id}
  }

  /** What one operation does to the merged schema. */
  lemma MergedStep(g: Records, ov: Overlay, op: Op)
    requires Sane(ov)
    ensures Merged(g, Step(g, ov, op)) == OnSchema(Merged(g, ov), op)
  {
    MergedLookup(g, ov);
    match op {
      case InsertOp(rec) => MergedUpdateAt(g, ov, Step(g, ov, op), rec.id, Some(rec));
      case EraseOp(id) => MergedUpdateAt(g, ov, Step(g, ov, op), id, None);
      case UpdateOp(id, d) =>
        if id in Merged(g, ov) && d(Merged(g, ov)[id]).Some? {
          MergedUpdateAt(g, ov, Step(g, ov, op), id, Some(d(Merged(g, ov)[id]).value.(id := id)));
        }
    }
  }

  // ---- publishing a log gives the merged schema ----

  function Unversioned(t: Table): Table {
    t.(version := 0)
  }

  function Strip(m: Records): Records {
    map id | id in m :: Unversioned(m[id])
  }

  ghost predicate SameUpToVersion(a: Records, b: Records) {
    a.Keys == b.Keys && forall id :: id in a ==> a[id] == b[id].(version := a[id].version)
  }

  lemma StripSame(a: Records, b: Records)
    requires Strip(a) == Strip(b)
    ensures SameUpToVersion(a, b)
    ensures UniqueNames(a) <==> UniqueNames(b)
  {
    assert Strip(a).Keys == a.Keys && Strip(b).Keys == b.Keys;
    assert forall id :: id in a ==> Strip(a)[id] == Strip(b)[id];
    assert forall id :: id in a ==> a[id].name == b[id].name;
  }

  lemma SameStrip(a: Records, b: Records)
    requires SameUpToVersion(a, b)
    ensures Strip(a) == Strip(b)
  {
  }

  lemma MergedKeys(g: Records, ov: Overlay)
    ensures forall id :: id in Merged(g, ov) <==> Lookup(g, ov, id).Some?
  {
  }

  /** A delta that neither looks at the version nor lets it decide anything. */
  ghost predicate VersionBlind(d: Delta) {
    forall t, u {:trigger d(t), d(u)} :: Unversioned(t) == Unversioned(u) ==>
      match (d(t), d(u))
      case (Some(a), Some(b)) => Unversioned(a) == Unversioned(b)
      case (None, None) => true
      case _ => false
  }

  ghost predicate Blind(op: Op) {
    op.UpdateOp? ==> VersionBlind(op.delta)
  }

  /** An inserted id is a real one and is not live in what the transaction
      sees at that moment. */
  predicate FreshInsert(g: Records, ov: Overlay, op: Op) {
    op.InsertOp? ==> op.rec.id != 0 && Lookup(g, ov, op.rec.id).None?
  }

  ghost predicate Publishable(g: Records, log: seq<Op>) {
    forall i :: 0 <= i < |log| ==> Blind(log[i]) && FreshInsert(g, Replay(g, log[..i]), log[i])
  }

  lemma PublishablePrefix(g: Records, log: seq<Op>, n: nat)
    requires n <= |log| && Publishable(g, log)
    ensures Publishable(g, log[..n])
  {
    forall i | 0 <= i < n
      ensures Blind(log[..n][i]) && FreshInsert(g, Replay(g, log[..n][..i]), log[..n][i])
    {
      assert log[..n][..i] == log[..i];
    }
  }

  lemma PublishStepOn(s: State, m: Records, op: Op)
    requires Sound(s) && SameUpToVersion(s.recs, m)
    requires Blind(op) && (op.InsertOp? ==> op.rec.id != 0 && op.rec.id !in m)
    ensures SameUpToVersion(Apply(s, op).recs, OnSchema(m, op))
  {
    if op.UpdateOp? && op.id in m {
      var a, b := op.delta(s.recs[op.id]), op.delta(m[op.id]);
      assert a.Some? <==> b.Some?;
      if a.Some? {
        assert Unversioned(a.value) == Unversioned(b.value);
      }
    }
  }

  /** One operation keeps catalog and merged schema equal up to versions. */
  lemma PublishStep(s: State, g: Records, ov: Overlay, op: Op)
    requires Sound(s) && Sane(ov)
    requires Strip(s.recs) == Strip(Merged(g, ov))
    requires Blind(op) && FreshInsert(g, ov, op)
    ensures Strip(Apply(s, op).recs) == Strip(Merged(g, Step(g, ov, op)))
  {
    MergedKeys(g, ov);
    MergedStep(g, ov, op);
    StripSame(s.recs, Merged(g, ov));
    PublishStepOn(s, Merged(g, ov), op);
    SameStrip(Apply(s, op).recs, OnSchema(Merged(g, ov), op));
  }

  /** COMMIT turns the catalog into exactly the schema the transaction saw, up
      to versions, whatever the log did: inserts over erased ids, updates of
      its own inserts, refused updates and erases. */
  lemma {:induction false} PublishIsMerged(s: State, log: seq<Op>)
    requires Sound(s) && Publishable(s.recs, log)
    ensures Strip(ApplyAll(s, log).recs) == Strip(Merged(s.recs, Replay(s.recs, log)))
  {
    if log == [] {
      assert Merged(s.recs, NOTHING) == s.recs;
    } else {
      var front, op := log[..|log| - 1], log[|log| - 1];
      PublishablePrefix(s.recs, log, |log| - 1);
      PublishIsMerged(s, front);
      ApplyAllSound(s, front);
      ReplaySane(s.recs, front);
      PublishStep(ApplyAll(s, front), s.recs, Replay(s.recs, front), op);
    }
  }

  /** The condition on inserts is needed, and this is all of it: an insert keeps
      catalog and merged schema equal exactly when its id is real and either
      not live or already carries the same record up to its version. */
  lemma InsertStepExact(s: State, g: Records, ov: Overlay, rec: Table)
    requires Sound(s) && Sane(ov)
    requires Strip(s.recs) == Strip(Merged(g, ov))
    ensures Strip(Apply(s, InsertOp(rec)).recs) == Strip(Merged(g, Step(g, ov, InsertOp(rec))))
       <==> (rec.id != 0 &&
             (Lookup(g, ov, rec.id).None? || Unversioned(Lookup(g, ov, rec.id).value) == Unversioned(rec)))
  {
    var m := Merged(g, ov);
    MergedLookup(g, ov);
    MergedStep(g, ov, InsertOp(rec));
    StripSame(s.recs, m);
    InsertOnExact(s, m, rec);
    if Strip(Insert(s, rec).recs) == Strip(m[rec.id := rec]) {
      StripSame(Insert(s, rec).recs, m[rec.id := rec]);
    } else if SameUpToVersion(Insert(s, rec).recs, m[rec.id := rec]) {
      SameStrip(Insert(s, rec).recs, m[rec.id := rec]);
    }
  }

  lemma InsertOnExact(s: State, m: Records, rec: Table)
    requires Sound(s) && SameUpToVersion(s.recs, m)
    ensures SameUpToVersion(Insert(s, rec).recs, m[rec.id := rec])
       <==> rec.id != 0 && (rec.id !in m || Unversioned(m[rec.id]) == Unversioned(rec))
  {
    assert rec.id in m[rec.id := rec];
  }

  // ---- savepoints ----

  /** Everything the worker can do to a buffer. */
  datatype Command = Do(op: Op) | RollbackTo(mark: nat)

  datatype Buffered = Buffered(log: seq<Op>, ov: Overlay)

  function Min(a: nat, b: nat): nat { if a < b then a else b }

  function Run(g: Records, b: Buffered, c: Command): Buffered {
    match c
    case Do(op) =>
      (match ApplyOp(g, b.ov, op)
       case None => b
       case Some(ov) => Buffered(b.log + [op], ov))
    case RollbackTo(m) =>
      var log := b.log[..Min(m, |b.log|)];
      Buffered(log, Replay(g, log))
  }

  function RunAll(g: Records, b: Buffered, cs: seq<Command>): Buffered {
    if cs == [] then b
    else Run(g, RunAll(g, b, cs[..|cs| - 1]), cs[|cs| - 1])
  }

  ghost predicate Coherent(g: Records, b: Buffered) {
    b.ov == Replay(g, b.log)
  }

  /** No command rewinds below the mark m. */
  predicate StaysAbove(cs: seq<Command>, m: nat) {
    forall i :: 0 <= i < |cs| && cs[i].RollbackTo? ==> m <= cs[i].mark
  }

  lemma {:induction false} RunKeepsPrefix(g: Records, b: Buffered, cs: seq<Command>, m: nat)
    requires Coherent(g, b) && m <= |b.log| && StaysAbove(cs, m)
    ensures Coherent(g, RunAll(g, b, cs))
    ensures m <= |RunAll(g, b, cs).log| && RunAll(g, b, cs).log[..m] == b.log[..m]
  {
    if cs != [] {
      var front, c := cs[..|cs| - 1], cs[|cs| - 1];
      RunKeepsPrefix(g, b, front, m);
      var mid := RunAll(g, b, front);
      if c.Do? {
        ReplayExtend(g, mid.log, c.op);
      }
    }
  }

  /** Rolling back to a mark restores the overlay of the moment the mark was
      taken, whatever was buffered and rolled back above it in between. */
  lemma RollbackRestores(g: Records, b: Buffered, cs: seq<Command>)
    requires Coherent(g, b) && StaysAbove(cs, |b.log|)
    ensures Run(g, RunAll(g, b, cs), RollbackTo(|b.log|)) == b
    ensures Sane(b.ov)
  {
    RunKeepsPrefix(g, b, cs, |b.log|);
    ReplaySane(g, b.log);
    assert b.log[..|b.log|] == b.log;
  }

  // ---- lookup by name ----

  ghost predicate UniqueNames(m: Records) {
    forall a, b :: a in m && b in m && m[a].name == m[b].name ==> a == b
  }

  /** CatalogView::byName inside a transaction. The source scans its local
      records in no particular order, hence a relation. */
  ghost predicate ViewByName(s: State, ov: Overlay, name: string, r: Option<Table>)
    requires Sound(s)
  {
    if exists id :: id in ov.local && ov.local[id].name == name then
      r.Some? && exists id :: id in ov.local && ov.local[id] == r.value && r.value.name == name
    else
      r == match ByName(s, name)
           case None => None
           case Some(rec) => if rec.id in ov.erased || rec.id in ov.local then None else Some(rec)
  }

  /** r is the one record of m that carries the name, or there is none. */
  ghost predicate TheOneNamed(m: Records, name: string, r: Option<Table>) {
    match r
    case Some(rec) => rec.name == name && rec.id in m && m[rec.id] == rec
    case None => forall id :: id in m ==> m[id].name != name
  }

  /** Inside the transaction, byName returns the unique live record carrying
      the name if the catalog's index is complete and the schema seen now has
      no two records of one name. */
  lemma ViewByNameIsTheOne(s: State, ov: Overlay, name: string, r: Option<Table>)
    requires Sound(s) && NamesComplete(s) && Sane(ov)
    requires UniqueNames(Merged(s.recs, ov))
    requires ViewByName(s, ov, name, r)
    ensures TheOneNamed(Merged(s.recs, ov), name, r)
  {
    MergedLookup(s.recs, ov);
  }

  /** An accepted operation that ends in distinct names keeps the index
      complete. */
  lemma ApplyNamesComplete(s: State, op: Op)
    requires Sound(s) && NamesComplete(s) && UniqueNames(Apply(s, op).recs)
    ensures NamesComplete(Apply(s, op))
  {
    ApplySound(s, op);
    if op.UpdateOp? && op.id in s.recs {
      var r := Republished(s.recs[op.id], op.id, op.delta);
      if r.Some? {
        var after := Apply(s, op);
        assert after.recs == s.recs[op.id := r.value];
        forall id | id in after.recs
          ensures after.recs[id].name in after.names && after.names[after.recs[id].name] == id
        {
          if id != op.id {
            assert after.recs[op.id].name != after.recs[id].name;
            assert s.names[s.recs[id].name] == id && s.names[s.recs[op.id].name] == op.id;
          }
        }
      }
    }
  }

  lemma {:induction false} PublishNamesComplete(s: State, log: seq<Op>)
    requires Sound(s) && NamesComplete(s) && Publishable(s.recs, log)
    requires forall i :: 0 <= i <= |log| ==> UniqueNames(Merged(s.recs, Replay(s.recs, log[..i])))
    ensures NamesComplete(ApplyAll(s, log))
  {
    if log != [] {
      var front, op := log[..|log| - 1], log[|log| - 1];
      PublishablePrefix(s.recs, log, |log| - 1);
      forall i | 0 <= i <= |front|
        ensures UniqueNames(Merged(s.recs, Replay(s.recs, front[..i])))
      {
        assert front[..i] == log[..i];
      }
      PublishNamesComplete(s, front);
      ApplyAllSound(s, front);
      PublishIsMerged(s, log);
      assert log[..|log|] == log;
      StripSame(ApplyAll(s, log).recs, Merged(s.recs, Replay(s.recs, log)));
      ApplyNamesComplete(ApplyAll(s, front), op);
    }
  }

  /** If no prefix of the log ever gives two live records one name, then byName
      inside the transaction and byName after COMMIT agree on every name: both
      give the unique live record that carries it. */
  lemma ByNameSurvivesCommit(s: State, log: seq<Op>, name: string, r: Option<Table>)
    requires Sound(s) && NamesComplete(s) && Publishable(s.recs, log)
    requires forall i :: 0 <= i <= |log| ==> UniqueNames(Merged(s.recs, Replay(s.recs, log[..i])))
    requires ViewByName(s, Replay(s.recs, log), name, r)
    ensures Sound(ApplyAll(s, log))
    ensures var after := ByName(ApplyAll(s, log), name);
            TheOneNamed(ApplyAll(s, log).recs, name, after)
    ensures TheOneNamed(Merged(s.recs, Replay(s.recs, log)), name, r)
    ensures var after := ByName(ApplyAll(s, log), name);
            after.Some? == r.Some? &&
            (r.Some? ==> Unversioned(after.value) == Unversioned(r.value))
  {
    ApplyAllSound(s, log);
    ReplaySane(s.recs, log);
    assert log[..|log|] == log;
    ViewByNameIsTheOne(s, Replay(s.recs, log), name, r);
    PublishNamesComplete(s, log);
    PublishIsMerged(s, log);
    StripSame(ApplyAll(s, log).recs, Merged(s.recs, Replay(s.recs, log)));
    var after, m := ApplyAll(s, log), Merged(s.recs, Replay(s.recs, log));
    assert forall id :: id in m ==> after.recs[id].name == m[id].name;
    if r.Some? {
      assert after.names[name] == r.value.id;
    }
  }

  function RenameTo(name: string): Delta {
    (t: Table) => Some(t.(name := name))
  }

  function Alone(a: Table): State {
    State(map[a.id := a], map[a.name := a.id])
  }

  function ClashLog(c: Table, other: string): seq<Op> {
    [InsertOp(c), UpdateOp(c.id, RenameTo(other))]
  }

  lemma ClashReplay(a: Table, c: Table, other: string)
    requires a.id != c.id
    ensures Replay(Alone(a).recs, ClashLog(c, other)[..0]) == NOTHING
    ensures Replay(Alone(a).recs, ClashLog(c, other)[..1]) == Overlay(map[c.id := c], {})
    ensures Replay(Alone(a).recs, ClashLog(c, other)) == Overlay(map[c.id := c.(name := other)], {})
  {
    var g, log := Alone(a).recs, ClashLog(c, other);
    assert log[..0] == [] && log[..1] == [] + [log[0]] && log == [log[0]] + [log[1]];
    ReplayExtend(g, [], log[0]);
    ReplayExtend(g, [log[0]], log[1]);
  }

  lemma ClashPublish(a: Table, c: Table, other: string)
    requires a.id != 0 && c.id != 0 && a.id != c.id && a.name == c.name && other != a.name
    ensures a.name !in ApplyAll(Alone(a), ClashLog(c, other)).names
  {
    var log := ClashLog(c, other);
    assert log == ([] + [log[0]]) + [log[1]];
    ApplyAllExtend(Alone(a), [], log[0]);
    ApplyAllExtend(Alone(a), [] + [log[0]], log[1]);
    var mid := ApplyAll(Alone(a), [] + [log[0]]);
    assert mid.recs[c.id] == c && mid.names == map[a.name := c.id];
  }

  /** The clash need only be transient to break it: a record inserted under A's
      name and then renamed leaves A live but out of the name index, although
      the schema seen in the transaction ends with distinct names. */
  lemma TransientClashLosesName(a: Table, c: Table, other: string)
    requires a.id != 0 && c.id != 0 && a.id != c.id && a.name == c.name && other != a.name
    ensures var s, log := Alone(a), ClashLog(c, other);
            && Sound(s) && NamesComplete(s) && Publishable(s.recs, log)
            && UniqueNames(Merged(s.recs, Replay(s.recs, log)))
            && ViewByName(s, Replay(s.recs, log), a.name, Some(a))
            && Sound(ApplyAll(s, log)) && ByName(ApplyAll(s, log), a.name) == None
  {
    var s, log := Alone(a), ClashLog(c, other);
    ClashReplay(a, c, other);
    ApplyAllSound(s, log);
    assert Publishable(s.recs, log) by {
      assert VersionBlind(RenameTo(other));
    }
    assert UniqueNames(Merged(s.recs, Replay(s.recs, log))) by {
      MergedLookup(s.recs, Replay(s.recs, log));
    }
    ClashPublish(a, c, other);
  }
}

/** The transaction buffer and the view that merges it over the catalog
    (core/include/metadata/context.hpp). */
module TxnBuffers {
  import opened Metadata
  import opened CatalogSpec
  import opened OverlaySpec
  import opened Catalogs

  class TxnBuffer {
    var log: seq<Op>
    var local: map<ObjectId, Table>
    var erased: set<ObjectId>

    ghost function Ov(): Overlay
      reads this
    {
      Overlay(local, erased)
    }

    /** The overlay is the replay of the log over the catalog records g. */
    ghost predicate Valid(g: Records)
      reads this
    {
      Ov() == Replay(g, log)
    }

    constructor ()
      ensures log == [] && Ov() == NOTHING
    {
      log, local, erased := [], map[], {};
    }

    method Mark() returns (m: nat)
      ensures m == |log|
    {
      m := |log|;
    }

    method ApplyInsert(rec: Table)
      modifies this`local, this`erased
      ensures Some(Ov()) == ApplyOp(map[], old(Ov()), InsertOp(rec))
    {
      erased := erased - {rec.id};
      local := local[rec.id := rec];
    }

    method ApplyUpdate(id: ObjectId, delta: Delta, catalog: Catalog) returns (ok: bool)
      requires catalog.Valid()
      modifies this`local
      ensures ok <==> ApplyOp(catalog.Recs(), old(Ov()), UpdateOp(id, delta)).Some?
      ensures Ov() == Step(catalog.Recs(), old(Ov()), UpdateOp(id, delta))
    {
      if id in erased {
        return false;
      }
      var base := LocalById(id);
      if base.None? {
        base := catalog.ById(id);
      }
      if base.None? {
        return false;
      }
      var copy := delta(base.value);
      if copy.None? {
        return false;
      }
      local := local[id := copy.value.(id := id)];
      return true;
    }

    method ApplyErase(id: ObjectId, catalog: Catalog) returns (ok: bool)
      requires catalog.Valid()
      modifies this`local, this`erased
      ensures ok <==> ApplyOp(catalog.Recs(), old(Ov()), EraseOp(id)).Some?
      ensures Ov() == Step(catalog.Recs(), old(Ov()), EraseOp(id))
    {
      if id in erased {
        return false;
      }
      var inCatalog := catalog.ById(id);
      if id !in local && inCatalog.None? {
        return false;
      }
      local := local - {id};
      erased := erased + {id};
      return true;
    }

    /** An accepted operation goes into the log and the overlay, a refused one
        changes nothing. */
    ghost predicate Does(before: seq<Op>, g: Records, op: Op, ok: bool)
      reads this
    {
      && (ok <==> ApplyOp(g, Replay(g, before), op).Some?)
      && log == (if ok then before + [op] else before)
      && Valid(g)
    }

    method Insert(rec: Table, ghost g: Records)
      requires Valid(g)
      modifies this
      ensures Does(old(log), g, InsertOp(rec), true)
    {
      ReplayExtend(g, log, InsertOp(rec));
      ApplyInsert(rec);
      log := log + [InsertOp(rec)];
    }

    method Update(id: ObjectId, delta: Delta, catalog: Catalog) returns (ok: bool)
      requires catalog.Valid() && Valid(catalog.Recs())
      modifies this
      ensures Does(old(log), catalog.Recs(), UpdateOp(id, delta), ok)
    {
      ReplayExtend(catalog.Recs(), log, UpdateOp(id, delta));
      ok := ApplyUpdate(id, delta, catalog);
      if ok {
        log := log + [UpdateOp(id, delta)];
      }
    }

    method Erase(id: ObjectId, catalog: Catalog) returns (ok: bool)
      requires catalog.Valid() && Valid(catalog.Recs())
      modifies this
      ensures Does(old(log), catalog.Recs(), EraseOp(id), ok)
    {
      ReplayExtend(catalog.Recs(), log, EraseOp(id));
      ok := ApplyErase(id, catalog);
      if ok {
        log := log + [EraseOp(id)];
      }
    }

    method RebuildOverlay(catalog: Catalog)
      requires catalog.Valid()
      modifies this`local, this`erased
      ensures Valid(catalog.Recs())
    {
      local, erased := map[], {};
      for i := 0 to |log|
        invariant Ov() == Replay(catalog.Recs(), log[..i])
      {
        assert log[..i + 1] == log[..i] + [log[i]];
        ReplayExtend(catalog.Recs(), log[..i], log[i]);
        match log[i] {
          case InsertOp(rec) => ApplyInsert(rec);
          case UpdateOp(id, delta) => var _ := ApplyUpdate(id, delta, catalog);
          case EraseOp(id) => var _ := ApplyErase(id, catalog);
        }
      }
      assert log[..|log|] == log;
    }

    /** Truncates the log to the mark and rebuilds the overlay, against the
        catalog as it is now. */
    method RollbackTo(m: nat, catalog: Catalog)
      requires catalog.Valid()
      modifies this
      ensures log == old(log)[..Min(m, |old(log)|)]
      ensures Valid(catalog.Recs())
    {
      log := log[..Min(m, |log|)];
      RebuildOverlay(catalog);
    }

    method Discard()
      modifies this
      ensures log == [] && Ov() == NOTHING
    {
      log, local, erased := [], map[], {};
    }

    /** Replays the log through the ordinary catalog calls, whose results are
        ignored, and empties the buffer. */
    method PublishAll(catalog: Catalog)
      requires catalog.Valid()
      modifies this, catalog
      ensures catalog.Valid()
      ensures catalog.Abs() == ApplyAll(old(catalog.Abs()), old(log))
      ensures log == [] && Ov() == NOTHING
    {
      for i := 0 to |log|
        invariant catalog.Valid() && log == old(log)
        invariant catalog.Abs() == ApplyAll(old(catalog.Abs()), log[..i])
      {
        assert log[..i + 1] == log[..i] + [log[i]];
        ApplyAllExtend(old(catalog.Abs()), log[..i], log[i]);
        match log[i] {
          case InsertOp(rec) => var _ := catalog.Insert(rec);
          case UpdateOp(id, delta) => var _ := catalog.Update(id, delta);
          case EraseOp(id) => var _ := catalog.Erase(id);
        }
      }
      assert log[..|log|] == log;
      Discard();
    }

    method LocalById(id: ObjectId) returns (r: Option<Table>)
      ensures r == if id in local then Some(local[id]) else None
    {
      r := if id in local then Some(local[id]) else None;
    }

    /** The source walks a hash map, so any local record of that name may come
        back. */
    method LocalByName(name: string) returns (r: Option<Table>)
      ensures r.None? <==> forall id :: id in local ==> local[id].name != name
      ensures r.Some? ==> exists id :: id in local && local[id] == r.value && r.value.name == name
    {
      var rest := local.Keys;
      while rest != {}
        invariant rest <= local.Keys
        invariant forall id :: id in local && id !in rest ==> local[id].name != name
      {
        var id :| id in rest;
        if local[id].name == name {
          return Some(local[id]);
        }
        rest := rest - {id};
      }
      return None;
    }

    /** The local records in the order of their ids. */
    method LocalSorted() returns (xs: seq<Table>)
      requires Keyed(local)
      ensures Enumerates(xs, local)
      ensures forall i, j :: 0 <= i < j < |xs| ==> xs[i].id < xs[j].id
    {
      xs := [];
      var rest := local.Keys;
      while rest != {}
        invariant rest <= local.Keys
        invariant forall i :: 0 <= i < |xs| ==> xs[i].id in local && xs[i].id !in rest && local[xs[i].id] == xs[i]
        invariant forall id :: id in local && id !in rest ==> local[id] in xs
        invariant forall i, j :: 0 <= i < j < |xs| ==> xs[i].id < xs[j].id
        invariant forall i, id :: 0 <= i < |xs| && id in rest ==> xs[i].id < id
      {
        var id := Least(rest);
        rest := rest - {id};
        xs := xs + [local[id]];
      }
    }
  }

  method Least(ids: set<ObjectId>) returns (least: ObjectId)
    requires ids != {}
    ensures least in ids && forall id :: id in ids ==> least <= id
  {
    least :| least in ids;
    var rest := ids - {least};
    while rest != {}
      invariant rest <= ids && least in ids
      invariant forall id :: id in ids && id !in rest ==> least <= id
    {
      var id :| id in rest;
      rest := rest - {id};
      if id < least {
        least := id;
      }
    }
  }

  /** The records whose ids the buffer neither changed nor erased. */
  method Unshadowed(all: seq<Table>, shadow: set<ObjectId>) returns (xs: seq<Table>)
    requires forall j, k :: 0 <= j < k < |all| ==> all[j].id != all[k].id
    ensures forall r :: r in xs <==> r in all && r.id !in shadow
    ensures forall j, k :: 0 <= j < k < |xs| ==> xs[j].id != xs[k].id
  {
    xs := [];
    for i := 0 to |all|
      invariant forall r :: r in xs <==> r in all[..i] && r.id !in shadow
      invariant forall j, k :: 0 <= j < k < |xs| ==> xs[j].id != xs[k].id
    {
      forall k | 0 <= k < |xs| ensures xs[k].id != all[i].id {
        assert xs[k] in all[..i];
      }
      assert all[..i + 1] == all[..i] + [all[i]];
      if all[i].id !in shadow {
        xs := xs + [all[i]];
      }
    }
    assert all[..|all|] == all;
  }

  /** A catalog with an optional transaction buffer. Without a buffer every
      call goes straight to the catalog. */
  datatype CatalogView = CatalogView(catalog: Catalog, txn: TxnBuffer?) {

    ghost predicate Valid()
      reads catalog, txn
    {
      catalog.Valid() && (txn != null ==> txn.Valid(catalog.Recs()))
    }

    /** The schema the worker sees. */
    ghost function Seen(): Records
      reads catalog, txn
    {
      if txn == null then catalog.Recs() else Merged(catalog.Recs(), txn.Ov())
    }

    method ById(id: ObjectId) returns (r: Option<Table>)
      requires Valid()
      ensures r == if id in Seen() then Some(Seen()[id]) else None
    {
      if txn != null {
        MergedLookup(catalog.Recs(), txn.Ov());
        if id in txn.erased {
          return None;
        }
        r := txn.LocalById(id);
        if r.Some? {
          return;
        }
      }
      r := catalog.ById(id);
    }

    method ByName(name: string) returns (r: Option<Table>)
      requires Valid()
      ensures txn == null ==> r == CatalogSpec.ByName(catalog.Abs(), name)
      ensures txn != null ==> ViewByName(catalog.Abs(), txn.Ov(), name, r)
    {
      if txn == null {
        r := catalog.ByName(name);
        return;
      }
      r := txn.LocalByName(name);
      if r.Some? {
        return;
      }
      r := catalog.ByName(name);
      if r.Some? && (r.value.id in txn.erased || r.value.id in txn.local) {
        r := None;
      }
    }

    method SnapshotAll() returns (xs: seq<Table>)
      requires Valid()
      ensures Enumerates(xs, Seen())
    {
      var all := catalog.SnapshotAll();
      if txn == null {
        return all;
      }
      xs := Unshadowed(all, txn.local.Keys + txn.erased);
      ReplaySane(catalog.Recs(), txn.log);
      var mine := txn.LocalSorted();
      SnapshotMerges(catalog.Recs(), txn.Ov(), all, xs, mine);
      xs := xs + mine;
    }

    method Size() returns (n: nat)
      requires Valid()
      ensures n == |Seen()|
    {
      if txn == null {
        n := catalog.Size();
        return;
      }
      var all := SnapshotAll();
      EnumeratesSize(all, Seen());
      n := |all|;
    }

    /** Any record seen may be picked, and only an empty schema gives none. */
    method RandomPick() returns (r: Option<Table>)
      requires Valid()
      ensures r.None? <==> Seen() == map[]
      ensures r.Some? ==> r.value.id in Seen() && Seen()[r.value.id] == r.value
    {
      if txn == null {
        r := catalog.RandomPick();
        return;
      }
      var all := SnapshotAll();
      if all == [] {
        EnumeratesSize(all, Seen());
        return None;
      }
      assert all[0].id in Seen();
      var idx :| 0 <= idx < |all|;
      return Some(all[idx]);
    }

    method Insert(obj: Table) returns (ok: bool)
      requires Valid()
      modifies catalog, txn
      ensures Valid()
      ensures txn == null ==> catalog.Abs() == CatalogSpec.Insert(old(catalog.Abs()), obj)
      ensures txn == null ==> (ok <==> obj.id != 0 && obj.id !in old(catalog.Recs()))
      ensures txn != null ==> catalog.Abs() == old(catalog.Abs()) && (ok <==> obj.id != 0)
      ensures txn != null && ok ==>
        Seen() == OnSchema(old(Seen()), InsertOp(obj)) && txn.log == old(txn.log) + [InsertOp(obj)]
      ensures txn != null && !ok ==> txn.log == old(txn.log) && Seen() == old(Seen())
    {
      if txn == null {
        ok := catalog.Insert(obj);
        return;
      }
      if obj.id == 0 {
        return false;
      }
      ReplaySane(catalog.Recs(), txn.log);
      MergedStep(catalog.Recs(), txn.Ov(), InsertOp(obj));
      ReplayExtend(catalog.Recs(), txn.log, InsertOp(obj));
      txn.Insert(obj, catalog.Recs());
      return true;
    }

    method Update(id: ObjectId, delta: Delta) returns (ok: bool)
      requires Valid()
      modifies catalog, txn
      ensures Valid()
      ensures ok <==> id in old(Seen()) && delta(old(Seen())[id]).Some?
      ensures txn == null ==> catalog.Abs() == CatalogSpec.Update(old(catalog.Abs()), id, delta)
      ensures txn != null ==> catalog.Abs() == old(catalog.Abs())
      ensures txn != null ==> Seen() == OnSchema(old(Seen()), UpdateOp(id, delta))
      ensures txn != null ==> txn.log == old(txn.log) + if ok then [UpdateOp(id, delta)] else []
    {
      if txn == null {
        ok := catalog.Update(id, delta);
        return;
      }
      ReplaySane(catalog.Recs(), txn.log);
      MergedLookup(catalog.Recs(), txn.Ov());
      MergedStep(catalog.Recs(), txn.Ov(), UpdateOp(id, delta));
      ReplayExtend(catalog.Recs(), txn.log, UpdateOp(id, delta));
      ok := txn.Update(id, delta, catalog);
    }

    method Erase(id: ObjectId) returns (ok: bool)
      requires Valid()
      modifies catalog, txn
      ensures Valid()
      ensures ok <==> id in old(Seen())
      ensures txn == null ==> catalog.Abs() == CatalogSpec.Erase(old(catalog.Abs()), id)
      ensures txn != null ==> catalog.Abs() == old(catalog.Abs())
      ensures txn != null ==> Seen() == OnSchema(old(Seen()), EraseOp(id))
      ensures txn != null ==> txn.log == old(txn.log) + if ok then [EraseOp(id)] else []
    {
      if txn == null {
        ok := catalog.Erase(id);
        return;
      }
      ReplaySane(catalog.Recs(), txn.log);
      MergedLookup(catalog.Recs(), txn.Ov());
      MergedStep(catalog.Recs(), txn.Ov(), EraseOp(id));
      ReplayExtend(catalog.Recs(), txn.log, EraseOp(id));
      ok := txn.Erase(id, catalog);
    }
  }

  /** Catalog records that are neither erased nor local, followed by the local
      ones, list the merged schema. */
  lemma SnapshotMerges(g: Records, ov: Overlay, all: seq<Table>, kept: seq<Table>, mine: seq<Table>)
    requires Enumerates(all, g) && Enumerates(mine, ov.local) && Sane(ov)
    requires forall k :: 0 <= k < |kept| ==> kept[k] in all && kept[k].id !in ov.erased && kept[k].id !in ov.local
    requires forall k :: 0 <= k < |all| && all[k].id !in ov.erased && all[k].id !in ov.local ==> all[k] in kept
    requires forall j, k :: 0 <= j < k < |kept| ==> kept[j].id != kept[k].id
    ensures Enumerates(kept + mine, Merged(g, ov))
  {
    MergedLookup(g, ov);
    var xs, m := kept + mine, Merged(g, ov);
    forall i | 0 <= i < |xs| ensures xs[i].id in m && m[xs[i].id] == xs[i] {
      if i < |kept| {
        assert kept[i] in all;
        var k :| 0 <= k < |all| && all[k] == kept[i];
      } else {
        assert mine[i - |kept|] == xs[i];
      }
    }
    forall id | id in m ensures m[id].id == id && m[id] in xs {
      if id in ov.local {
        assert m[id] in mine;
      } else {
        assert g[id] in all;
        var k :| 0 <= k < |all| && all[k] == g[id];
        assert all[k] in kept;
      }
    }
  }
}
