/** What the catalog means, without its sampling vector: a map from ids to
    records and a "last publish wins" map from names to ids. */
module CatalogSpec {
  import opened Metadata

  datatype State = State(recs: map<ObjectId, Table>, names: map<string, ObjectId>)

  const EMPTY := State(map[], map[])

  /** One published change, as the transaction log stores it. */
  datatype Op = InsertOp(rec: Table) | UpdateOp(id: ObjectId, delta: Delta) | EraseOp(id: ObjectId)

  /** Records sit under their own non-zero id, and every name entry leads to a
      live record that carries that name. */
  ghost predicate Sound(s: State) {
    && (forall id :: id in s.recs ==> id != 0 && s.recs[id].id == id)
    && (forall n :: n in s.names ==> s.names[n] in s.recs && s.recs[s.names[n]].name == n)
  }

  function Insert(s: State, rec: Table): State {
    if rec.id == 0 || rec.id in s.recs then s
    else State(s.recs[rec.id := rec], s.names[rec.name := rec.id])
  }

  /** The record an accepted update publishes: the delta can change neither the
      id nor the version, which goes up by one. */
  function Republished(cur: Table, id: ObjectId, d: Delta): Option<Table> {
    match d(cur)
    case None => None
    case Some(t) => Some(t.(id := id, version := cur.version + 1))
  }

  function Unname(names: map<string, ObjectId>, name: string, id: ObjectId): map<string, ObjectId> {
    if name in names && names[name] == id then names - {name} else names
  }

  function Update(s: State, id: ObjectId, d: Delta): State {
    if id !in s.recs then s else
    var cur := s.recs[id];
    match Republished(cur, id, d)
    case None => s
    case Some(rec) =>
      State(
        s.recs[id := rec],
        if rec.name != cur.name then Unname(s.names, cur.name, id)[rec.name := id] else s.names)
  }

  function Erase(s: State, id: ObjectId): State {
    if id !in s.recs then s
    else State(s.recs - {id}, Unname(s.names, s.recs[id].name, id))
  }

  function Apply(s: State, op: Op): State {
    match op
    case InsertOp(rec) => Insert(s, rec)
    case UpdateOp(id, d) => Update(s, id, d)
    case EraseOp(id) => Erase(s, id)
  }

  function ApplyAll(s: State, ops: seq<Op>): State {
    if ops == [] then s
    else Apply(ApplyAll(s, ops[..|ops| - 1]), ops[|ops| - 1])
  }

  lemma ApplyAllExtend(s: State, ops: seq<Op>, op: Op)
    ensures ApplyAll(s, ops + [op]) == Apply(ApplyAll(s, ops), op)
  {
    assert (ops + [op])[..|ops|] == ops;
  }

  function ByName(s: State, name: string): Option<Table>
    requires Sound(s)
  {
    if name in s.names then Some(s.recs[s.names[name]]) else None
  }

  lemma ApplySound(s: State, op: Op)
    requires Sound(s)
    ensures Sound(Apply(s, op))
  {
  }

  lemma {:induction false} ApplyAllSound(s: State, ops: seq<Op>)
    requires Sound(s)
    ensures Sound(ApplyAll(s, ops))
  {
    if ops != [] {
      ApplyAllSound(s, ops[..|ops| - 1]);
      ApplySound(ApplyAll(s, ops[..|ops| - 1]), ops[|ops| - 1]);
    }
  }

  // ---- the name index, exactly ----

  /** A catalog call, in any order and number. */
  datatype Call = Publish(op: Op) | Reset

  /** A catalog together with a log of claims: claims[n] is the record that
      last took the name n by an insert or a rename, live or not. */
  datatype Traced = Traced(state: State, claims: map<string, ObjectId>)

  /** The name an accepted call takes for a record, if it takes one. */
  function Claim(s: State, op: Op): Option<(string, ObjectId)> {
    match op
    case InsertOp(rec) =>
      if rec.id == 0 || rec.id in s.recs then None else Some((rec.name, rec.id))
    case UpdateOp(id, d) =>
      if id !in s.recs then None else
      (match Republished(s.recs[id], id, d)
       case None => None
       case Some(rec) => if rec.name == s.recs[id].name then None else Some((rec.name, id)))
    case EraseOp(_) => None
  }

  function Trace(t: Traced, call: Call): Traced {
    match call
    case Reset => t.(state := EMPTY)
    case Publish(op) =>
      Traced(
        Apply(t.state, op),
        match Claim(t.state, op)
        case None => t.claims
        case Some((n, id)) => t.claims[n := id])
  }

  function TraceAll(t: Traced, calls: seq<Call>): Traced {
    if calls == [] then t
    else Trace(TraceAll(t, calls[..|calls| - 1]), calls[|calls| - 1])
  }

  /** The record that last claimed n is live and still carries it. */
  predicate HeldByClaimant(t: Traced, n: string) {
    n in t.claims && t.claims[n] in t.state.recs && t.state.recs[t.claims[n]].name == n
  }

  ghost predicate NamesExact(t: Traced) {
    && Sound(t.state)
    && (forall n :: n in t.state.names <==> HeldByClaimant(t, n))
    && (forall n :: n in t.state.names ==> t.state.names[n] == t.claims[n])
  }

  lemma TraceNamesExact(t: Traced, call: Call)
    requires NamesExact(t)
    ensures NamesExact(Trace(t, call))
  {
    if call.Publish? {
      ApplySound(t.state, call.op);
    }
  }

  lemma {:induction false} TraceAllNamesExact(t: Traced, calls: seq<Call>)
    requires NamesExact(t)
    ensures NamesExact(TraceAll(t, calls))
  {
    if calls != [] {
      TraceAllNamesExact(t, calls[..|calls| - 1]);
      TraceNamesExact(TraceAll(t, calls[..|calls| - 1]), calls[|calls| - 1]);
    }
  }

  /** After any history of calls, resets included, a name is in the index
      exactly when the record that last claimed it is live and still carries
      it, and then the entry leads to that record. */
  lemma NameIndexIsLastClaim(calls: seq<Call>, n: string)
    ensures var t := TraceAll(Traced(EMPTY, map[]), calls);
            && Sound(t.state)
            && (n in t.state.names <==> HeldByClaimant(t, n))
            && (n in t.state.names ==> t.state.names[n] == t.claims[n])
  {
    TraceAllNamesExact(Traced(EMPTY, map[]), calls);
  }

  /** Every live record can be found by its name. */
  ghost predicate NamesComplete(s: State) {
    forall id :: id in s.recs ==> s.recs[id].name in s.names && s.names[s.recs[id].name] == id
  }

  function Calls(ops: seq<Op>): seq<Call> {
    seq(|ops|, i requires 0 <= i < |ops| => Publish(ops[i]))
  }

  lemma {:induction false} TraceCalls(t: Traced, ops: seq<Op>)
    ensures TraceAll(t, Calls(ops)).state == ApplyAll(t.state, ops)
  {
    if ops != [] {
      assert Calls(ops)[..|ops| - 1] == Calls(ops[..|ops| - 1]);
      TraceCalls(t, ops[..|ops| - 1]);
    }
  }

  /** After a log is published over a complete index, every live record can be
      found by its name exactly when no other record took that name after it. */
  lemma CompleteIffLastClaim(s: State, ops: seq<Op>)
    requires Sound(s) && NamesComplete(s)
    ensures var t := TraceAll(Traced(s, s.names), Calls(ops));
            && t.state == ApplyAll(s, ops)
            && (NamesComplete(t.state) <==>
                forall id :: id in t.state.recs ==>
                  t.state.recs[id].name in t.claims && t.claims[t.state.recs[id].name] == id)
  {
    TraceCalls(Traced(s, s.names), ops);
    TraceAllNamesExact(Traced(s, s.names), Calls(ops));
    var t := TraceAll(Traced(s, s.names), Calls(ops));
    assert forall id ::
        (id in t.state.recs && t.state.recs[id].name in t.claims && t.claims[t.state.recs[id].name] == id
         ==> HeldByClaimant(t, t.state.recs[id].name));
  }
}

/** The catalog as it is stored (core/include/metadata/catalog.hpp): slots, each
    with its position in a sampling vector that swap-remove keeps dense. */
module Catalogs {
  import opened Metadata
  import Spec = CatalogSpec

  datatype Slot = Slot(rec: Table, pos: nat)

  /** xs lists the records of m, each exactly once. */
  ghost predicate Enumerates(xs: seq<Table>, m: map<ObjectId, Table>) {
    && (forall i :: 0 <= i < |xs| ==> xs[i].id in m && m[xs[i].id] == xs[i])
    && (forall i, j :: 0 <= i < j < |xs| ==> xs[i].id != xs[j].id)
    && (forall id :: id in m ==> m[id].id == id && m[id] in xs)
  }

  function Elements(ids: seq<ObjectId>): set<ObjectId> {
    set id | id in ids
  }

  lemma {:induction false} DistinctSize(ids: seq<ObjectId>)
    requires forall i, j :: 0 <= i < j < |ids| ==> ids[i] != ids[j]
    ensures |Elements(ids)| == |ids|
  {
    if ids == [] {
      assert Elements(ids) == {};
    } else {
      var front, last := ids[..|ids| - 1], ids[|ids| - 1];
      DistinctSize(front);
      assert last !in front && ids == front + [last];
      assert Elements(ids) == Elements(front) + {last};
    }
  }

  lemma EnumeratesSize(xs: seq<Table>, m: map<ObjectId, Table>)
    requires Enumerates(xs, m)
    ensures |xs| == |m|
  {
    var ids := seq(|xs|, i requires 0 <= i < |xs| => xs[i].id);
    DistinctSize(ids);
    forall id | id in m ensures id in ids {
      var i :| 0 <= i < |xs| && xs[i] == m[id];
      assert ids[i] == id;
    }
    assert m.Keys == Elements(ids);
  }

  /** sampling lists the keys of slots once each and every slot knows its own
      place in it. */
  ghost predicate Dense(slots: map<ObjectId, Slot>, sampling: seq<ObjectId>) {
    && (forall id :: id in slots ==> slots[id].pos < |sampling| && sampling[slots[id].pos] == id)
    && (forall i :: 0 <= i < |sampling| ==> sampling[i] in slots && slots[sampling[i]].pos == i)
  }

  /** Moving the last id into the hole keeps the sampling vector dense. */
  lemma SwapRemoveDense(slots: map<ObjectId, Slot>, sampling: seq<ObjectId>, id: ObjectId)
    requires Dense(slots, sampling) && id in slots
    ensures var pos, lastId := slots[id].pos, sampling[|sampling| - 1];
            var left := slots[lastId := slots[lastId].(pos := pos)] - {id};
            && Dense(left, sampling[pos := lastId][..|sampling| - 1])
            && RecsOf(left) == RecsOf(slots) - {id}
  {
  }

  lemma RepublishDense(slots: map<ObjectId, Slot>, sampling: seq<ObjectId>, id: ObjectId, rec: Table)
    requires Dense(slots, sampling) && id in slots
    ensures var after := slots[id := slots[id].(rec := rec)];
            Dense(after, sampling) && RecsOf(after) == RecsOf(slots)[id := rec]
  {
  }

  function RecsOf(slots: map<ObjectId, Slot>): map<ObjectId, Table> {
    map id | id in slots :: slots[id].rec
  }

  class Catalog {
    var slots: map<ObjectId, Slot>
    var sampling: seq<ObjectId>
    var names: map<string, ObjectId>

    ghost predicate Valid()
      reads this
    {
      Dense(slots, sampling) && Spec.Sound(Abs())
    }

    ghost function Recs(): map<ObjectId, Table>
      reads this
    {
      RecsOf(slots)
    }

    ghost function Abs(): Spec.State
      reads this
    {
      Spec.State(Recs(), names)
    }

    constructor ()
      ensures Valid() && Abs() == Spec.EMPTY
    {
      slots, sampling, names := map[], [], map[];
    }

    method ById(id: ObjectId) returns (r: Option<Table>)
      requires Valid()
      ensures r == if id in Recs() then Some(Recs()[id]) else None
    {
      r := if id in slots then Some(slots[id].rec) else None;
    }

    method ByName(name: string) returns (r: Option<Table>)
      requires Valid()
      ensures r == Spec.ByName(Abs(), name)
    {
      if name !in names {
        return None;
      }
      assert names[name] in Recs();
      return Some(slots[names[name]].rec);
    }

    /** The draw is uniform over positions; any position gives a live record,
        and none is given only when the catalog is empty. */
    method RandomPick() returns (r: Option<Table>)
      requires Valid()
      ensures r.None? <==> Recs() == map[]
      ensures r.Some? ==> r.value.id in Recs() && Recs()[r.value.id] == r.value
    {
      if sampling == [] {
        assert forall id :: id !in slots;
        return None;
      }
      var idx :| 0 <= idx < |sampling|;
      assert sampling[idx] in Recs();
      r := Some(slots[sampling[idx]].rec);
    }

    method Size() returns (n: nat)
      requires Valid()
      ensures n == |Recs()|
    {
      n := |slots|;
      assert slots.Keys == Recs().Keys;
      assert |slots| == |slots.Keys| && |Recs()| == |Recs().Keys|;
    }

    method SnapshotAll() returns (xs: seq<Table>)
      requires Valid()
      ensures Enumerates(xs, Recs())
    {
      xs := [];
      for i := 0 to |sampling|
        invariant |xs| == i
        invariant forall k :: 0 <= k < i ==> xs[k] == slots[sampling[k]].rec
      {
        xs := xs + [slots[sampling[i]].rec];
      }
      forall i | 0 <= i < |xs| ensures xs[i].id == sampling[i] && Recs()[xs[i].id] == xs[i] {
        assert sampling[i] in Recs();
      }
      forall id | id in Recs() ensures Recs()[id] in xs {
        assert xs[slots[id].pos] == Recs()[id];
      }
    }

    method Insert(obj: Table) returns (ok: bool)
      requires Valid()
      modifies this
      ensures Valid()
      ensures Abs() == Spec.Insert(old(Abs()), obj)
      ensures ok <==> obj.id != 0 && obj.id !in old(Recs())
    {
      if obj.id == 0 {
        return false;
      }
      if obj.id in slots {
        assert obj.id in Recs();
        return false;
      }
      slots := slots[obj.id := Slot(obj, |sampling|)];
      sampling := sampling + [obj.id];
      names := names[obj.name := obj.id];
      assert Recs() == old(Recs())[obj.id := obj];
      return true;
    }

    method Update(id: ObjectId, delta: Delta) returns (ok: bool)
      requires Valid()
      modifies this
      ensures Valid()
      ensures Abs() == Spec.Update(old(Abs()), id, delta)
      ensures ok <==> id in old(Recs()) && delta(old(Recs())[id]).Some?
      ensures sampling == old(sampling)
    {
      if id !in slots {
        return false;
      }
      var was := slots[id].rec;
      assert was == Recs()[id];
      Spec.ApplySound(Abs(), Spec.UpdateOp(id, delta));
      ghost var after := Spec.Update(Abs(), id, delta);
      var copy := delta(was);
      if copy.None? {
        return false;
      }
      var rec := copy.value.(id := id, version := was.version + 1);
      RepublishDense(slots, sampling, id, rec);
      if rec.name != was.name {
        if was.name in names && names[was.name] == id {
          names := names - {was.name};
        }
        names := names[rec.name := id];
      }
      slots := slots[id := slots[id].(rec := rec)];
      assert Abs() == after;
      return true;
    }

    method Erase(id: ObjectId) returns (ok: bool)
      requires Valid()
      modifies this
      ensures Valid()
      ensures Abs() == Spec.Erase(old(Abs()), id)
      ensures ok <==> id in old(Recs())
    {
      if id !in slots {
        return false;
      }
      var rec := slots[id].rec;
      assert rec == Recs()[id];
      SwapRemoveDense(slots, sampling, id);
      Spec.ApplySound(Abs(), Spec.EraseOp(id));
      var pos := slots[id].pos;
      var lastId := sampling[|sampling| - 1];
      sampling := sampling[pos := lastId];
      slots := slots[lastId := slots[lastId].(pos := pos)];
      sampling := sampling[..|sampling| - 1];
      if rec.name in names && names[rec.name] == id {
        names := names - {rec.name};
      }
      slots := slots - {id};
      assert Recs() == old(Recs()) - {id};
      return true;
    }

    method Reset()
      modifies this
      ensures Valid() && Abs() == Spec.EMPTY
    {
      slots, sampling, names := map[], [], map[];
    }
  }

  class Registry {
    const tables: Catalog
    var counter: ObjectId

    /** Every id in use was handed out by the counter. */
    ghost predicate Valid()
      reads this, tables
    {
      && tables.Valid()
      && counter != 0
      && forall id :: id in tables.Recs() ==> id < counter
    }

    constructor ()
      ensures Valid() && fresh(tables) && tables.Abs() == Spec.EMPTY
    {
      tables := new Catalog();
      counter := 1;
    }

    method NextId() returns (id: ObjectId)
      requires Valid()
      modifies this
      ensures Valid()
      ensures id == old(counter) && counter == id + 1
      ensures id != 0 && id !in tables.Recs()
    {
      id := counter;
      counter := counter + 1;
    }

    /** Clears the catalog and does not rewind the counter. */
    method Reset()
      requires Valid()
      modifies tables
      ensures Valid() && tables.Abs() == Spec.EMPTY
      ensures counter == old(counter)
    {
      tables.Reset();
    }
  }
}
