/** Autocommit workers publishing DDL to one shared catalog. Every catalog call
    is one atomic step; a worker's local progress between calls is its pc. */
module Workers {
  import opened Metadata
  import opened CatalogSpec

  datatype Worker =
    | Idle
    // CREATE TABLE: an id, then a private record that may reference a picked
    // table, then the published record whose target is still to be checked
    | Allocated(id: ObjectId)
    | Building(rec: Table)
    | Checking(id: ObjectId, target: ObjectId)
    | Clearing(id: ObjectId, target: ObjectId)
    // DROP TABLE: the SQL has run; erase, snapshot and sweep are to come
    | Dropping(target: ObjectId)
    | Unswept(target: ObjectId)
    | Sweeping(target: ObjectId, todo: set<ObjectId>)

  datatype World = World(cat: State, nextId: ObjectId, workers: map<nat, Worker>)

  datatype Event =
    | Allocate(w: nat)
    | Build(w: nat, built: Table)
    | Publish(w: nat)
    | Check(w: nat)
    | Clear(w: nat)
    | PickForDrop(w: nat, picked: ObjectId)
    | EraseIt(w: nat)
    | StartSweep(w: nat, parent: ObjectId)
    | Snapshot(w: nat)
    | Sweep(w: nat, other: ObjectId)
    | Finish(w: nat)
    | GiveUp(w: nat)
    | Alter(w: nat, altered: ObjectId, delta: Delta)
    | ResetAll

  predicate Referrer(cat: State, x: ObjectId, target: ObjectId) {
    x in cat.recs && cat.recs[x].HasReferenceTo(target)
  }

  ghost predicate Enabled(s: World, e: Event) {
    e.ResetAll? ||
    (e.w in s.workers &&
     var wk := s.workers[e.w];
     match e
     case Allocate(_) => wk.Idle?
     case Build(_, rec) =>
       wk.Allocated? && rec.id == wk.id && OneRef(rec) && (FkOf(rec) != 0 ==> FkOf(rec) in s.cat.recs)
     case Publish(_) => wk.Building?
     case Check(_) => wk.Checking?
     case Clear(_) => wk.Clearing?
     case PickForDrop(_, t) => wk.Idle? && t in s.cat.recs
     case EraseIt(_) => wk.Dropping?
     case StartSweep(_, t) => wk.Idle? && t != 0
     case Snapshot(_) => wk.Unswept?
     case Sweep(_, x) => wk.Sweeping? && x in wk.todo
     case Finish(_) => wk.Sweeping? && wk.todo == {}
     case GiveUp(_) => wk.Allocated? || wk.Building? || wk.Dropping?
     case Alter(_, _, d) => wk.Idle? && AddsNoRef(d))
  }

  function Next(s: World, e: Event): World
    requires Enabled(s, e)
  {
    if e.ResetAll? then s.(cat := EMPTY) else
    var wk := s.workers[e.w];
    match e
    case Allocate(w) => s.(nextId := s.nextId + 1, workers := s.workers[w := Allocated(s.nextId)])
    case Build(w, rec) => s.(workers := s.workers[w := Building(rec)])
    case Publish(w) =>
      s.(cat := Insert(s.cat, wk.rec),
         workers := s.workers[w := if FkOf(wk.rec) != 0 then Checking(wk.rec.id, FkOf(wk.rec)) else Idle])
    case Check(w) =>
      s.(workers := s.workers[w := if wk.target in s.cat.recs then Idle else Clearing(wk.id, wk.target)])
    case Clear(w) =>
      s.(cat := Update(s.cat, wk.id, DropRefs(wk.target)), workers := s.workers[w := Idle])
    case PickForDrop(w, t) => s.(workers := s.workers[w := Dropping(t)])
    case EraseIt(w) => s.(cat := Erase(s.cat, wk.target), workers := s.workers[w := Unswept(wk.target)])
    case StartSweep(w, t) => s.(workers := s.workers[w := Unswept(t)])
    case Snapshot(w) =>
      s.(workers := s.workers[w := Sweeping(wk.target, set x | x in s.cat.recs && Referrer(s.cat, x, wk.target))])
    case Sweep(w, x) =>
      s.(cat := Update(s.cat, x, DropRefs(wk.target)),
         workers := s.workers[w := Sweeping(wk.target, wk.todo - {x})])
    case Finish(w) => s.(workers := s.workers[w := Idle])
    case GiveUp(w) => s.(workers := s.workers[w := Idle])
    case Alter(_, id, d) => s.(cat := Update(s.cat, id, d))
  }

  ghost predicate Legal(s: World, es: seq<Event>)
    decreases |es|
  {
    es == [] || (Enabled(s, es[0]) && Legal(Next(s, es[0]), es[1..]))
  }

  ghost function Run(s: World, es: seq<Event>): World
    requires Legal(s, es)
    decreases |es|
  {
    if es == [] then s else Run(Next(s, es[0]), es[1..])
  }

  /** A live table refers to an id that is not live. */
  ghost predicate Dangles(cat: State, x: ObjectId, t: ObjectId) {
    x in cat.recs && t in cat.recs[x].Refs() && t !in cat.recs
  }

  /** This worker will still deal with the reference from x to t: it created x
      and has not passed its check, or it dropped t and has yet to visit x. */
  predicate Answers(wk: Worker, x: ObjectId, t: ObjectId) {
    match wk
    case Checking(id, target) => id == x && target == t
    case Clearing(id, target) => id == x && target == t
    case Unswept(target) => target == t
    case Sweeping(target, todo) => target == t && x in todo
    case _ => false
  }

  ghost predicate Covered(s: World, x: ObjectId, t: ObjectId) {
    exists w :: w in s.workers && Answers(s.workers[w], x, t)
  }

  ghost predicate WorkerOk(wk: Worker) {
    match wk
    case Building(rec) => OneRef(rec)
    case Clearing(_, t) => t != 0
    case Checking(_, t) => t != 0
    case Dropping(t) => t != 0
    case Unswept(t) => t != 0
    case Sweeping(t, _) => t != 0
    case _ => true
  }

  ghost predicate Inv(s: World) {
    && Sound(s.cat)
    && (forall w :: w in s.workers ==> WorkerOk(s.workers[w]))
    && (forall x, t :: Dangles(s.cat, x, t) ==> Covered(s, x, t))
  }

  ghost predicate Start(s: World) {
    s.cat == EMPTY && forall w :: w in s.workers ==> s.workers[w].Idle?
  }

  /** No worker stands between its first and its last catalog write. */
  predicate Quiet(s: World) {
    forall w :: w in s.workers ==>
      match s.workers[w]
      case Idle | Allocated(_) | Building(_) | Dropping(_) => true
      case _ => false
  }

  /** An accepted update only touches one record, and a delta that adds no
      reference makes nothing dangle that did not dangle before. */
  lemma UpdateDangles(cat: State, id: ObjectId, d: Delta, x: ObjectId, t: ObjectId)
    requires Sound(cat) && Dangles(Update(cat, id, d), x, t)
    requires forall u {:trigger d(u)} :: d(u).Some? ==> d(u).value.Refs() <= u.Refs()
    ensures Dangles(cat, x, t)
  {
    if id in cat.recs && d(cat.recs[id]).Some? {
      var u := d(cat.recs[id]).value;
      var after := Update(cat, id, d);
      assert after.recs[id] == u.(id := id, version := cat.recs[id].version + 1);
      assert after.recs[id].Refs() == u.Refs();
    }
  }

  /** After removing x's references to t, the pair (x, t) does not dangle. */
  lemma DropRefsClears(cat: State, x: ObjectId, target: ObjectId)
    requires Sound(cat) && target != 0
    ensures !Dangles(Update(cat, x, DropRefs(target)), x, target)
    ensures forall y, t :: Dangles(Update(cat, x, DropRefs(target)), y, t) ==> Dangles(cat, y, t)
  {
    DropRefsShrinks(target);
    forall y, t | Dangles(Update(cat, x, DropRefs(target)), y, t) ensures Dangles(cat, y, t) {
      UpdateDangles(cat, x, DropRefs(target), y, t);
    }
    if x in cat.recs {
      HasReferenceToRefs(cat.recs[x], target);
      var u := DropRefs(target)(cat.recs[x]);
      if u.Some? {
        var after := Update(cat, x, DropRefs(target));
        assert after.recs[x].Refs() == u.value.Refs();
      }
    }
  }

  /** Someone other than w keeps answering when only w moved. */
  lemma StillCovered(s: World, s': World, w: nat, x: ObjectId, t: ObjectId)
    requires Covered(s, x, t) && w in s.workers
    requires s'.workers.Keys == s.workers.Keys
    requires forall v :: v in s.workers && v != w ==> s'.workers[v] == s.workers[v]
    requires Answers(s.workers[w], x, t) ==> Answers(s'.workers[w], x, t)
    ensures Covered(s', x, t)
  {
    var v :| v in s.workers && Answers(s.workers[v], x, t);
    assert Answers(s'.workers[v], x, t);
  }

  lemma StepKeepsInv(s: World, e: Event)
    requires Inv(s) && Enabled(s, e)
    ensures Inv(Next(s, e))
  {
    var s' := Next(s, e);
    if e.ResetAll? || e.Alter? {
      if e.Alter? {
        ApplySound(s.cat, UpdateOp(e.altered, e.delta));
        forall x, t | Dangles(s'.cat, x, t) ensures Covered(s', x, t) {
          UpdateDangles(s.cat, e.altered, e.delta, x, t);
        }
      }
      return;
    }
    NextSound(s, e);
    forall x, t | Dangles(s'.cat, x, t) ensures Covered(s', x, t) {
      StepCovers(s, e, x, t);
    }
  }

  lemma NextSound(s: World, e: Event)
    requires Inv(s) && Enabled(s, e) && !e.ResetAll?
    ensures Sound(Next(s, e).cat)
    ensures forall v :: v in Next(s, e).workers ==> WorkerOk(Next(s, e).workers[v])
  {
    var wk := s.workers[e.w];
    match e {
      case Publish(_) => ApplySound(s.cat, InsertOp(wk.rec));
      case Clear(_) => ApplySound(s.cat, UpdateOp(wk.id, DropRefs(wk.target)));
      case EraseIt(_) => ApplySound(s.cat, EraseOp(wk.target));
      case Sweep(_, x) => ApplySound(s.cat, UpdateOp(x, DropRefs(wk.target)));
      case Alter(_, id, d) => ApplySound(s.cat, UpdateOp(id, d));
      case _ =>
    }
  }

  lemma StepCovers(s: World, e: Event, x: ObjectId, t: ObjectId)
    requires Inv(s) && Enabled(s, e) && !e.ResetAll? && !e.Alter?
    requires Dangles(Next(s, e).cat, x, t)
    ensures Covered(Next(s, e), x, t)
  {
    var s' := Next(s, e);
    var wk, wk' := s.workers[e.w], s'.workers[e.w];
    if e.Publish? && !Dangles(s.cat, x, t) {
      assert x == wk.rec.id;
      OneRefRefs(wk.rec);
      assert Answers(wk', x, t);
    } else if e.EraseIt? && t == wk.target {
      assert Answers(wk', x, t);
    } else {
      if e.Clear? {
        DropRefsClears(s.cat, wk.id, wk.target);
      } else if e.Sweep? {
        DropRefsClears(s.cat, e.other, wk.target);
      } else if e.Snapshot? {
        HasReferenceToRefs(s.cat.recs[x], t);
      }
      StillCovered(s, s', e.w, x, t);
    }
  }

  lemma {:induction false} RunKeepsInv(s: World, es: seq<Event>)
    requires Inv(s) && Legal(s, es)
    ensures Inv(Run(s, es))
    decreases |es|
  {
    if es != [] {
      StepKeepsInv(s, es[0]);
      RunKeepsInv(Next(s, es[0]), es[1..]);
    }
  }

  /** For any number of autocommit workers and any interleaving of their catalog
      calls: a reference to a dead table always has a worker that will still
      deal with it, so none is left when no worker is mid-publish. */
  lemma NoDanglingReference(s: World, es: seq<Event>, x: ObjectId, t: ObjectId)
    requires Start(s) && Legal(s, es)
    ensures Dangles(Run(s, es).cat, x, t) ==> Covered(Run(s, es), x, t)
    ensures Quiet(Run(s, es)) ==> !Dangles(Run(s, es).cat, x, t)
  {
    RunKeepsInv(s, es);
  }

  // ---- live references survive ----

  /** The worker has this id for a table it has not published. */
  predicate Holds(wk: Worker, id: ObjectId) {
    match wk
    case Allocated(own) => own == id
    case Building(rec) => rec.id == id
    case _ => false
  }

  /** The worker knows this id as the target of the table it creates. */
  predicate PointsAt(wk: Worker, t: ObjectId) {
    match wk
    case Building(rec) => FkOf(rec) == t && t != 0
    case Checking(_, target) => target == t
    case Clearing(_, target) => target == t
    case _ => false
  }

  /** No table can be published under this id any more. */
  ghost predicate Settled(s: World, id: ObjectId) {
    id < s.nextId && forall w :: w in s.workers ==> !Holds(s.workers[w], id)
  }

  /** No two workers have the same id, and all have been handed out. */
  ghost predicate HeldOnce(s: World) {
    && (forall w: nat, id: ObjectId :: w in s.workers && Holds(s.workers[w], id) ==> 0 < id < s.nextId)
    && (forall v: nat, w: nat, id: ObjectId ::
          v in s.workers && w in s.workers && Holds(s.workers[v], id) && Holds(s.workers[w], id) ==> v == w)
  }

  ghost predicate TargetsSettled(s: World) {
    forall w: nat, t: ObjectId :: w in s.workers && PointsAt(s.workers[w], t) ==> Settled(s, t)
  }

  /** Only a dead target is being cleared. */
  predicate ClearsDead(s: World) {
    forall w :: w in s.workers && s.workers[w].Clearing? ==> s.workers[w].target !in s.cat.recs
  }

  ghost predicate IdsOk(s: World) {
    && s.nextId > 0 && HeldOnce(s) && TargetsSettled(s) && ClearsDead(s)
    && forall id :: id in s.cat.recs ==> Settled(s, id)
  }

  lemma StepHolds(s: World, e: Event)
    requires IdsOk(s) && Enabled(s, e)
    ensures HeldOnce(Next(s, e))
    ensures forall id :: Settled(s, id) ==> Settled(Next(s, e), id)
    ensures forall id :: id in Next(s, e).cat.recs ==> Settled(Next(s, e), id)
  {
    if !e.ResetAll? {
      var wk, wk' := s.workers[e.w], Next(s, e).workers[e.w];
      assert forall id: ObjectId :: Holds(wk', id) ==> Holds(wk, id) || (e.Allocate? && id == s.nextId);
      forall id | id in Next(s, e).cat.recs && id !in s.cat.recs ensures Settled(Next(s, e), id) {
        assert e.Publish? && Holds(wk, id);
      }
    }
  }

  lemma StepTargets(s: World, e: Event)
    requires IdsOk(s) && Enabled(s, e)
    ensures TargetsSettled(Next(s, e)) && ClearsDead(Next(s, e))
  {
    StepHolds(s, e);
    if !e.ResetAll? {
      var s' := Next(s, e);
      var wk, wk' := s.workers[e.w], s'.workers[e.w];
      assert forall t: ObjectId :: PointsAt(wk', t) ==> PointsAt(wk, t) || t in s.cat.recs;
      forall v | v in s'.workers && s'.workers[v].Clearing? ensures s'.workers[v].target !in s'.cat.recs {
        if e.Publish? {
          assert v != e.w && PointsAt(s.workers[v], s.workers[v].target);
          assert Settled(s, s.workers[v].target) && !Holds(wk, s.workers[v].target);
        } else if v != e.w || e.Alter? {
          assert s.workers[v].Clearing?;
        }
      }
    }
  }

  lemma StepKeepsIds(s: World, e: Event)
    requires IdsOk(s) && Enabled(s, e)
    ensures IdsOk(Next(s, e))
  {
    StepHolds(s, e);
    StepTargets(s, e);
  }

  /** What a step does to the tables: a published one is never refused, a
      dropped one is gone, a check or a sweep takes the references to its target
      out of one table and an ALTER changes one. */
  lemma StepEffect(s: World, e: Event)
    requires Inv(s) && IdsOk(s) && Enabled(s, e)
    ensures
      var recs, after := s.cat.recs, Next(s, e).cat.recs;
      match e
      case Publish(w) => after == recs[s.workers[w].rec.id := s.workers[w].rec]
      case EraseIt(w) => after == recs - {s.workers[w].target}
      case Clear(w) => TouchedOnly(recs, after, s.workers[w].id, DropRefs(s.workers[w].target))
      case Sweep(w, x) => TouchedOnly(recs, after, x, DropRefs(s.workers[w].target))
      case Alter(_, id, d) => TouchedOnly(recs, after, id, d)
      case ResetAll => after == map[]
      case _ => after == recs
  {
    if e.Publish? {
      assert Holds(s.workers[e.w], s.workers[e.w].rec.id);
    }
  }

  /** Only the record x differs, if it is there and d changes it. */
  predicate TouchedOnly(recs: Records, after: Records, x: ObjectId, d: Delta) {
    if x in recs && d(recs[x]).Some? then
      after == recs[x := d(recs[x]).value.(id := x, version := recs[x].version + 1)]
    else after == recs
  }

  /** What one step may take away from a live reference: an ALTER of the table
      may, and a sweep for its target, but no check, no sweep for another table
      and no other worker. */
  predicate Spares(s: World, e: Event, x: ObjectId, t: ObjectId) {
    match e
    case Alter(_, id, _) => id != x
    case Sweep(w, other) => other != x || (w in s.workers && s.workers[w].Sweeping? && s.workers[w].target != t)
    case _ => true
  }

  lemma LiveReferenceKept(s: World, e: Event, x: ObjectId, t: ObjectId)
    requires Inv(s) && IdsOk(s) && Enabled(s, e) && Spares(s, e, x, t)
    requires x in s.cat.recs && t in s.cat.recs[x].Refs() && t in s.cat.recs
    ensures x in Next(s, e).cat.recs ==> t in Next(s, e).cat.recs[x].Refs()
  {
    if e.Clear? || e.Sweep? {
      var wk := s.workers[e.w];
      var id := if e.Clear? then wk.id else e.other;
      DropRefsShrinks(wk.target);
      LateRefs(s.cat, UpdateOp(id, DropRefs(wk.target)), x);
    }
  }

  /** The two tables stay live, and every step spares the reference. */
  ghost predicate LeftAlone(s: World, es: seq<Event>, x: ObjectId, t: ObjectId)
    requires Legal(s, es)
    decreases |es|
  {
    && x in s.cat.recs && t in s.cat.recs
    && (es != [] ==> Spares(s, es[0], x, t) && LeftAlone(Next(s, es[0]), es[1..], x, t))
  }

  lemma {:induction false} LeftAloneKeeps(s: World, es: seq<Event>, x: ObjectId, t: ObjectId)
    requires Inv(s) && IdsOk(s) && Legal(s, es) && LeftAlone(s, es, x, t) && t in s.cat.recs[x].Refs()
    ensures x in Run(s, es).cat.recs && t in Run(s, es).cat.recs && t in Run(s, es).cat.recs[x].Refs()
    decreases |es|
  {
    if es != [] {
      StepKeepsInv(s, es[0]);
      StepKeepsIds(s, es[0]);
      LiveReferenceKept(s, es[0], x, t);
      LeftAloneKeeps(Next(s, es[0]), es[1..], x, t);
    }
  }

  lemma {:induction false} RunKeepsIds(s: World, es: seq<Event>)
    requires IdsOk(s) && Legal(s, es)
    ensures IdsOk(Run(s, es))
    decreases |es|
  {
    if es != [] {
      StepKeepsIds(s, es[0]);
      RunKeepsIds(Next(s, es[0]), es[1..]);
    }
  }

  /** After any run, a reference to a live table stays through any further
      steps, as long as both tables stay live and neither an ALTER of the one
      nor a sweep for the other gets at it. */
  lemma LiveReferenceSurvives(s: World, es: seq<Event>, more: seq<Event>, x: ObjectId, t: ObjectId)
    requires Start(s) && s.nextId == 1 && Legal(s, es) && Legal(Run(s, es), more)
    requires LeftAlone(Run(s, es), more, x, t) && t in Run(s, es).cat.recs[x].Refs()
    ensures
      var end := Run(Run(s, es), more).cat.recs;
      x in end && t in end && t in end[x].Refs()
  {
    RunKeepsInv(s, es);
    RunKeepsIds(s, es);
    LeftAloneKeeps(Run(s, es), more, x, t);
  }

  // ---- the exception: a reference published by a buffer ----

  /** A transaction's log replays inserts without the check that follows an
      autocommit insert: that check ran inside the transaction, while the target
      was still live. If another worker then drops the target, its sweep cannot
      see the buffered record, and publishing it leaves a dangling reference
      that no worker answers for. */
  lemma BufferedCreateCanDangle(s: World, w: nat, t: Table, rec: Table)
    requires s.cat == State(map[t.id := t], map[t.name := t.id]) && t.id != 0 && t.Refs() == {}
    requires s.workers == map[w := Idle]
    requires rec.id !in {0, t.id} && OneRef(rec) && FkOf(rec) == t.id
    ensures var drop := [PickForDrop(w, t.id), EraseIt(w), Snapshot(w), Finish(w)];
            && Inv(s) && Legal(s, drop)
            && var end := Run(s, drop).(cat := ApplyAll(Run(s, drop).cat, [InsertOp(rec)]));
               Quiet(end) && Dangles(end.cat, rec.id, t.id) && !Covered(end, rec.id, t.id)
  {
    OneRefRefs(rec);
    var s1 := Next(s, PickForDrop(w, t.id));
    var s2 := Next(s1, EraseIt(w));
    assert s2.cat.recs == map[];
    var s3 := Next(s2, Snapshot(w));
    var s4 := Next(s3, Finish(w));
    var drop := [PickForDrop(w, t.id), EraseIt(w), Snapshot(w), Finish(w)];
    assert drop[1..] == [EraseIt(w), Snapshot(w), Finish(w)];
    assert drop[1..][1..] == [Snapshot(w), Finish(w)];
    assert drop[1..][1..][1..] == [Finish(w)];
    assert drop[1..][1..][1..][1..] == [];
    RunCons(s3, drop[1..][1..][1..]);
    RunCons(s2, drop[1..][1..]);
    RunCons(s1, drop[1..]);
    RunCons(s, drop);
    ApplyAllExtend(s4.cat, [], InsertOp(rec));
  }

  /** No reference can dangle unanswered after this one catalog call, judged by
      the catalog and the workers before it. */
  ghost predicate LateOk(s: World, op: Op) {
    var recs := s.cat.recs;
    match op
    case InsertOp(rec) =>
      rec.id == 0 || rec.id in recs ||
      forall t :: t in rec.Refs() && t !in recs && t != rec.id ==> Covered(s, rec.id, t)
    case UpdateOp(id, d) =>
      id in recs && d(recs[id]).Some? ==>
        forall t :: t in d(recs[id]).value.Refs() && t !in recs ==> Covered(s, id, t)
    case EraseOp(id) =>
      id in recs ==> forall x :: x in recs && x != id && id in recs[x].Refs() ==> Covered(s, x, id)
  }

  /** Exactly when a call a buffer publishes late, which no worker follows up,
      keeps the invariant: a create if every dead table it refers to still has
      a worker to clear that reference, a drop if every table that refers to
      the dropped one has. */
  lemma LatePublishExact(s: World, op: Op)
    requires Inv(s)
    ensures Inv(s.(cat := Apply(s.cat, op))) <==> LateOk(s, op)
  {
    var s' := s.(cat := Apply(s.cat, op));
    ApplySound(s.cat, op);
    assert forall x, t :: Covered(s', x, t) <==> Covered(s, x, t);
    forall x, t | Dangles(s'.cat, x, t) && !Dangles(s.cat, x, t)
      ensures LateOk(s, op) ==> Covered(s, x, t)
    {
      LateRefs(s.cat, op, x);
    }
    if Inv(s') {
      LateOkNeeded(s, op);
    }
  }

  /** The references of the record a call leaves under x. */
  lemma LateRefs(cat: State, op: Op, x: ObjectId)
    requires Sound(cat) && x in Apply(cat, op).recs
    ensures Apply(cat, op).recs[x].Refs() ==
      match op
      case InsertOp(rec) => if x in cat.recs then cat.recs[x].Refs() else rec.Refs()
      case UpdateOp(id, d) =>
        if x == id && d(cat.recs[x]).Some? then d(cat.recs[x]).value.Refs() else cat.recs[x].Refs()
      case EraseOp(_) => cat.recs[x].Refs()
  {
    if op.UpdateOp? && x == op.id && op.delta(cat.recs[x]).Some? {
      var u := op.delta(cat.recs[x]).value;
      assert Apply(cat, op).recs[x] == u.(id := x, version := cat.recs[x].version + 1);
    }
  }

  lemma LateOkNeeded(s: World, op: Op)
    requires Inv(s) && Inv(s.(cat := Apply(s.cat, op)))
    ensures LateOk(s, op)
  {
    var s' := s.(cat := Apply(s.cat, op));
    assert forall x, t :: Covered(s', x, t) <==> Covered(s, x, t);
    match op {
      case InsertOp(rec) =>
        if rec.id != 0 && rec.id !in s.cat.recs {
          forall t | t in rec.Refs() && t !in s.cat.recs && t != rec.id ensures Covered(s, rec.id, t) {
            assert Dangles(s'.cat, rec.id, t);
          }
        }
      case UpdateOp(id, d) =>
        if id in s.cat.recs && d(s.cat.recs[id]).Some? {
          LateRefs(s.cat, op, id);
          forall t | t in d(s.cat.recs[id]).value.Refs() && t !in s.cat.recs ensures Covered(s, id, t) {
            assert Dangles(s'.cat, id, t);
          }
        }
      case EraseOp(id) =>
        if id in s.cat.recs {
          forall x | x in s.cat.recs && x != id && id in s.cat.recs[x].Refs() ensures Covered(s, x, id) {
            assert Dangles(s'.cat, x, id);
          }
        }
    }
  }

  lemma RunCons(s: World, es: seq<Event>)
    requires es != [] && Enabled(s, es[0]) && Legal(Next(s, es[0]), es[1..])
    ensures Legal(s, es) && Run(s, es) == Run(Next(s, es[0]), es[1..])
  {
  }
}

/** Ids over whole runs: any mix of autocommit calls, late transaction publishes
    and resets, seen as the atomic calls that reach the registry. */
module IdRuns {
  import opened Metadata
  import opened CatalogSpec

  /** owed holds the ids a worker has taken from the counter and not yet
      published, in a private record or in an insert waiting in its buffer. */
  datatype Reg = Reg(cat: State, nextId: ObjectId, owed: map<nat, set<ObjectId>>)

  datatype Event =
    | TakeId(w: nat)
    | PublishInsert(w: nat, rec: Table)
    | PublishUpdate(id: ObjectId, delta: Delta)
    | PublishErase(id: ObjectId)
    | Forget(w: nat, id: ObjectId)
    | ResetAll

  predicate Enabled(s: Reg, e: Event) {
    match e
    case TakeId(w) => w in s.owed
    case PublishInsert(w, rec) => w in s.owed && rec.id in s.owed[w]
    case Forget(w, id) => w in s.owed && id in s.owed[w]
    case _ => true
  }

  function Next(s: Reg, e: Event): Reg
    requires Enabled(s, e)
  {
    match e
    case TakeId(w) => s.(nextId := s.nextId + 1, owed := s.owed[w := s.owed[w] + {s.nextId}])
    case PublishInsert(w, rec) =>
      s.(cat := Insert(s.cat, rec), owed := s.owed[w := s.owed[w] - {rec.id}])
    case PublishUpdate(id, d) => s.(cat := Update(s.cat, id, d))
    case PublishErase(id) => s.(cat := Erase(s.cat, id))
    case Forget(w, id) => s.(owed := s.owed[w := s.owed[w] - {id}])
    case ResetAll => s.(cat := EMPTY)
  }

  predicate Legal(s: Reg, es: seq<Event>)
    decreases |es|
  {
    es == [] || (Enabled(s, es[0]) && Legal(Next(s, es[0]), es[1..]))
  }

  function Run(s: Reg, es: seq<Event>): Reg
    requires Legal(s, es)
    decreases |es|
  {
    if es == [] then s else Run(Next(s, es[0]), es[1..])
  }

  lemma {:induction false} RunAppend(s: Reg, a: seq<Event>, b: seq<Event>)
    requires Legal(s, a + b)
    ensures Legal(s, a) && Legal(Run(s, a), b) && Run(s, a + b) == Run(Run(s, a), b)
    decreases |a|
  {
    if a == [] {
      assert a + b == b;
    } else {
      assert (a + b)[0] == a[0] && (a + b)[1..] == a[1..] + b;
      RunAppend(Next(s, a[0]), a[1..], b);
    }
  }

  lemma RunSplit(s: Reg, es: seq<Event>, k: nat)
    requires Legal(s, es) && k <= |es|
    ensures Legal(s, es[..k])
    ensures Legal(Run(s, es[..k]), es[k..])
    ensures Run(s, es) == Run(Run(s, es[..k]), es[k..])
  {
    assert es == es[..k] + es[k..];
    RunAppend(s, es[..k], es[k..]);
  }

  predicate Live(s: Reg, id: ObjectId) {
    id in s.cat.recs
  }

  /** No worker can publish an insert of this id any more. */
  ghost predicate Spent(s: Reg, id: ObjectId) {
    id < s.nextId && forall w :: w in s.owed ==> id !in s.owed[w]
  }

  ghost predicate Inv(s: Reg) {
    && Sound(s.cat)
    && (forall id :: Live(s, id) ==> Spent(s, id))
    && s.nextId > 0 && (forall w, id :: w in s.owed && id in s.owed[w] ==> 0 < id < s.nextId)
    && (forall v, w, id :: v in s.owed && w in s.owed && v != w && id in s.owed[v] ==> id !in s.owed[w])
  }

  ghost predicate Start(s: Reg) {
    s.cat == EMPTY && s.nextId == 1 && forall w :: w in s.owed ==> s.owed[w] == {}
  }

  lemma StepKeepsInv(s: Reg, e: Event)
    requires Inv(s) && Enabled(s, e)
    ensures Inv(Next(s, e))
    ensures forall id :: Spent(s, id) ==> Spent(Next(s, e), id)
    ensures forall id :: Spent(s, id) && !Live(s, id) ==> !Live(Next(s, e), id)
    ensures e.PublishInsert? ==> Live(Next(s, e), e.rec.id) && Next(s, e).cat.recs[e.rec.id] == e.rec
    ensures e.PublishErase? ==> !Live(Next(s, e), e.id)
    ensures e.ResetAll? ==> forall id :: !Live(Next(s, e), id)
  {
    match e {
      case PublishInsert(w, rec) =>
        ApplySound(s.cat, InsertOp(rec));
        assert forall v :: v in s.owed && v != w ==> rec.id !in s.owed[v];
        assert Live(s, rec.id) ==> Spent(s, rec.id);
        assert Spent(Next(s, e), rec.id);
      case PublishUpdate(id, d) => ApplySound(s.cat, UpdateOp(id, d));
      case PublishErase(id) => ApplySound(s.cat, EraseOp(id));
      case _ =>
    }
    forall id | Live(Next(s, e), id) ensures Spent(Next(s, e), id) {
      assert Live(s, id) || (e.PublishInsert? && id == e.rec.id);
    }
  }

  lemma {:induction false} RunKeepsInv(s: Reg, es: seq<Event>)
    requires Inv(s) && Legal(s, es)
    ensures Inv(Run(s, es))
    ensures forall id :: Spent(s, id) ==> Spent(Run(s, es), id)
    ensures forall id :: Spent(s, id) && !Live(s, id) ==> !Live(Run(s, es), id)
    decreases |es|
  {
    if es != [] {
      StepKeepsInv(s, es[0]);
      RunKeepsInv(Next(s, es[0]), es[1..]);
    }
  }

  /** The state after the first k calls. */
  function At(s: Reg, es: seq<Event>, k: nat): Reg
    requires k <= |es| && Legal(s, es)
  {
    RunSplit(s, es, k);
    Run(s, es[..k])
  }

  lemma AtStep(s: Reg, es: seq<Event>, i: nat, k: nat)
    requires Legal(s, es) && i <= k <= |es|
    ensures Legal(s, es[..i]) && Legal(s, es[..k])
    ensures Legal(At(s, es, i), es[i..k]) && Run(At(s, es, i), es[i..k]) == At(s, es, k)
  {
    RunSplit(s, es, k);
    RunSplit(s, es[..k], i);
    assert es[..k][..i] == es[..i] && es[..k][i..] == es[i..k];
  }

  /** An id is live over at most one contiguous stretch of a run, resets and
      late buffered publishes included: once gone it never comes back. */
  lemma OneStretch(s: Reg, es: seq<Event>, i: nat, j: nat, k: nat, id: ObjectId)
    requires Start(s) && Legal(s, es) && i <= j <= k <= |es|
    requires Live(At(s, es, i), id) && !Live(At(s, es, j), id)
    ensures !Live(At(s, es, k), id)
  {
    AtStep(s, es, i, j);
    RunKeepsInv(s, es[..i]);
    RunKeepsInv(At(s, es, i), es[i..j]);
    AtStep(s, es, j, k);
    RunKeepsInv(At(s, es, j), es[j..k]);
  }

  /** How many calls of a run are accepted updates of this id. */
  function Accepted(s: Reg, es: seq<Event>, id: ObjectId): nat
    requires Legal(s, es)
    decreases |es|
  {
    if es == [] then 0 else
    (if es[0].PublishUpdate? && es[0].id == id && Live(s, id) && es[0].delta(s.cat.recs[id]).Some? then 1 else 0)
    + Accepted(Next(s, es[0]), es[1..], id)
  }

  lemma {:induction false} VersionGrows(s: Reg, es: seq<Event>, id: ObjectId)
    requires Inv(s) && Legal(s, es) && Live(s, id) && Live(Run(s, es), id)
    ensures Run(s, es).cat.recs[id].version == s.cat.recs[id].version + Accepted(s, es, id)
    decreases |es|
  {
    if es != [] {
      StepKeepsInv(s, es[0]);
      RunKeepsInv(Next(s, es[0]), es[1..]);
      assert Live(Next(s, es[0]), id);
      VersionGrows(Next(s, es[0]), es[1..], id);
    }
  }

  /** Between any two moments at which an id is live, its version has grown by
      exactly the number of accepted updates in between. */
  lemma VersionCountsUpdates(s: Reg, es: seq<Event>, i: nat, k: nat, id: ObjectId)
    requires Start(s) && Legal(s, es) && i <= k <= |es|
    requires Live(At(s, es, i), id) && Live(At(s, es, k), id)
    ensures Legal(At(s, es, i), es[i..k])
    ensures At(s, es, k).cat.recs[id].version
         == At(s, es, i).cat.recs[id].version + Accepted(At(s, es, i), es[i..k], id)
  {
    AtStep(s, es, i, k);
    RunKeepsInv(s, es[..i]);
    VersionGrows(At(s, es, i), es[i..k], id);
  }

  /** A buffered update that is replayed after another worker erased the record
      changes nothing, and no later call of any worker revives the id. */
  lemma LateUpdateNeverRevives(s: Reg, es: seq<Event>, i: nat, j: nat, id: ObjectId, d: Delta, more: seq<Event>)
    requires Start(s) && Legal(s, es) && i <= j <= |es|
    requires Live(At(s, es, i), id) && !Live(At(s, es, j), id)
    requires Legal(At(s, es, j), [PublishUpdate(id, d)] + more)
    ensures Next(At(s, es, j), PublishUpdate(id, d)) == At(s, es, j)
    ensures !Live(Run(At(s, es, j), [PublishUpdate(id, d)] + more), id)
  {
    AtStep(s, es, i, j);
    RunKeepsInv(s, es[..i]);
    RunKeepsInv(At(s, es, i), es[i..j]);
    RunKeepsInv(At(s, es, j), [PublishUpdate(id, d)] + more);
  }
}
