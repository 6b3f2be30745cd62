/** The server side of a connection, as far as transactions and the table
    schema go. Every statement may succeed, fail or lose the server. */
module Connections {
  import opened Metadata
  import opened OverlaySpec
  import opened Courses

  datatype Reply = Ok | Err | Gone

  /** What became of the work of a transaction. Hollow: COMMIT was accepted on a
      transaction the server had already aborted, so the work was rolled back.
      Lost: the server went away before the end was known. */
  datatype Fate = Pending | Committed | RolledBack | Hollow | Lost

  datatype ServerSave = ServerSave(name: nat, schema: Records)

  /** k is the last savepoint of that name. */
  predicate LatestNamed(saves: seq<ServerSave>, name: nat, k: int) {
    && 0 <= k < |saves| && saves[k].name == name
    && forall j :: k < j < |saves| ==> saves[j].name != name
  }

  /** The fates after the open transaction, if any, has ended. */
  function EndLast(open: bool, fates: seq<Fate>, fate: Fate): seq<Fate>
    requires open ==> fates != []
  {
    if open then fates[|fates| - 1 := fate] else fates
  }

  class Connection {
    // DDL rolls back with the transaction (pg) or implicitly commits it (mysql)
    const transactional: bool
    var committed: Records      // durable schema, versions stripped
    var open: bool              // a transaction is open
    var current: Records        // schema inside it
    var saves: seq<ServerSave>
    var aborted: bool           // it accepts only a rewind or its end
    var gone: bool
    var queries: nat
    var refused: nat            // statements not answered Ok, those of a buffered or direct sub-action aside
    var outcomes: seq<Outcome>
    var fates: seq<Fate>        // one per transaction begun, in order

    ghost predicate Valid()
      reads this
    {
      && (aborted ==> open && transactional)
      && (open ==> !gone && fates != [] && fates[|fates| - 1] == Pending)
      && (forall i :: 0 <= i < |fates| - 1 ==> fates[i] != Pending)
      && (!open && fates != [] ==> fates[|fates| - 1] != Pending)
    }

    constructor (transactional: bool, schema: Records)
      ensures Valid() && !open && !gone && this.transactional == transactional && committed == schema
      ensures fates == [] && outcomes == [] && refused == 0
    {
      this.transactional := transactional;
      committed, current, saves := schema, schema, [];
      open, aborted, gone, queries, refused := false, false, false, 0, 0;
      outcomes, fates := [], [];
    }

    /** Ends the open transaction, if there is one. */
    method Close(fate: Fate)
      requires Valid() && fate != Pending
      modifies this`open, this`aborted, this`saves, this`fates
      ensures Valid() && !open
      ensures fates == EndLast(old(open), old(fates), fate)
    {
      fates := EndLast(open, fates, fate);
      open, aborted, saves := false, false, [];
    }

    method Lose()
      requires Valid()
      modifies this`open, this`aborted, this`saves, this`fates, this`gone
      ensures Valid() && !open && gone
      ensures fates == EndLast(old(open), old(fates), Lost)
    {
      Close(Lost);
      gone := true;
    }

    /** The statements that open a transaction. They are never sent while one is
        open: that is this method's precondition. */
    method Begin() returns (r: Reply)
      requires Valid() && !open
      modifies this
      ensures Valid() && committed == old(committed) && outcomes == old(outcomes)
      ensures r == Ok ==> open && !gone && !aborted && current == committed && saves == []
      ensures fates == old(fates) + if r == Ok then [Pending] else []
      ensures r != Ok ==> !open
      ensures (gone <==> r == Gone) && (old(gone) ==> gone)
      ensures refused == old(refused) + if r == Ok then 0 else 1
    {
      r := Send();
      if r == Ok {
        open, aborted, current, saves := true, false, committed, [];
        fates := fates + [Pending];
      }
    }

    /** What a sent statement meets; if the server is lost, so is whatever was
        open on it. */
    method Send() returns (r: Reply)
      requires Valid()
      modifies this`queries, this`refused, this`open, this`aborted, this`saves, this`fates, this`gone
      ensures Valid() && queries == old(queries) + 1
      ensures refused == old(refused) + if r == Ok then 0 else 1
      ensures (gone <==> r == Gone) && (old(gone) ==> gone)
      ensures !gone ==> open == old(open) && aborted == old(aborted) && saves == old(saves) && fates == old(fates)
      ensures gone ==> fates == EndLast(old(open), old(fates), Lost)
    {
      queries := queries + 1;
      r :| true;
      if gone || r == Gone {
        Lose();
        r := Gone;
      }
      if r != Ok {
        refused := refused + 1;
      }
    }

    /** A statement the server answered is refused for its place. */
    method Refuse() returns (r: Reply)
      modifies this`refused
      ensures r == Err && refused == old(refused) + 1
    {
      refused := refused + 1;
      r := Err;
    }

    method Savepoint(name: nat) returns (r: Reply)
      requires Valid() && open
      modifies this
      ensures Valid() && committed == old(committed) && outcomes == old(outcomes)
      ensures (gone <==> r == Gone) && (old(gone) ==> gone)
      ensures r == Ok ==> open && !old(aborted) && !aborted && current == old(current) && fates == old(fates)
      ensures r == Ok ==> saves == old(saves) + [ServerSave(name, current)]
      ensures r == Err ==> open && current == old(current) && saves == old(saves) && fates == old(fates)
      ensures r == Gone ==> fates == EndLast(true, old(fates), Lost)
      ensures refused == old(refused) + if r == Ok then 0 else 1
    {
      r := Send();
      if r == Ok && aborted {
        r := Refuse();
      }
      if r == Ok {
        saves := saves + [ServerSave(name, current)];
      } else if r == Err {
        var hurt: bool := *;
        aborted := aborted || (transactional && hurt);
      }
    }

    /** Restores the schema of the latest savepoint of that name, drops the ones
        after it and revives an aborted transaction. */
    method RollbackTo(name: nat) returns (r: Reply)
      requires Valid()
      modifies this
      ensures Valid() && committed == old(committed) && outcomes == old(outcomes)
      ensures (gone <==> r == Gone) && (old(gone) ==> gone)
      ensures r == Ok ==> open && old(open) && !aborted && fates == old(fates)
      ensures r == Ok ==>
        exists k :: LatestNamed(old(saves), name, k)
          && current == old(saves)[k].schema && saves == old(saves)[..k + 1]
      ensures r == Err ==> open == old(open) && current == old(current) && saves == old(saves) && fates == old(fates)
      ensures r == Gone ==> fates == EndLast(old(open), old(fates), Lost)
      ensures refused == old(refused) + if r == Ok then 0 else 1
    {
      r := Send();
      if r == Ok && open {
        var k: nat := |saves|;
        while k > 0 && saves[k - 1].name != name
          invariant k <= |saves|
          invariant forall j :: k <= j < |saves| ==> saves[j].name != name
        {
          k := k - 1;
        }
        if k > 0 {
          assert LatestNamed(saves, name, k - 1);
          current, aborted := saves[k - 1].schema, false;
          saves := saves[..k];
          return;
        }
      }
      if r == Ok {
        r := Refuse();
      }
      if r == Err {
        var hurt: bool := *;
        aborted := aborted || (open && transactional && hurt);
      }
    }

    /** On a live server COMMIT ends the transaction whatever it answers. With
        nothing open it cannot fail. On an aborted transaction it is accepted
        and rolls back. */
    method Commit() returns (r: Reply)
      requires Valid()
      modifies this
      ensures Valid() && !open && outcomes == old(outcomes)
      ensures (gone <==> r == Gone) && (old(gone) ==> gone)
      ensures r == Err ==> old(open)
      ensures queries == old(queries) + 1
      ensures refused == old(refused) + if r == Ok then 0 else 1
      ensures committed == if r == Ok && old(open) && !old(aborted) then old(current) else old(committed)
      ensures fates == EndLast(old(open), old(fates),
                match r
                case Gone => Lost
                case Err => RolledBack
                case Ok => if old(aborted) then Hollow else Committed)
    {
      var idle, before := !open, refused;
      r := Send();
      if r == Gone {
      } else if idle {
        r, refused := Ok, before;
      } else if r == Err {
        Close(RolledBack);
      } else if aborted {
        Close(Hollow);
      } else {
        committed := current;
        Close(Committed);
      }
    }

    /** ROLLBACK ends whatever is open; with nothing open it does nothing. */
    method Rollback() returns (r: Reply)
      requires Valid()
      modifies this
      ensures Valid() && !open && outcomes == old(outcomes) && committed == old(committed)
      ensures (gone <==> r == Gone) && (old(gone) ==> gone)
      ensures fates == EndLast(old(open), old(fates), if r == Gone then Lost else RolledBack)
      ensures refused == old(refused) + if r == Ok then 0 else 1
    {
      r := Send();
      if r != Gone {
        Close(RolledBack);
      }
    }

    /** Any other statement that does not end a transaction; left is the schema
        it leaves if it succeeds. On an aborted transaction it cannot, and a
        failure aborts one on pg. */
    method Execute(left: Records) returns (r: Reply)
      requires Valid()
      modifies this
      ensures Valid() && outcomes == old(outcomes)
      ensures (gone <==> r == Gone) && (old(gone) ==> gone)
      ensures refused == old(refused) + if r == Ok then 0 else 1
      ensures r == Gone ==> fates == EndLast(old(open), old(fates), Lost)
      ensures r != Gone ==> open == old(open) && fates == old(fates) && saves == old(saves)
      ensures r == Ok ==> !old(aborted) && !aborted
      ensures r == Ok && open ==> current == left && committed == old(committed)
      ensures r == Ok && !open ==> committed == left
      ensures r == Err ==> current == old(current) && (aborted <==> open && transactional)
      ensures r == Err || old(open) ==> committed == old(committed)
    {
      var alone := !open;
      r := Send();
      if r == Ok && aborted {
        r := Refuse();
      }
      match r {
        case Err => aborted := open && transactional;
        case Ok =>
          if open {
            current := left;
          } else {
            committed := left;
          }
        case Gone =>
          var unknown: bool := *;
          if alone && unknown {
            committed := left;
          }
      }
    }

    /** All the statements of a sub-action in autocommit. */
    method Autocommit(sub: Sub)
      requires Valid() && !open
      modifies this
      ensures Valid() && !open && outcomes == old(outcomes) && fates == old(fates) && refused == old(refused)
      ensures gone <==> old(gone) || sub.ending == ServerGone
    {
      if sub.sends {
        var schema: Records := *;
        committed, queries := schema, queries + 1;
      }
      if sub.ending == ServerGone {
        Lose();
      }
    }

    /** By then nothing is open any more. */
    method Record(o: Outcome)
      requires Valid() && !open
      modifies this`outcomes
      ensures Valid() && outcomes == old(outcomes) + [o]
    {
      outcomes := outcomes + [o];
    }
  }

  /** The guard that rolls back unless disarmed (core/include/action/helper.hpp). */
  class TxGuard {
    const conn: Connection
    var armed: bool

    constructor (conn: Connection)
      ensures armed && this.conn == conn
    {
      this.conn := conn;
      armed := true;
    }

    method Disarm()
      modifies this
      ensures !armed
    {
      armed := false;
    }

    /** The destructor. What ROLLBACK answers is ignored. */
    method Destroy()
      requires conn.Valid()
      modifies conn
      ensures conn.Valid() && conn.outcomes == old(conn.outcomes) && conn.committed == old(conn.committed)
      ensures armed ==> !conn.open
      ensures !armed ==> conn.open == old(conn.open) && conn.gone == old(conn.gone) && conn.fates == old(conn.fates)
      ensures old(conn.refused) <= conn.refused && (!armed ==> conn.refused == old(conn.refused))
      ensures armed ==>
        conn.fates == EndLast(old(conn.open), old(conn.fates), if conn.gone then Lost else RolledBack)
      ensures old(conn.gone) ==> conn.gone
    {
      if armed {
        var _ := conn.Rollback();
      }
    }
  }
}

/** A transaction over several sub-actions, in lockstep with the server
    (core/src/action/transaction.cpp). Exceptions are exits; the destructors of
    the guard and of the recorder run on every one of them. */
module Transactions {
  import opened Metadata
  import CatalogSpec
  import opened OverlaySpec
  import opened Courses
  import opened Catalogs
  import opened TxnBuffers
  import opened Connections

  datatype Exit = Normal | Exception

  datatype ClientSave = ClientSave(name: nat, mark: nat)

  /** The local variables of execute. */
  datatype Locals = Locals(inTrx: bool, saves: seq<ClientSave>, spCounter: nat, out: Outcome)

  // ---- ids below the counter ----

  predicate LogBelow(log: seq<CatalogSpec.Op>, c: ObjectId) {
    forall i :: 0 <= i < |log| && log[i].InsertOp? ==> 0 < log[i].rec.id < c
  }

  lemma {:induction false} ReplayBelow(g: Records, log: seq<CatalogSpec.Op>, c: ObjectId)
    requires LogBelow(log, c) && forall id :: id in g ==> id < c
    ensures forall id :: id in Replay(g, log).local ==> id < c
  {
    if log != [] {
      ReplayBelow(g, log[..|log| - 1], c);
    }
  }

  ghost predicate BufferOk(reg: Registry, txn: TxnBuffer)
    reads reg, reg.tables, txn
  {
    && reg.Valid()
    && txn.Valid(reg.tables.Recs())
    && Publishable(reg.tables.Recs(), txn.log)
    && LogBelow(txn.log, reg.counter)
  }

  lemma PublishableBlind(g: Records, log: seq<CatalogSpec.Op>)
    requires Publishable(g, log)
    ensures forall i :: 0 <= i < |log| ==> Blind(log[i])
  {
    hide Blind, FreshInsert, Replay;
  }

  lemma PublishableExtend(g: Records, log: seq<CatalogSpec.Op>, op: CatalogSpec.Op)
    requires Publishable(g, log) && Blind(op) && FreshInsert(g, Replay(g, log), op)
    ensures Publishable(g, log + [op])
  {
    forall i | 0 <= i <= |log|
      ensures Blind((log + [op])[i]) && FreshInsert(g, Replay(g, (log + [op])[..i]), (log + [op])[i])
    {
      assert (log + [op])[..i] == log[..i];
      assert log[..|log|] == log;
    }
  }

  // ---- the lockstep ----

  /** The client's savepoints name the server's, one by one, and each mark is
      where the log stood when the server's schema was the saved one. */
  ghost predicate SavesMatch(saves: seq<ServerSave>, mine: seq<ClientSave>, g: Records, log: seq<CatalogSpec.Op>,
          schemas: bool) {
    && |saves| == |mine|
    && (forall i :: 0 <= i < |mine| ==> saves[i].name == mine[i].name && mine[i].mark <= |log|)
    && (forall i, j :: 0 <= i < j < |mine| ==> mine[i].mark <= mine[j].mark)
    && (schemas ==> forall i :: 0 <= i < |mine| ==> saves[i].schema == Strip(Merged(g, Replay(g, log[..mine[i].mark]))))
  }

  predicate Numbered(mine: seq<ClientSave>, counter: nat) {
    && (forall i :: 0 <= i < |mine| ==> mine[i].name <= counter)
    && (forall i, j :: 0 <= i < j < |mine| ==> mine[i].name < mine[j].name)
  }

  /** What the transaction sees is what the server has inside it. */
  ghost predicate InStep(conn: Connection, reg: Registry, txn: TxnBuffer)
    reads conn, reg, reg.tables, txn
  {
    conn.transactional && !conn.aborted ==> conn.current == Strip(Merged(reg.tables.Recs(), txn.Ov()))
  }

  /** What the transaction sees, versions aside, if its log is as given. */
  function SeenAt(g: Records, log: seq<CatalogSpec.Op>): Seen {
    Seen(Strip(Merged(g, Replay(g, log))), log)
  }

  /** Each mark is where the log stood when the transaction saw what the
      savepoint stands for. */
  ghost predicate Marked(g: Records, log: seq<CatalogSpec.Op>, mine: seq<ClientSave>, stack: seq<Seen>) {
    && |mine| == |stack|
    && (forall i :: 0 <= i < |mine| ==> mine[i].mark <= |log| && stack[i] == SeenAt(g, log[..mine[i].mark]))
    && (forall i, j :: 0 <= i < j < |mine| ==> mine[i].mark <= mine[j].mark)
  }

  lemma MarkedPush(g: Records, log: seq<CatalogSpec.Op>, mine: seq<ClientSave>, stack: seq<Seen>, name: nat)
    requires Marked(g, log, mine, stack)
    ensures Marked(g, log, mine + [ClientSave(name, |log|)], stack + [SeenAt(g, log)])
  {
    hide SeenAt;
    assert log[..|log|] == log;
  }

  lemma MarkedLonger(g: Records, log: seq<CatalogSpec.Op>, longer: seq<CatalogSpec.Op>, mine: seq<ClientSave>,
          stack: seq<Seen>)
    requires Marked(g, log, mine, stack) && log <= longer
    ensures Marked(g, longer, mine, stack)
  {
    hide SeenAt;
    forall i | 0 <= i < |mine| ensures longer[..mine[i].mark] == log[..mine[i].mark] {
    }
  }

  lemma MarkedBack(g: Records, log: seq<CatalogSpec.Op>, mine: seq<ClientSave>, stack: seq<Seen>, k: nat)
    requires Marked(g, log, mine, stack) && k < |mine|
    ensures |mine| == |stack| && mine[k].mark <= |log|
    ensures stack[k] == SeenAt(g, log[..mine[k].mark])
    ensures Marked(g, log[..mine[k].mark], mine[..k + 1], stack[..k + 1])
  {
    hide SeenAt;
    var last := mine[k].mark;
    forall i | 0 <= i <= k ensures mine[i].mark <= last && log[..last][..mine[i].mark] == log[..mine[i].mark] {
    }
  }

  /** The client, the catalog and the buffer are where the run has got to. */
  ghost predicate OnCourse(reg: Registry, txn: TxnBuffer, l: Locals, s: RunState)
    reads reg, reg.tables, txn
  {
    && Reached(reg, l, s) && reg.counter == s.next
    && (l.inTrx ==>
          SeenAt(reg.tables.Recs(), txn.log) == s.seen && Marked(reg.tables.Recs(), txn.log, l.saves, s.stack))
  }

  /** As far as can still be told after an exception. */
  ghost predicate Reached(reg: Registry, l: Locals, s: RunState)
    reads reg, reg.tables
  {
    && Strip(reg.tables.Recs()) == s.catalog && l.inTrx == s.inTrx && TallyOf(l.out) == s.tally
    && l.out.end == if l.inTrx then EndError else EndCommitted
  }

  /** While the client takes transaction number idx for open. Only a failed
      statement can have ended it behind the client's back. */
  ghost predicate Inside(conn: Connection, reg: Registry, txn: TxnBuffer, l: Locals, idx: nat)
    reads conn, reg, reg.tables, txn
  {
    && conn.Valid() && BufferOk(reg, txn)
    && l.inTrx && idx == |conn.fates| - 1 && l.out.end == EndError
    && Numbered(l.saves, l.spCounter)
    && (conn.open ==> SavesMatch(conn.saves, l.saves, reg.tables.Recs(), txn.log, conn.transactional))
    && (!conn.open && !conn.gone ==> conn.fates[idx] == RolledBack)
  }

  /** After a mysql implicit commit. */
  ghost predicate Outside(conn: Connection, reg: Registry, guard: TxGuard, l: Locals, idx: nat)
    reads conn, reg, reg.tables, guard
  {
    && conn.Valid() && reg.Valid() && !conn.transactional
    && !l.inTrx && !guard.armed && !conn.open
    && idx < |conn.fates| && conn.fates[idx] == Committed && l.out.end == EndCommitted
  }

  /** An exception is on its way out: either the guard will end whatever is
      open, or nothing is open and the outcome already says what happened. */
  ghost predicate Unwinding(conn: Connection, guard: TxGuard, l: Locals, idx: nat)
    reads conn, guard
  {
    && conn.Valid() && idx < |conn.fates|
    && (!conn.gone ==>
        if guard.armed then
          l.out.end == EndError
          && (if conn.open then idx == |conn.fates| - 1 else conn.fates[idx] == RolledBack)
        else
          !conn.open && (l.out.end == EndCommitted <==> conn.fates[idx] in {Committed, Hollow})
          && (conn.fates[idx] == Hollow ==> conn.transactional))
  }

  /** The same, thrown while the transaction was the client's. */
  ghost predicate UnwindingInside(conn: Connection, guard: TxGuard, l: Locals, idx: nat)
    reads conn, guard
  {
    Unwinding(conn, guard, l, idx) && (!conn.gone && !conn.open ==> conn.fates[idx] == RolledBack)
  }

  function SubOkCount(l: Locals): Locals { l.(out := l.out.(subOk := l.out.subOk + 1)) }

  function RewindCount(l: Locals): Locals {
    l.(out := l.out.(savepointRollbacks := l.out.savepointRollbacks + 1))
  }

  function SubFailCount(l: Locals): Locals { l.(out := l.out.(subFail := l.out.subFail + 1)) }

  // ---- running sub-actions ----

  method Realize(item: Work, reg: Registry) returns (op: CatalogSpec.Op)
    requires reg.Valid()
    modifies reg
    ensures reg.Valid() && reg.counter == IdAfter(item, old(reg.counter)) && op == OpOf(item, old(reg.counter))
  {
    match item {
      case Create(rec) =>
        var id := reg.NextId();
        op := CatalogSpec.InsertOp(rec.(id := id));
      case Change(id, delta) => op := CatalogSpec.UpdateOp(id, delta);
      case Remove(id) => op := CatalogSpec.EraseOp(id);
    }
  }

  method BufferOp(op: CatalogSpec.Op, view: CatalogView)
    requires view.txn != null && view.Valid() && (op.InsertOp? ==> op.rec.id != 0)
    modifies view.catalog, view.txn
    ensures view.Valid() && view.catalog.Abs() == old(view.catalog.Abs())
    ensures view.Seen() == OnSchema(old(view.Seen()), op)
    ensures view.txn.log == old(view.txn.log) + if Taken(old(view.Seen()), op) then [op] else []
  {
    match op {
      case InsertOp(rec) => var ok := view.Insert(rec);
      case UpdateOp(id, delta) => var ok := view.Update(id, delta);
      case EraseOp(id) => var ok := view.Erase(id);
    }
  }

  lemma BufferExtend(g: Records, log: seq<CatalogSpec.Op>, op: CatalogSpec.Op, c: ObjectId, c': ObjectId)
    requires Publishable(g, log) && LogBelow(log, c) && 0 < c <= c' && Blind(op)
    requires op.InsertOp? ==> op.rec.id == c && op.rec.id < c'
    requires forall id :: id in g ==> id < c
    ensures Publishable(g, log + [op]) && LogBelow(log + [op], c') && LogBelow(log, c')
  {
    ReplayBelow(g, log, c);
    PublishableExtend(g, log, op);
  }

  /** One change through a view, and the same change on the server. */
  method DoWork(item: Work, view: CatalogView, conn: Connection, reg: Registry)
    requires view.catalog == reg.tables && view.txn != null && BufferOk(reg, view.txn)
    requires conn.Valid() && conn.open && InStep(conn, reg, view.txn)
    requires item.Change? ==> VersionBlind(item.delta)
    modifies conn`current, reg, reg.tables, view.txn
    ensures BufferOk(reg, view.txn) && reg.tables.Abs() == old(reg.tables.Abs())
    ensures conn.Valid() && InStep(conn, reg, view.txn)
    ensures old(view.txn.log) <= view.txn.log
    ensures reg.counter == IdAfter(item, old(reg.counter))
    ensures SeenAt(reg.tables.Recs(), view.txn.log) ==
      Take(old(SeenAt(reg.tables.Recs(), view.txn.log)), OpOf(item, old(reg.counter)))
  {
    hide Publishable, LogBelow, Blind, VersionBlind, FreshInsert, Strip, OnSchema, Replay, Taken;
    ghost var seen, g, log := view.Seen(), reg.tables.Recs(), view.txn.log;
    var op := Realize(item, reg);
    BufferExtend(g, log, op, old(reg.counter), reg.counter);
    StripOnSchema(seen, op);
    BufferOp(op, view);
    assert log + [] == log;
    assert reg.tables.Recs() == reg.tables.Abs().recs == g;
    assert BufferOk(reg, view.txn);
    conn.current := Strip(OnSchema(conn.current, op));
  }

  method DoAllWork(work: seq<Work>, view: CatalogView, conn: Connection, reg: Registry)
    requires view.catalog == reg.tables && view.txn != null && BufferOk(reg, view.txn)
    requires conn.Valid() && conn.open && InStep(conn, reg, view.txn)
    requires forall i :: 0 <= i < |work| && work[i].Change? ==> VersionBlind(work[i].delta)
    modifies conn`current, reg, reg.tables, view.txn
    ensures BufferOk(reg, view.txn) && reg.tables.Abs() == old(reg.tables.Abs())
    ensures conn.Valid() && InStep(conn, reg, view.txn)
    ensures old(view.txn.log) <= view.txn.log
    ensures reg.counter == IdAfterAll(work, old(reg.counter))
    ensures SeenAt(reg.tables.Recs(), view.txn.log) ==
      Worked(old(SeenAt(reg.tables.Recs(), view.txn.log)), work, old(reg.counter))
  {
    hide OpOf, IdAfter, SeenAt, Take;
    for i := 0 to |work|
      invariant IdAfterAll(work[i..], reg.counter) == IdAfterAll(work, old(reg.counter))
      invariant Worked(SeenAt(reg.tables.Recs(), view.txn.log), work[i..], reg.counter) ==
                Worked(old(SeenAt(reg.tables.Recs(), view.txn.log)), work, old(reg.counter))
      invariant BufferOk(reg, view.txn) && reg.tables.Abs() == old(reg.tables.Abs())
      invariant conn.Valid() && InStep(conn, reg, view.txn)
      invariant old(view.txn.log) <= view.txn.log
    {
      assert work[i..][0] == work[i] && work[i..][1..] == work[i + 1..];
      DoWork(work[i], view, conn, reg);
    }
  }

  /** The server after the last statement of a sub-action. */
  method EndSub(sub: Sub, conn: Connection)
    requires conn.Valid() && conn.open
    modifies conn
    ensures conn.Valid() && conn.outcomes == old(conn.outcomes) && conn.committed == old(conn.committed)
    ensures conn.gone <==> sub.ending == ServerGone
    ensures sub.ending == Returned ==> conn.open && conn.current == old(conn.current)
    ensures sub.ending == Returned ==> conn.aborted == (old(conn.aborted) || (conn.transactional && sub.spoils))
    ensures conn.open ==> conn.saves == old(conn.saves) && conn.fates == old(conn.fates)
    ensures !conn.open && !conn.gone ==> conn.fates == EndLast(true, old(conn.fates), RolledBack)
    ensures |conn.fates| == |old(conn.fates)| && conn.refused == old(conn.refused)
  {
    if sub.sends {
      conn.queries := conn.queries + 1;
    }
    match sub.ending {
      case Returned =>
        conn.aborted := conn.aborted || (conn.transactional && sub.spoils);
      case ServerGone =>
        conn.Lose();
      case _ =>
        conn.current := sub.debris;
        conn.aborted := conn.transactional;
        if sub.kills {
          conn.Close(RolledBack);
        }
    }
  }

  /** A sub-action inside the transaction. What it sees before it starts is what
      the server has: that is a precondition. */
  method RunBuffered(sub: Sub, view: CatalogView, conn: Connection, reg: Registry) returns (end: Ending)
    requires SubOk(sub)
    requires view.catalog == reg.tables && view.txn != null && BufferOk(reg, view.txn)
    requires conn.Valid() && conn.open && InStep(conn, reg, view.txn)
    modifies conn, reg, reg.tables, view.txn
    ensures BufferOk(reg, view.txn) && reg.tables.Abs() == old(reg.tables.Abs())
    ensures old(view.txn.log) <= view.txn.log
    ensures conn.Valid() && conn.outcomes == old(conn.outcomes) && conn.committed == old(conn.committed)
    ensures end == sub.ending && (conn.gone <==> end == ServerGone)
    ensures end == Returned ==> conn.open && InStep(conn, reg, view.txn)
    ensures end == Returned ==> conn.aborted == (old(conn.aborted) || (conn.transactional && Spoils(sub)))
    ensures conn.open ==> conn.saves == old(conn.saves) && conn.fates == old(conn.fates)
    ensures !conn.open && !conn.gone ==> conn.fates == EndLast(true, old(conn.fates), RolledBack)
    ensures |conn.fates| == |old(conn.fates)| && conn.refused == old(conn.refused)
    ensures reg.counter == IdAfterAll(sub.work, old(reg.counter))
    ensures SeenAt(reg.tables.Recs(), view.txn.log) ==
      Worked(old(SeenAt(reg.tables.Recs(), view.txn.log)), sub.work, old(reg.counter))
  {
    DoAllWork(sub.work, view, conn, reg);
    EndSub(sub, conn);
    end := sub.ending;
  }

  /** SELECT ... FOR UPDATE, then DELETE or UPDATE by id, in a transaction of its
      own unless one is open (core/src/action/dml.cpp). write is the schema the
      second statement leaves, or none if the SELECT gives no ids. */
  method SelectThenModify(inTransaction: bool, write: Option<Records>, conn: Connection) returns (end: Ending)
    requires conn.Valid() && (conn.open <==> inTransaction)
    modifies conn
    ensures conn.Valid() && conn.outcomes == old(conn.outcomes)
    ensures end in {Returned, SqlFailed, ServerGone}
    ensures end == Returned ==> !conn.gone
    ensures end == ServerGone ==> conn.gone
    ensures end == Returned <==> conn.refused == old(conn.refused)
    ensures old(conn.refused) <= conn.refused
    // alone, a success is committed
    ensures !inTransaction ==> !conn.open && old(conn.fates) <= conn.fates
    ensures !inTransaction && end == Returned ==>
      && conn.fates == old(conn.fates) + [Committed]
      && conn.committed == if write.Some? then write.value else old(conn.committed)
    // and a failure is rolled back, if it had begun a transaction at all
    ensures !inTransaction && end != Returned ==> conn.committed == old(conn.committed)
    ensures !inTransaction && end == SqlFailed ==>
      || conn.fates == old(conn.fates)
      || conn.fates == old(conn.fates) + [if conn.gone then Lost else RolledBack]
    ensures !inTransaction && end == ServerGone ==>
      conn.fates == old(conn.fates) || conn.fates == old(conn.fates) + [Lost]
    // inside a transaction the end is left to its owner
    ensures inTransaction ==> conn.committed == old(conn.committed)
    ensures inTransaction && !conn.gone ==> conn.open && conn.fates == old(conn.fates)
    ensures inTransaction && end == Returned ==>
      && !conn.aborted && conn.saves == old(conn.saves)
      && conn.current == if write.Some? then write.value else old(conn.current)
    ensures inTransaction && end == SqlFailed ==>
      && (conn.aborted <==> conn.transactional) && conn.saves == old(conn.saves)
      && conn.current == old(conn.current)
  {
    var guard: TxGuard? := null;
    var r;
    if !inTransaction {
      r := conn.Begin();
      if r != Ok {
        return if r == Gone then ServerGone else SqlFailed;
      }
      guard := new TxGuard(conn);
    }
    r := conn.Execute(conn.current);
    if r == Ok && write.Some? {
      r := conn.Execute(write.value);
    }
    if r == Ok && guard != null {
      r := conn.Commit();
      guard.Disarm();
    }
    end := match r case Ok => Returned case Err => SqlFailed case Gone => ServerGone;
    if guard != null {
      guard.Destroy();
    }
  }

  /** ROLLBACK TO a savepoint, on the server and in the buffer. */
  method Rewind(pick: nat, conn: Connection, reg: Registry, txn: TxnBuffer, l: Locals, ghost idx: nat,
          ghost stack: seq<Seen>)
    returns (r: Reply, l': Locals)
    requires Inside(conn, reg, txn, l, idx) && pick < |l.saves|
    requires Marked(reg.tables.Recs(), txn.log, l.saves, stack) && |stack| == |l.saves|
    modifies conn, txn
    ensures conn.outcomes == old(conn.outcomes) && conn.committed == old(conn.committed)
    ensures conn.refused == old(conn.refused) + if r == Ok then 0 else 1
    ensures Inside(conn, reg, txn, l', idx) && (r == Gone <==> conn.gone)
    ensures l' == if r == Ok then RewindCount(l.(saves := l.saves[..pick + 1])) else l
    ensures r == Ok ==>
      SeenAt(reg.tables.Recs(), txn.log) == stack[pick]
      && Marked(reg.tables.Recs(), txn.log, l'.saves, stack[..pick + 1])
    ensures r != Ok ==> txn.log == old(txn.log)
    ensures r == Ok ==> conn.open && !conn.aborted && InStep(conn, reg, txn)
    ensures r == Err ==> conn.open == old(conn.open) && conn.saves == old(conn.saves)
    ensures r == Ok ==> old(conn.open) && pick < |old(conn.saves)| && conn.saves == old(conn.saves)[..pick + 1]
  {
    hide Publishable, LogBelow, Strip, Merged, Replay, Numbered, SavesMatch, LatestNamed, SeenAt, Marked;
    ghost var saves, log := conn.saves, txn.log;
    MarkedBack(reg.tables.Recs(), log, l.saves, stack, pick);
    r := conn.RollbackTo(l.saves[pick].name);
    l' := l;
    if r == Ok {
      OnlyNamed(saves, l.saves, reg.tables.Recs(), log, conn.transactional, l.spCounter, pick);
      txn.RollbackTo(l.saves[pick].mark, reg.tables);
      l' := RewindCount(l.(saves := l.saves[..pick + 1]));
      RewindKeeps(reg.tables.Recs(), log, l.saves[pick].mark, reg.counter);
      SavesKeep(saves, l.saves, reg.tables.Recs(), log, conn.transactional, pick);
    }
  }

  /** The server finds the savepoint the client means. */
  lemma OnlyNamed(saves: seq<ServerSave>, mine: seq<ClientSave>, g: Records, log: seq<CatalogSpec.Op>,
          schemas: bool, counter: nat, pick: nat)
    requires SavesMatch(saves, mine, g, log, schemas) && Numbered(mine, counter) && pick < |mine|
    ensures |saves| == |mine| && forall k :: LatestNamed(saves, mine[pick].name, k) ==> k == pick
    ensures Numbered(mine[..pick + 1], counter)
    ensures schemas ==> saves[pick].schema == Strip(Merged(g, Replay(g, log[..mine[pick].mark])))
    ensures mine[pick].mark <= |log|
  {
    hide Strip, Merged, Replay;
  }

  lemma RewindKeeps(g: Records, log: seq<CatalogSpec.Op>, m: nat, c: ObjectId)
    requires m <= |log| && Publishable(g, log) && LogBelow(log, c)
    ensures Publishable(g, log[..m]) && LogBelow(log[..m], c)
  {
    PublishablePrefix(g, log, m);
  }

  /** Marks grow with the savepoints, so a rewind keeps the earlier ones. */
  lemma SavesKeep(saves: seq<ServerSave>, mine: seq<ClientSave>, g: Records, log: seq<CatalogSpec.Op>,
          schemas: bool, pick: nat)
    requires pick < |mine| && SavesMatch(saves, mine, g, log, schemas)
    ensures SavesMatch(saves[..pick + 1], mine[..pick + 1], g, log[..mine[pick].mark], schemas)
  {
    var last := mine[pick].mark;
    forall i | 0 <= i <= pick
      ensures mine[i].mark <= last && log[..last][..mine[i].mark] == log[..mine[i].mark]
    {
    }
  }

  /** Ready for the next sub-action inside the transaction. */
  ghost predicate Ready(conn: Connection, reg: Registry, txn: TxnBuffer, guard: TxGuard, l: Locals, idx: nat)
    reads conn, reg, reg.tables, txn, guard
  {
    && Inside(conn, reg, txn, l, idx) && l.inTrx && reg.Valid()
    && conn.open && guard.armed && guard.conn == conn && InStep(conn, reg, txn)
  }

  method TakeSavepoint(conn: Connection, reg: Registry, txn: TxnBuffer, ghost guard: TxGuard, l0: Locals,
          ghost idx: nat, ghost stack: seq<Seen>)
    returns (r: Reply, l: Locals)
    requires Ready(conn, reg, txn, guard, l0, idx)
    requires Marked(reg.tables.Recs(), txn.log, l0.saves, stack)
    modifies conn
    ensures conn.outcomes == old(conn.outcomes) && conn.committed == old(conn.committed)
    ensures conn.refused == old(conn.refused) + if r == Ok then 0 else 1
    ensures r == Ok ==> Inside(conn, reg, txn, l, idx) && conn.open && InStep(conn, reg, txn) && !conn.aborted
    ensures l.spCounter == l0.spCounter + 1 && l.out == l0.out && l.inTrx == l0.inTrx
    ensures l.saves == l0.saves + if r == Ok then [ClientSave(l.spCounter, |txn.log|)] else []
    ensures r == Ok ==> conn.saves == old(conn.saves) + [ServerSave(l.spCounter, conn.current)]
    ensures r == Ok ==>
      Marked(reg.tables.Recs(), txn.log, l.saves, stack + [SeenAt(reg.tables.Recs(), txn.log)])
    ensures |l.saves| == |stack| + if r == Ok then 1 else 0
    ensures r != Ok ==> UnwindingInside(conn, guard, l, idx)
    ensures r == Gone <==> conn.gone
  {
    hide Publishable, LogBelow, Strip, Replay, Merged, SeenAt;
    MarkedPush(reg.tables.Recs(), txn.log, l0.saves, stack, l0.spCounter + 1);
    var sp := l0.spCounter + 1;
    l := l0.(spCounter := sp);
    assert l.saves == l0.saves + [];
    r := conn.Savepoint(sp);
    if r == Ok {
      var mark := txn.Mark();
      l := l.(saves := l.saves + [ClientSave(sp, mark)]);
      assert txn.log[..mark] == txn.log;
    }
  }

  /** A buffered sub-action keeps the savepoints as they were. */
  method RunInside(sub: Sub, conn: Connection, reg: Registry, txn: TxnBuffer, l: Locals, ghost idx: nat,
          ghost stack: seq<Seen>)
    returns (end: Ending)
    requires SubOk(sub) && Inside(conn, reg, txn, l, idx) && conn.open && InStep(conn, reg, txn)
    requires Marked(reg.tables.Recs(), txn.log, l.saves, stack)
    modifies conn, reg, reg.tables, txn
    ensures reg.tables.Abs() == old(reg.tables.Abs()) && Marked(reg.tables.Recs(), txn.log, l.saves, stack)
    ensures conn.outcomes == old(conn.outcomes) && conn.committed == old(conn.committed)
    ensures conn.refused == old(conn.refused)
    ensures Inside(conn, reg, txn, l, idx) && end == sub.ending && (end == ServerGone <==> conn.gone)
    ensures reg.Valid()
    ensures end == Returned ==> conn.open && InStep(conn, reg, txn)
    ensures end == Returned ==> conn.aborted == (old(conn.aborted) || (conn.transactional && Spoils(sub)))
    ensures conn.open ==> conn.saves == old(conn.saves)
    ensures reg.counter == IdAfterAll(sub.work, old(reg.counter))
    ensures SeenAt(reg.tables.Recs(), txn.log) ==
      Worked(old(SeenAt(reg.tables.Recs(), txn.log)), sub.work, old(reg.counter))
  {
    hide SeenAt, Marked, SavesMatch, Numbered, Publishable, LogBelow, Strip, Replay, Merged, Worked, IdAfterAll;
    ghost var log := txn.log;
    end := RunBuffered(sub, CatalogView(reg.tables, txn), conn, reg);
    MarkedLonger(reg.tables.Recs(), log, txn.log, l.saves, stack);
    if conn.open {
      LongerLog(conn.saves, l.saves, reg.tables.Recs(), log, txn.log, conn.transactional);
    }
  }

  lemma InsideCounted(conn: Connection, reg: Registry, txn: TxnBuffer, l: Locals, idx: nat)
    requires Inside(conn, reg, txn, l, idx)
    ensures Inside(conn, reg, txn, SubOkCount(l), idx) && Inside(conn, reg, txn, SubFailCount(l), idx)
  {
  }

  lemma InsideUnwinds(conn: Connection, reg: Registry, txn: TxnBuffer, guard: TxGuard, l: Locals, idx: nat)
    requires Inside(conn, reg, txn, l, idx) && (conn.gone || guard.armed)
    ensures UnwindingInside(conn, guard, l, idx)
  {
  }

  /** The handlers of savepoint mode: a lost server is rethrown, anything else
      is rewound to the newest savepoint and counted. */
  method Recover(end: Ending, conn: Connection, reg: Registry, txn: TxnBuffer, guard: TxGuard, l0: Locals,
          ghost idx: nat, ghost stack: seq<Seen>)
    returns (exit: Exit, l: Locals)
    requires Inside(conn, reg, txn, l0, idx) && l0.saves != [] && reg.Valid() && guard.armed && guard.conn == conn
    requires Marked(reg.tables.Recs(), txn.log, l0.saves, stack) && |stack| == |l0.saves|
    requires end == ServerGone <==> conn.gone
    modifies conn, txn, guard
    ensures conn.outcomes == old(conn.outcomes) && conn.committed == old(conn.committed)
    ensures conn.refused == old(conn.refused) + if exit == Exception && end != ServerGone then 1 else 0
    ensures end == ServerGone ==> exit == Exception
    ensures l == if exit == Normal then SubFailCount(RewindCount(l0)) else l0
    ensures exit == Normal ==> Ready(conn, reg, txn, guard, l, idx) && !conn.aborted
    ensures exit == Normal ==>
      SeenAt(reg.tables.Recs(), txn.log) == stack[|stack| - 1] && Marked(reg.tables.Recs(), txn.log, l.saves, stack)
    ensures exit == Exception ==> UnwindingInside(conn, guard, l, idx)
  {
    hide Inside, InStep, BufferOk, SeenAt, Marked;
    if end == ServerGone {
      guard.Disarm();
      InsideUnwinds(conn, reg, txn, guard, l0, idx);
      return Exception, l0;
    }
    var last := |l0.saves| - 1;
    var r;
    r, l := Rewind(last, conn, reg, txn, l0, idx, stack);
    if r != Ok {
      InsideUnwinds(conn, reg, txn, guard, l, idx);
      return Exception, l;
    }
    assert stack[..last + 1] == stack && l0.saves[..last + 1] == l0.saves;
    InsideCounted(conn, reg, txn, l, idx);
    return Normal, SubFailCount(l);
  }

  /** A success that is rewound to the savepoint drawn. */
  method RewindSuccess(sub: Sub, conn: Connection, reg: Registry, txn: TxnBuffer, guard: TxGuard, l0: Locals,
          ghost idx: nat, ghost stack: seq<Seen>)
    returns (exit: Exit, l: Locals, ghost went: Went)
    requires Ready(conn, reg, txn, guard, l0, idx) && l0.saves != []
    requires Marked(reg.tables.Recs(), txn.log, l0.saves, stack) && |stack| == |l0.saves|
    requires sub.ending == Returned && sub.rewind
    modifies conn, txn, guard
    ensures conn.outcomes == old(conn.outcomes) && conn.committed == old(conn.committed)
    ensures old(conn.refused) <= conn.refused && StepOk(Save, conn.refused == old(conn.refused), sub, went)
    ensures if exit == Exception then went == Thrown(true) else went in {Back, Failed}
    ensures exit == Normal ==> Ready(conn, reg, txn, guard, l, idx) && !conn.aborted
    ensures exit == Normal ==>
      var k := if went == Back then sub.pick % |stack| else |stack| - 1;
      && SeenAt(reg.tables.Recs(), txn.log) == stack[k]
      && Marked(reg.tables.Recs(), txn.log, l.saves, if went == Back then stack[..k + 1] else stack)
      && l == (if went == Back then RewindCount(l0) else SubFailCount(RewindCount(l0))).(saves := l0.saves[..k + 1])
    ensures exit == Exception ==> UnwindingInside(conn, guard, l, idx) && l == l0
  {
    hide Inside, InStep, BufferOk, SeenAt, Marked;
    var pick := sub.pick % |l0.saves|;
    var r;
    r, l := Rewind(pick, conn, reg, txn, l0, idx, stack);
    if r == Ok {
      return Normal, l, Back;
    }
    exit, l := Recover(if r == Gone then ServerGone else SqlFailed, conn, reg, txn, guard, l, idx, stack);
    assert l0.saves[..|stack| - 1 + 1] == l0.saves;
    went := if exit == Normal then Failed else Thrown(true);
  }

  /** What a sub-action leaves that let a transaction with savepoints go on. */
  lemma OnSaved(reg: Registry, txn: TxnBuffer, l0: Locals, l: Locals, s: RunState, sub: Sub, went: Went)
    requires Reached(reg, l0, s) && l0.inTrx && reg.counter == IdAfterAll(sub.work, s.next)
    requires !Threw(went) && (sub.ending == Returned || went == Failed)
    requires
      var k := sub.pick % |Stacked(s)|;
      && SeenAt(reg.tables.Recs(), txn.log) == (
           if went == Back then Stacked(s)[k] else if went == On then Worked(s.seen, sub.work, s.next) else s.seen)
      && Marked(reg.tables.Recs(), txn.log, l.saves, if went == Back then Stacked(s)[..k + 1] else Stacked(s))
    requires
      var done := if sub.ending == Returned then SubOkCount(l0) else l0;
      l.inTrx && l.out ==
        match went
        case Back => RewindCount(done).out
        case Failed => SubFailCount(RewindCount(done)).out
        case _ => SubOkCount(l0).out
    ensures OnCourse(reg, txn, l, SaveStep(s, sub, went))
  {
    hide Strip, SeenAt, Marked, Worked, IdAfterAll;
  }

  lemma ThrewSaved(reg: Registry, l0: Locals, l: Locals, s: RunState, sub: Sub, counted: bool)
    requires Reached(reg, l0, s) && l.inTrx == l0.inTrx && l.out == if counted then SubOkCount(l0).out else l0.out
    ensures Reached(reg, l, SaveStep(s, sub, Thrown(counted)))
  {
    hide Strip, Worked, IdAfterAll;
  }

  /** Savepoint mode: a failed sub-action is rewound and the transaction goes
      on; a successful one may be rewound further, to any earlier savepoint. */
  method SavepointSub(sub: Sub, conn: Connection, reg: Registry, txn: TxnBuffer, guard: TxGuard,
          l0: Locals, ghost idx: nat, ghost s: RunState)
    returns (exit: Exit, l: Locals, ghost went: Went)
    requires SubOk(sub) && Ready(conn, reg, txn, guard, l0, idx) && OnCourse(reg, txn, l0, s)
    modifies conn, reg, reg.tables, txn, guard
    ensures reg.tables.Abs() == old(reg.tables.Abs()) && reg.Valid()
    ensures conn.outcomes == old(conn.outcomes) && conn.committed == old(conn.committed)
    ensures old(conn.refused) <= conn.refused && StepOk(Save, conn.refused == old(conn.refused), sub, went)
    ensures exit == Exception <==> Threw(went)
    ensures exit == Normal ==> Ready(conn, reg, txn, guard, l, idx) && OnCourse(reg, txn, l, SaveStep(s, sub, went))
    ensures exit == Normal && conn.transactional ==> (conn.aborted <==> Spoils(sub) && !sub.rewind)
    ensures exit == Exception ==> UnwindingInside(conn, guard, l, idx) && Reached(reg, l, SaveStep(s, sub, went))
  {
    hide Inside, InStep, BufferOk, Strip, Replay, Merged, SeenAt, Marked, Worked, IdAfterAll, UnwindingInside, SubOk;
    hide Connection.Valid, Registry.Valid, SaveStep;
    var r;
    r, l := TakeSavepoint(conn, reg, txn, guard, l0, idx, s.stack);
    if r != Ok {
      ThrewSaved(reg, l0, l, s, sub, false);
      return Exception, l, Thrown(false);
    }
    var end := RunInside(sub, conn, reg, txn, l, idx, Stacked(s));
    if end == Returned {
      InsideCounted(conn, reg, txn, l, idx);
      l := SubOkCount(l);
      if sub.rewind {
        exit, l, went := RewindSuccess(sub, conn, reg, txn, guard, l, idx, Stacked(s));
      } else {
        exit, went := Normal, On;
      }
    } else {
      exit, l := Recover(end, conn, reg, txn, guard, l, idx, Stacked(s));
      went := if exit == Normal then Failed else Thrown(false);
    }
    if exit == Normal {
      OnSaved(reg, txn, l0, l, s, sub, went);
    } else {
      ThrewSaved(reg, l0, l, s, sub, went.counted);
    }
  }

  lemma LongerLog(saves: seq<ServerSave>, mine: seq<ClientSave>, g: Records, log: seq<CatalogSpec.Op>,
          longer: seq<CatalogSpec.Op>, schemas: bool)
    requires SavesMatch(saves, mine, g, log, schemas) && log <= longer
    ensures SavesMatch(saves, mine, g, longer, schemas)
  {
    forall i | 0 <= i < |mine| ensures longer[..mine[i].mark] == log[..mine[i].mark] {
    }
  }

  /** Abort mode: the first failure ends the transaction. */
  method AbortSub(sub: Sub, conn: Connection, reg: Registry, txn: TxnBuffer, guard: TxGuard, l0: Locals, ghost idx: nat,
          ghost s: RunState)
    returns (exit: Exit, l: Locals, ghost went: Went)
    requires SubOk(sub) && Ready(conn, reg, txn, guard, l0, idx) && OnCourse(reg, txn, l0, s)
    modifies conn, reg, reg.tables, txn, guard
    ensures reg.tables.Abs() == old(reg.tables.Abs()) && reg.Valid()
    ensures conn.outcomes == old(conn.outcomes) && conn.committed == old(conn.committed)
    ensures conn.refused == old(conn.refused) && went == Smooth(Abort, sub)
    ensures exit == Normal <==> sub.ending == Returned
    ensures exit == Normal ==> Ready(conn, reg, txn, guard, l, idx) && OnCourse(reg, txn, l, AbortStep(s, sub, went))
    ensures exit == Normal ==> conn.aborted == (old(conn.aborted) || (conn.transactional && Spoils(sub)))
    ensures exit == Exception ==> UnwindingInside(conn, guard, l, idx) && (guard.armed <==> !conn.gone)
    ensures exit == Exception ==> Reached(reg, l, AbortStep(s, sub, went))
  {
    hide SavesMatch, Numbered, Publishable, LogBelow, Strip, Replay, Merged, SeenAt, Marked, Worked, IdAfterAll;
    l := l0;
    var end := RunInside(sub, conn, reg, txn, l, idx, s.stack);
    if end == Returned {
      return Normal, SubOkCount(l), On;
    }
    if end == ServerGone {
      guard.Disarm();
    }
    return Exception, l, Thrown(false);
  }

  // ---- mysql: DDL ends the transaction ----

  method PublishOne(item: Work, reg: Registry)
    requires reg.Valid()
    modifies reg, reg.tables
    ensures reg.Valid() && reg.counter == IdAfter(item, old(reg.counter))
    ensures reg.tables.Abs() == CatalogSpec.Apply(old(reg.tables.Abs()), OpOf(item, old(reg.counter)))
  {
    var view := CatalogView(reg.tables, null);
    var op := Realize(item, reg);
    match op {
      case InsertOp(rec) => var ok := view.Insert(rec);
      case UpdateOp(id, delta) => var ok := view.Update(id, delta);
      case EraseOp(id) => var ok := view.Erase(id);
    }
  }

  /** Changes published straight to the catalog. */
  method PublishDirect(work: seq<Work>, reg: Registry)
    requires reg.Valid()
    requires forall i :: 0 <= i < |work| && work[i].Change? ==> VersionBlind(work[i].delta)
    modifies reg, reg.tables
    ensures reg.Valid() && reg.counter == IdAfterAll(work, old(reg.counter))
    ensures reg.tables.Abs() == CatalogSpec.ApplyAll(old(reg.tables.Abs()), DirectOps(work, old(reg.counter)))
    ensures Strip(reg.tables.Recs()) == Landed(old(Strip(reg.tables.Recs())), DirectOps(work, old(reg.counter)))
  {
    hide OpOf, IdAfter, CatalogSpec.Apply, CatalogSpec.Sound, Landed, Strip, VersionBlind;
    ghost var ops, before := DirectOps(work, reg.counter), reg.tables.Abs();
    DirectBlind(work, reg.counter);
    LandedIs(before, ops);
    for i := 0 to |work|
      invariant reg.Valid() && IdAfterAll(work[i..], reg.counter) == IdAfterAll(work, old(reg.counter))
      invariant DirectOps(work[i..], reg.counter) == ops[i..]
      invariant reg.tables.Abs() == CatalogSpec.ApplyAll(before, ops[..i])
    {
      assert work[i..][1..] == work[i + 1..] && ops[i..][1..] == ops[i + 1..];
      assert ops[..i + 1] == ops[..i] + [ops[i]] && ops[i..][0] == ops[i];
      CatalogSpec.ApplyAllExtend(before, ops[..i], ops[i]);
      PublishOne(work[i], reg);
    }
    assert ops[..|work|] == ops;
  }

  lemma {:induction false} ApplyAllBelow(s: CatalogSpec.State, log: seq<CatalogSpec.Op>, c: ObjectId)
    requires LogBelow(log, c) && forall id :: id in s.recs ==> id < c
    ensures forall id :: id in CatalogSpec.ApplyAll(s, log).recs ==> id < c
  {
    if log != [] {
      ApplyAllBelow(s, log[..|log| - 1], c);
    }
  }

  /** A DDL sub-action run directly while a mysql transaction is open. If it
      returns after sending SQL, it has implicitly committed; if it fails, it
      has either done so or left the transaction open. */
  method RunImplicit(sub: Sub, conn: Connection, reg: Registry) returns (end: Ending)
    requires SubOk(sub) && conn.Valid() && conn.open && reg.Valid()
    modifies conn, reg, reg.tables
    ensures conn.Valid() && reg.Valid() && conn.outcomes == old(conn.outcomes) && conn.refused == old(conn.refused)
    ensures end == sub.ending && (conn.gone <==> end == ServerGone)
    ensures sub.sends <==> conn.queries > old(conn.queries)
    ensures !sub.sends ==> unchanged(conn) && unchanged(reg) && unchanged(reg.tables)
    ensures reg.counter == IdAfterAll(sub.work, old(reg.counter))
    ensures reg.tables.Abs() == CatalogSpec.ApplyAll(old(reg.tables.Abs()), DirectOps(sub.work, old(reg.counter)))
    ensures Strip(reg.tables.Recs()) == Landed(old(Strip(reg.tables.Recs())), DirectOps(sub.work, old(reg.counter)))
    ensures sub.sends && end == Returned ==> !conn.open
    ensures !conn.gone && conn.open ==> conn.fates == old(conn.fates) && conn.current == old(conn.current)
    ensures !conn.gone && !conn.open ==> conn.fates == EndLast(true, old(conn.fates), Committed)
    ensures conn.committed == if conn.open || conn.gone then old(conn.committed) else old(conn.current)
    ensures |conn.fates| == |old(conn.fates)|
  {
    end := sub.ending;
    if !sub.sends {
      return;
    }
    conn.queries := conn.queries + 1;
    PublishDirect(sub.work, reg);
    if end == ServerGone {
      conn.Lose();
    } else if end == Returned || sub.commits {
      conn.committed := conn.current;
      conn.Close(Committed);
    }
  }

  /** The catalog after the DDL's own changes. */
  function MirrorBase(s: CatalogSpec.State, sub: Sub, c: ObjectId): CatalogSpec.State {
    CatalogSpec.ApplyAll(s, DirectOps(sub.work, c))
  }

  /** Inside a mysql transaction: the buffer is published, after what the DDL
      itself published, exactly when a statement reached the server and the
      transaction is known to be over. */
  method MirrorDdl(sub: Sub, conn: Connection, reg: Registry, txn: TxnBuffer, guard: TxGuard, l0: Locals,
          ghost idx: nat, ghost s: RunState)
    returns (exit: Exit, l: Locals, ghost went: Went)
    requires SubOk(sub) && Ready(conn, reg, txn, guard, l0, idx) && !conn.transactional && OnCourse(reg, txn, l0, s)
    modifies conn, reg, reg.tables, txn, guard
    ensures conn.outcomes == old(conn.outcomes) && reg.Valid()
    ensures old(conn.refused) <= conn.refused && StepOk(Mirror, conn.refused == old(conn.refused), sub, went)
    ensures exit == Exception <==> Threw(went)
    ensures exit == Normal && l.inTrx ==> Ready(conn, reg, txn, guard, l, idx)
    ensures exit == Normal && !l.inTrx ==> Outside(conn, reg, guard, l, idx)
    ensures exit == Normal ==> OnCourse(reg, txn, l, MirrorStep(s, sub, went))
    ensures exit == Exception ==> Unwinding(conn, guard, l, idx) && Reached(reg, l, MirrorStep(s, sub, went))
    ensures exit == Normal ==> (l.inTrx <==> conn.queries == old(conn.queries))
    ensures exit == Normal && l.inTrx ==> reg.tables.Abs() == old(reg.tables.Abs()) && txn.log == old(txn.log)
    ensures exit == Normal && !l.inTrx ==> l.saves == [] && l.out.implicitCommits == l0.out.implicitCommits + 1
    // the work of the transaction is durable then
    ensures exit == Normal && !l.inTrx ==> conn.committed == old(conn.current)
    ensures exit == Normal && !l.inTrx ==>
      reg.tables.Abs() == CatalogSpec.ApplyAll(MirrorBase(old(reg.tables.Abs()), sub, old(reg.counter)), old(txn.log))
    ensures exit == Exception ==> reg.tables.Abs() == MirrorBase(old(reg.tables.Abs()), sub, old(reg.counter))
  {
    hide SavesMatch, Numbered, Publishable, Blind, Strip, Replay, Merged, Marked, CatalogSpec.Sound;
    hide CatalogSpec.ApplyAll, DirectOps, IdAfterAll, Landed, InStep;
    var before := conn.queries;
    var end := RunImplicit(sub, conn, reg);
    if end == ServerGone {
      guard.Disarm();
      return Exception, l0, Thrown(false);
    }
    l := if end == Returned then SubOkCount(l0) else SubFailCount(l0);
    went := Smooth(Mirror, sub);
    if conn.queries == before {
      return Normal, l, went;
    }
    if end != Returned {
      // a DDL the server refused outright has not committed anything
      var r := conn.Commit();
      if r != Ok {
        return Exception, l, Thrown(true);
      }
    }
    ApplyAllBelow(reg.tables.Abs(), txn.log, reg.counter);
    PublishableBlind(old(reg.tables.Recs()), txn.log);
    LandedIs(reg.tables.Abs(), txn.log);
    txn.PublishAll(reg.tables);
    guard.Disarm();
    l := l.(inTrx := false, saves := [],
            out := l.out.(implicitCommits := l.out.implicitCommits + 1, end := EndCommitted));
    return Normal, l, went;
  }

  /** After the implicit commit the remaining sub-actions run in autocommit, and
      each publishes its changes itself, however it ends. */
  method RunTail(sub: Sub, conn: Connection, reg: Registry, guard: TxGuard, l0: Locals, ghost idx: nat)
    returns (exit: Exit, l: Locals, ghost went: Went)
    requires SubOk(sub) && Outside(conn, reg, guard, l0, idx)
    modifies conn, reg, reg.tables
    ensures conn.outcomes == old(conn.outcomes)
    ensures Outside(conn, reg, guard, l, idx)
    ensures old(conn.refused) <= conn.refused && StepOk(Tail, conn.refused == old(conn.refused), sub, went)
    ensures exit == Exception <==> Threw(went)
    ensures went == Cut ==> old(conn.gone)
    ensures l == match went
                 case On => SubOkCount(l0)
                 case Failed => SubFailCount(l0)
                 case _ => l0
    ensures reg.counter == if went == Cut then old(reg.counter) else IdAfterAll(sub.work, old(reg.counter))
    ensures reg.tables.Abs() ==
      if went == Cut then old(reg.tables.Abs())
      else CatalogSpec.ApplyAll(old(reg.tables.Abs()), DirectOps(sub.work, old(reg.counter)))
    ensures Strip(reg.tables.Recs()) ==
      if went == Cut then old(Strip(reg.tables.Recs()))
      else Landed(old(Strip(reg.tables.Recs())), DirectOps(sub.work, old(reg.counter)))
  {
    var end := sub.ending;
    if sub.ownTrx {
      var write: Option<Records> := *;
      end := SelectThenModify(false, write, conn);
    } else if conn.gone && sub.sends {
      var _ := conn.Send();
      return Exception, l0, Cut;
    } else {
      PublishDirect(sub.work, reg);
      conn.Autocommit(sub);
    }
    match end {
      case ServerGone => return Exception, l0, Thrown(false);
      case Returned => return Normal, SubOkCount(l0), On;
      case _ => return Normal, SubFailCount(l0), Failed;
    }
  }

  // ---- the end ----

  /** COMMIT publishes the buffer, which turns the catalog into the schema the
      server has just made durable. commit is the draw between COMMIT and
      ROLLBACK. */
  method Finish(commit: bool, conn: Connection, reg: Registry, txn: TxnBuffer, guard: TxGuard, l0: Locals,
          ghost idx: nat)
    returns (exit: Exit, l: Locals)
    requires Ready(conn, reg, txn, guard, l0, idx)
    modifies conn, reg.tables, txn, guard
    ensures conn.outcomes == old(conn.outcomes) && reg.Valid()
    ensures Unwinding(conn, guard, l, idx) && !guard.armed
    ensures exit == Normal <==> conn.refused == old(conn.refused)
    ensures exit == Normal ==> !conn.gone
    ensures old(conn.refused) <= conn.refused
    // the outcome is set after the reply, and as drawn
    ensures l == if exit == Exception then l0
                 else l0.(out := l0.out.(end := if commit then EndCommitted else EndIntentional))
    ensures exit == Normal && commit ==> Strip(reg.tables.Recs()) == old(SeenAt(reg.tables.Recs(), txn.log)).schema
    ensures exit == Exception || !commit ==> reg.tables.Abs() == old(reg.tables.Abs())
    ensures exit == Normal && !conn.gone ==>
      conn.fates[idx] == if !commit then RolledBack else if old(conn.aborted) then Hollow else Committed
    ensures exit == Exception && !conn.gone ==> conn.fates[idx] == RolledBack
    ensures !conn.gone && conn.fates[idx] != Committed ==> conn.committed == old(conn.committed)
    ensures conn.transactional && !conn.gone && conn.fates[idx] == Committed ==>
      Strip(reg.tables.Recs()) == conn.committed
    ensures conn.transactional && !conn.gone && conn.fates[idx] == Hollow ==>
      (Strip(reg.tables.Recs()) == conn.committed <==>
       old(SeenAt(reg.tables.Recs(), txn.log)).schema == old(conn.committed))
  {
    l := l0;
    if commit {
      var r := conn.Commit();
      guard.Disarm();
      if r != Ok {
        return Exception, l;
      }
      l := l.(out := l.out.(end := EndCommitted));
      ApplyAllBelow(reg.tables.Abs(), txn.log, reg.counter);
      PublishIsMerged(reg.tables.Abs(), txn.log);
      txn.PublishAll(reg.tables);
    } else {
      guard.Disarm();
      var r := conn.Rollback();
      if r != Ok {
        return Exception, l;
      }
      l := l.(out := l.out.(end := EndIntentional));
    }
    return Normal, l;
  }

  /** Between two sub-actions, or on the way out after one that threw. */
  ghost predicate Running(conn: Connection, reg: Registry, txn: TxnBuffer, guard: TxGuard, l: Locals, exit: Exit,
          idx: nat)
    reads conn, reg, reg.tables, txn, guard
  {
    && reg.Valid() && guard.conn == conn
    && match exit
       case Normal =>
         (conn.transactional ==> l.inTrx) &&
         if l.inTrx then Ready(conn, reg, txn, guard, l, idx) else Outside(conn, reg, guard, l, idx)
       case Exception => Unwinding(conn, guard, l, idx) && (conn.transactional ==> UnwindingInside(conn, guard, l, idx))
  }

  method OneSub(cfg: Config, sub: Sub, conn: Connection, reg: Registry, txn: TxnBuffer, guard: TxGuard,
          l0: Locals, ghost idx: nat, ghost s: RunState)
    returns (exit: Exit, l: Locals, ghost went: Went)
    requires SubOk(sub) && Running(conn, reg, txn, guard, l0, Normal, idx) && OnCourse(reg, txn, l0, s)
    modifies conn, reg, reg.tables, txn, guard
    ensures Running(conn, reg, txn, guard, l, exit, idx) && conn.outcomes == old(conn.outcomes)
    ensures old(conn.refused) <= conn.refused
    ensures exit == Exception <==> Threw(went)
    ensures
      var mode := ModeOf(cfg, conn.transactional, s, sub);
      && StepOk(mode, conn.refused == old(conn.refused), sub, went)
      && (exit == Normal ==> OnCourse(reg, txn, l, Advance(mode, s, sub, went)))
      && (exit == Exception ==> Reached(reg, l, Advance(mode, s, sub, went)))
    ensures conn.transactional ==>
      reg.tables.Abs() == old(reg.tables.Abs()) && conn.committed == old(conn.committed)
    ensures exit == Normal && conn.transactional ==>
      (conn.aborted <==> if cfg.savepointMode then Spoils(sub) && !sub.rewind else old(conn.aborted) || Spoils(sub))
  {
    hide Worked, IdAfterAll, InStep, SeenAt, Marked, Landed, DirectOps, Strip, SaveStep, MirrorStep, AbortStep;
    if l0.inTrx && !conn.transactional && sub.isDdl {
      exit, l, went := MirrorDdl(sub, conn, reg, txn, guard, l0, idx, s);
    } else if !l0.inTrx {
      exit, l, went := RunTail(sub, conn, reg, guard, l0, idx);
    } else if cfg.savepointMode {
      exit, l, went := SavepointSub(sub, conn, reg, txn, guard, l0, idx, s);
    } else {
      exit, l, went := AbortSub(sub, conn, reg, txn, guard, l0, idx, s);
    }
  }

  method AllSubs(cfg: Config, script: seq<Sub>, conn: Connection, reg: Registry, txn: TxnBuffer, guard: TxGuard,
          l0: Locals, ghost idx: nat, ghost s: RunState)
    returns (exit: Exit, l: Locals, ghost trace: seq<Went>, ghost end: RunState)
    requires forall i :: 0 <= i < |script| ==> SubOk(script[i])
    requires Running(conn, reg, txn, guard, l0, Normal, idx) && l0.inTrx && !conn.aborted && OnCourse(reg, txn, l0, s)
    modifies conn, reg, reg.tables, txn, guard
    ensures Running(conn, reg, txn, guard, l, exit, idx) && conn.outcomes == old(conn.outcomes)
    ensures old(conn.refused) <= conn.refused
    ensures |trace| <= |script| && (|trace| == |script| || Stopped(trace)) && (exit == Exception <==> Stopped(trace))
    ensures
      Course(cfg, conn.transactional, conn.refused == old(conn.refused), s, script, trace) == Some(end)
    ensures exit == Normal ==> OnCourse(reg, txn, l, end)
    ensures exit == Exception ==> Reached(reg, l, end)
    ensures conn.transactional ==>
      reg.tables.Abs() == old(reg.tables.Abs()) && conn.committed == old(conn.committed)
    ensures exit == Normal && conn.transactional ==> (conn.aborted <==> LeftAborted(cfg, script, |script|))
  {
    hide Ready, Outside, Unwinding, UnwindingInside, OnCourse, Reached, Advance, StepOk, ModeOf;
    exit, l, trace, end := Normal, l0, [], s;
    var i := 0;
    while i < |script| && exit == Normal
      invariant 0 <= i == |trace| <= |script| && (exit == Exception <==> Stopped(trace))
      invariant Running(conn, reg, txn, guard, l, exit, idx) && conn.outcomes == old(conn.outcomes)
      invariant old(conn.refused) <= conn.refused
      invariant Course(cfg, conn.transactional, conn.refused == old(conn.refused), s, script, trace) == Some(end)
      invariant exit == Normal ==> OnCourse(reg, txn, l, end)
      invariant exit == Exception ==> Reached(reg, l, end)
      invariant conn.transactional ==>
        reg.tables.Abs() == old(reg.tables.Abs()) && conn.committed == old(conn.committed)
      invariant exit == Normal && conn.transactional ==> (conn.aborted <==> LeftAborted(cfg, script, i))
    {
      ghost var refused, calm, before, went := conn.refused, conn.refused == old(conn.refused), end, On;
      exit, l, went := OneSub(cfg, script[i], conn, reg, txn, guard, l, idx, before);
      end := Advance(ModeOf(cfg, conn.transactional, before, script[i]), before, script[i], went);
      CourseNext(cfg, conn.transactional, calm, s, script, trace, before, conn.refused == refused, went,
        conn.refused == old(conn.refused));
      trace, i := trace + [went], i + 1;
    }
  }

  /** The transaction of this execution, if one was begun and the server is
      still there to tell what became of it. */
  ghost predicate Known(conn: Connection, idx: nat)
    reads conn
  {
    idx < |conn.fates| && !conn.gone
  }

  /** Its COMMIT was accepted. */
  ghost predicate Accepted(conn: Connection, idx: nat)
    reads conn
  {
    Known(conn, idx) && conn.fates[idx] in {Committed, Hollow}
  }

  method Serve(cfg: Config, script: seq<Sub>, commit: bool, conn: Connection, reg: Registry, txn: TxnBuffer,
          guard: TxGuard, l0: Locals, ghost idx: nat, ghost s: RunState)
    returns (exit: Exit, l: Locals, ghost trace: seq<Went>)
    requires forall i :: 0 <= i < |script| ==> SubOk(script[i])
    requires Running(conn, reg, txn, guard, l0, Normal, idx) && l0.inTrx && !conn.aborted && OnCourse(reg, txn, l0, s)
    modifies conn, reg, reg.tables, txn, guard
    ensures Unwinding(conn, guard, l, idx) && reg.Valid() && conn.outcomes == old(conn.outcomes)
    ensures old(conn.refused) <= conn.refused
    ensures Follows(cfg, conn.transactional, conn.refused == old(conn.refused), s, script, commit,
              Shown(trace, exit == Normal, l.out, Strip(reg.tables.Recs())))
    ensures conn.transactional && !guard.armed && Accepted(conn, idx) ==>
      (conn.fates[idx] == Hollow <==> LeftAborted(cfg, script, |script|))
    ensures conn.transactional && Known(conn, idx) && (guard.armed || conn.fates[idx] != Committed) ==>
      conn.committed == old(conn.committed)
    ensures conn.transactional && Known(conn, idx) && !guard.armed && conn.fates[idx] == Committed ==>
      Strip(reg.tables.Recs()) == conn.committed
    ensures conn.transactional && !(!guard.armed && Accepted(conn, idx)) ==>
      reg.tables.Abs() == old(reg.tables.Abs())
  {
    hide LeftAborted, Strip, SeenAt, Marked;
    ghost var end;
    exit, l, trace, end := AllSubs(cfg, script, conn, reg, txn, guard, l0, idx, s);
    ghost var refused := conn.refused;
    if exit == Normal && l.inTrx {
      exit, l := Finish(commit, conn, reg, txn, guard, l, idx);
    }
    if refused == old(conn.refused) != conn.refused {
      CourseCalm(cfg, conn.transactional, s, script, trace);
    }
  }

  lemma Opened(conn: Connection, reg: Registry, txn: TxnBuffer, guard: TxGuard, l: Locals, idx: nat)
    requires conn.Valid() && conn.open && reg.Valid() && idx == |conn.fates| - 1 && conn.saves == []
    requires conn.transactional ==> conn.current == Strip(reg.tables.Recs())
    requires txn.log == [] && txn.Ov() == NOTHING && guard.armed && guard.conn == conn
    requires l == Locals(true, [], 0, Outcome(EndError, 0, 0, 0, 0))
    ensures Running(conn, reg, txn, guard, l, Normal, idx)
    ensures OnCourse(reg, txn, l, Start(Strip(reg.tables.Recs()), reg.counter))
  {
    assert Merged(reg.tables.Recs(), NOTHING) == reg.tables.Recs();
  }

  /** The destructors, in the order they run: guard, then recorder. */
  method CleanUp(conn: Connection, guard: TxGuard, l: Locals, ghost idx: nat)
    requires Unwinding(conn, guard, l, idx) && guard.conn == conn
    modifies conn
    ensures conn.Valid() && !conn.open && idx < |conn.fates| && conn.committed == old(conn.committed)
    ensures conn.outcomes == old(conn.outcomes) + [l.out]
    ensures Known(conn, idx) ==> (l.out.end == EndCommitted <==> conn.fates[idx] in {Committed, Hollow})
    ensures (old(conn.gone) ==> conn.gone) && (!guard.armed ==> conn.gone == old(conn.gone))
    ensures Known(conn, idx) ==> conn.fates[idx] == if guard.armed then RolledBack else old(conn.fates)[idx]
    ensures old(conn.refused) <= conn.refused
  {
    guard.Destroy();
    conn.Record(l.out);
  }

  /** Everything between BEGIN and the last destructor. */
  method Body(cfg: Config, script: seq<Sub>, commit: bool, conn: Connection, reg: Registry, ghost idx: nat)
    returns (exit: Exit, ghost o: Outcome, ghost trace: seq<Went>)
    requires conn.Valid() && conn.open && !conn.aborted && reg.Valid()
    requires idx == |conn.fates| - 1 && conn.saves == []
    requires conn.transactional ==> conn.current == Strip(reg.tables.Recs())
    requires forall i :: 0 <= i < |script| ==> SubOk(script[i])
    modifies conn, reg, reg.tables
    ensures conn.Valid() && !conn.open && reg.Valid() && idx < |conn.fates|
    ensures conn.outcomes == old(conn.outcomes) + [o]
    ensures Known(conn, idx) ==> (o.end == EndCommitted <==> Accepted(conn, idx))
    ensures Known(conn, idx) && conn.fates[idx] == Hollow ==> conn.transactional
    ensures conn.transactional && Accepted(conn, idx) ==>
      (conn.fates[idx] == Hollow <==> LeftAborted(cfg, script, |script|))
    ensures conn.transactional && Known(conn, idx) && conn.fates[idx] != Committed ==>
      conn.committed == old(conn.committed)
    ensures conn.transactional && Known(conn, idx) && conn.fates[idx] == Committed ==>
      Strip(reg.tables.Recs()) == conn.committed
    ensures conn.transactional && !Accepted(conn, idx) ==>
      reg.tables.Abs() == old(reg.tables.Abs())
    ensures Follows(cfg, conn.transactional, conn.refused == old(conn.refused),
              old(Start(Strip(reg.tables.Recs()), reg.counter)), script, commit,
              Shown(trace, exit == Normal, o, Strip(reg.tables.Recs())))
  {
    hide Follows, LeftAborted, Strip, OnCourse;
    var txn := new TxnBuffer();
    var guard := new TxGuard(conn);
    var l := Locals(true, [], 0, Outcome(EndError, 0, 0, 0, 0));
    Opened(conn, reg, txn, guard, l, idx);
    ghost var s := Start(Strip(reg.tables.Recs()), reg.counter);
    exit, l, trace := Serve(cfg, script, commit, conn, reg, txn, guard, l, idx, s);
    o := l.out;
    ghost var calm := conn.refused == old(conn.refused);
    FollowsCalm(cfg, conn.transactional, calm, s, script, commit,
      Shown(trace, exit == Normal, o, Strip(reg.tables.Recs())));
    CleanUp(conn, guard, l, idx);
  }

  /** TransactionAction::execute. emptyPool and commit are drawn or configured. */
  method Execute(cfg: Config, emptyPool: bool, script: seq<Sub>, commit: bool, conn: Connection, reg: Registry)
    returns (exit: Exit, ghost trace: seq<Went>)
    requires conn.Valid() && !conn.open && !conn.gone && reg.Valid()
    requires conn.transactional ==> Strip(reg.tables.Recs()) == conn.committed
    requires forall i :: 0 <= i < |script| ==> SubOk(script[i])
    requires !conn.transactional && cfg.excludeDdl ==> forall i :: 0 <= i < |script| ==> !script[i].isDdl
    requires emptyPool ==> script == []
    modifies conn, reg, reg.tables
    // no path out leaves a transaction open
    ensures conn.Valid() && !conn.open && reg.Valid()
    // no transaction is begun only for want of sub-actions or if BEGIN is refused
    ensures emptyPool ==> exit == Normal && conn.queries == old(conn.queries) && conn.fates == old(conn.fates)
    ensures !emptyPool && conn.refused == old(conn.refused) ==> |conn.fates| > |old(conn.fates)|
    // then nothing is recorded and nothing changes
    ensures |conn.fates| <= |old(conn.fates)| ==>
      && conn.fates == old(conn.fates) && conn.outcomes == old(conn.outcomes)
      && conn.committed == old(conn.committed)
      && reg.tables.Abs() == old(reg.tables.Abs()) && (exit == Normal <==> emptyPool)
    // one outcome per transaction begun; it, the catalog and the way out are
    // what the script makes of the schema before, on pg and on mysql
    ensures |conn.fates| > |old(conn.fates)| ==>
      && |conn.outcomes| == |old(conn.outcomes)| + 1
      && conn.outcomes[..|old(conn.outcomes)|] == old(conn.outcomes)
      && Follows(cfg, conn.transactional, conn.refused == old(conn.refused),
           old(Start(Strip(reg.tables.Recs()), reg.counter)), script, commit,
           Shown(trace, exit == Normal, conn.outcomes[|old(conn.outcomes)|], Strip(reg.tables.Recs())))
    // it says committed exactly when COMMIT was accepted
    ensures var idx := |old(conn.fates)|;
            Known(conn, idx) ==> (conn.outcomes[|old(conn.outcomes)|].end == EndCommitted <==> Accepted(conn, idx))
    // and the work is then really committed unless pg had aborted the transaction
    ensures var idx := |old(conn.fates)|;
            && (Known(conn, idx) && conn.fates[idx] == Hollow ==> conn.transactional)
            && (conn.transactional && Accepted(conn, idx) ==>
                  (conn.fates[idx] == Hollow <==> LeftAborted(cfg, script, |script|)))
    // so a script that spoils nothing has an honest outcome
    ensures var idx := |old(conn.fates)|;
            Known(conn, idx) && !SpoiledBefore(script, |script|) ==>
              (conn.outcomes[|old(conn.outcomes)|].end == EndCommitted <==> conn.fates[idx] == Committed)
    // what is not committed leaves the durable schema as it was
    ensures var idx := |old(conn.fates)|;
            conn.transactional && Known(conn, idx) && conn.fates[idx] != Committed ==>
              conn.committed == old(conn.committed)
    // a committed transaction leaves the catalog equal to the server's schema
    ensures var idx := |old(conn.fates)|;
            conn.transactional && Known(conn, idx) && conn.fates[idx] == Committed ==>
              Strip(reg.tables.Recs()) == conn.committed
    // and every other exit leaves the catalog as it was
    ensures conn.transactional && !Accepted(conn, |old(conn.fates)|) ==>
      reg.tables.Abs() == old(reg.tables.Abs())
  {
    hide Follows, Strip;
    trace := [];
    if emptyPool {
      return Normal, trace;
    }
    var r;
    var setsLevel: bool := *;
    if setsLevel {
      r := conn.Send();
      if r != Ok {
        return Exception, trace;
      }
    }
    r := conn.Begin();
    if r != Ok {
      return Exception, trace;
    }
    ghost var o;
    exit, o, trace := Body(cfg, script, commit, conn, reg, |old(conn.fates)|);
  }

  /** A failing input, without savepoints. The first sub-action creates a
      table. The second is a SELECT inside its time limit; the statement that
      resets the limit fails, and its reply is ignored. If COMMIT is then
      accepted, the outcome says committed and the catalog has the table, but
      the server rolled it back. */
  method SpoiledCommit(conn: Connection, reg: Registry, rec: Table)
    requires conn.Valid() && !conn.open && !conn.gone && conn.transactional && reg.Valid()
    requires conn.fates == [] && conn.outcomes == []
    requires Strip(reg.tables.Recs()) == conn.committed
    modifies conn, reg, reg.tables
    ensures !conn.gone && conn.outcomes != [] && conn.outcomes[0].end == EndCommitted ==>
      && conn.fates != [] && conn.fates[0] == Hollow && conn.committed == old(conn.committed)
      && old(reg.counter) in reg.tables.Recs() && old(reg.counter) !in conn.committed
  {
    var create := Sub(true, [Create(rec)], Returned, true, false, false, map[], false, false, 0, false);
    var selectQuery := Sub(false, [], Returned, true, false, false, map[], true, false, 0, false);
    var cfg, script := Config(false, false), [create, selectQuery];
    assert Spoils(script[1]);
    ghost var s := Start(Strip(reg.tables.Recs()), reg.counter);
    var exit;
    ghost var trace;
    exit, trace := Execute(cfg, false, script, true, conn, reg);
    if conn.outcomes != [] && Accepted(conn, 0) {
      TwoSubs(cfg, conn.refused == old(conn.refused), s, script, true,
        Shown(trace, exit == Normal, conn.outcomes[0], Strip(reg.tables.Recs())));
      assert Strip(reg.tables.Recs()).Keys == reg.tables.Recs().Keys;
    }
  }

  lemma TwoSubs(cfg: Config, calm: bool, s: RunState, script: seq<Sub>, commit: bool, shown: Shown)
    requires |script| == 2 && !cfg.savepointMode && s.inTrx && commit
    requires |script[0].work| == 1 && script[1].work == []
    requires Follows(cfg, true, calm, s, script, commit, shown) && shown.outcome.end == EndCommitted
    ensures shown.catalog == Strip(OnSchema(s.seen.schema, OpOf(script[0].work[0], s.next)))
  {
    var trace := shown.trace;
    StaysInside(cfg, calm, s, script, trace);
    assert !Stopped(trace) && |trace| == 2;
    hide Course, Worked, Take;
    CourseBack(cfg, true, calm, s, script, trace);
    CourseBack(cfg, true, calm, s, script, trace[..1]);
    assert trace[..1][..0] == [];
    StaysInside(cfg, calm, s, script, trace[..1]);
    var c1 := Course(cfg, true, calm, s, script, trace[..1]).value;
    OneChange(s.seen, script[0].work, s.next);
    assert c1.seen == Worked(s.seen, script[0].work, s.next);
  }

  lemma OneChange(s: Seen, work: seq<Work>, c: ObjectId)
    ensures |work| == 1 ==> Worked(s, work, c) == Take(s, OpOf(work[0], c))
    ensures forall t, n {:trigger Worked(t, [], n)} :: Worked(t, [], n) == t
  {
  }
}
