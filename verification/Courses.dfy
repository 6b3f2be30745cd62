/** What a script of sub-actions makes of the catalog and of the outcome: the
    plain reading of TransactionAction::execute, without connection, buffer or
    guard. Schemas are plain record maps without versions. */
module Courses {
  import opened Metadata
  import opened CatalogSpec
  import opened OverlaySpec

  datatype Config = Config(savepointMode: bool, excludeDdl: bool)

  /** One metadata change of a sub-action. */
  datatype Work = Create(rec: Table) | Change(id: ObjectId, delta: Delta) | Remove(id: ObjectId)

  datatype Ending = Returned | SqlFailed | ServerGone | ActionFailed

  /** All that matters of one run of a sub-action: what it changes, how it ends,
      and what a failure leaves behind. */
  datatype Sub = Sub(
    isDdl: bool,
    work: seq<Work>,
    ending: Ending,
    sends: bool,       // a statement reaches the server
    commits: bool,     // mysql DDL that fails: it had implicitly committed already
    kills: bool,       // a failure after which the server has no transaction any more
    debris: Records,   // the server's schema after a failure
    spoils: bool,      // its last statement failed, so pg aborts the transaction, but its reply is ignored
    rewind: bool,      // with savepoints: if it returns, the transaction is rewound all the same
    pick: nat,         // to this savepoint, modulo their number
    ownTrx: bool)      // outside a transaction it opens its own; it changes no metadata

  ghost predicate SubOk(sub: Sub) {
    && (forall i :: 0 <= i < |sub.work| && sub.work[i].Change? ==> VersionBlind(sub.work[i].delta))
    && (!sub.sends ==> sub.work == [] && !sub.spoils && sub.ending in {Returned, ActionFailed})
    && (sub.ownTrx ==> sub.work == [])
  }

  // ---- what lets pg abort a transaction unnoticed ----

  /** It returns although pg has aborted the transaction. */
  predicate Spoils(sub: Sub) {
    sub.spoils && sub.ending == Returned
  }

  predicate SpoiledBefore(script: seq<Sub>, n: nat) {
    exists i :: 0 <= i < |script| && i < n && Spoils(script[i])
  }

  /** Whether pg has aborted the transaction after the first n sub-actions, all
      of which let it go on. Without savepoints nothing revives it. With them
      the next savepoint could not be taken, so only the last sub-action can be
      to blame, and a rewind after it revives the transaction. */
  predicate LeftAborted(cfg: Config, script: seq<Sub>, n: nat)
    requires n <= |script|
  {
    if cfg.savepointMode then n > 0 && Spoils(script[n - 1]) && !script[n - 1].rewind
    else SpoiledBefore(script, n)
  }

  // ---- changes ----

  /** The operation a change comes down to; a new table takes the id c. */
  function OpOf(item: Work, c: ObjectId): Op {
    match item
    case Create(rec) => InsertOp(rec.(id := c))
    case Change(id, delta) => UpdateOp(id, delta)
    case Remove(id) => EraseOp(id)
  }

  function IdAfter(item: Work, c: ObjectId): ObjectId {
    if item.Create? then c + 1 else c
  }

  function IdAfterAll(work: seq<Work>, c: ObjectId): (next: ObjectId)
    ensures c <= next
  {
    if work == [] then c else IdAfterAll(work[1..], IdAfter(work[0], c))
  }

  /** The catalog calls a list of changes comes down to; c is the next id. */
  function DirectOps(work: seq<Work>, c: ObjectId): (ops: seq<Op>)
    ensures |ops| == |work|
  {
    if work == [] then []
    else [OpOf(work[0], c)] + DirectOps(work[1..], IdAfter(work[0], c))
  }

  /** What a transaction sees, and the log of its buffer. */
  datatype Seen = Seen(schema: Records, log: seq<Op>)

  /** A change that is refused is not logged. */
  predicate Taken(m: Records, op: Op) {
    match op
    case InsertOp(rec) => rec.id != 0
    case UpdateOp(id, d) => id in m && d(m[id]).Some?
    case EraseOp(id) => id in m
  }

  function Take(s: Seen, op: Op): Seen {
    Seen(Strip(OnSchema(s.schema, op)), s.log + if Taken(s.schema, op) then [op] else [])
  }

  function Worked(s: Seen, work: seq<Work>, c: ObjectId): Seen
    decreases |work|
  {
    if work == [] then s else Worked(Take(s, OpOf(work[0], c)), work[1..], IdAfter(work[0], c))
  }

  /** The records, without versions, after calls that reach the catalog itself,
      which refuses an insert under a live id. */
  function Landed(m: Records, ops: seq<Op>): Records {
    if ops == [] then m
    else
      var before, op := Landed(m, ops[..|ops| - 1]), ops[|ops| - 1];
      if op.InsertOp? && (op.rec.id == 0 || op.rec.id in before) then before else Strip(OnSchema(before, op))
  }

  /** A version-blind change does the same to a schema without its versions. */
  lemma StripOnSchema(m: Records, op: Op)
    requires Blind(op)
    ensures Strip(OnSchema(Strip(m), op)) == Strip(OnSchema(m, op))
    ensures Taken(Strip(m), op) <==> Taken(m, op)
  {
    if op.UpdateOp? && op.id in m {
      assert Unversioned(m[op.id]) == Unversioned(Strip(m)[op.id]);
      var a, b := op.delta(m[op.id]), op.delta(Strip(m)[op.id]);
      assert a.Some? <==> b.Some?;
    }
  }

  lemma {:induction false} LandedIs(s: State, ops: seq<Op>)
    requires Sound(s) && forall i :: 0 <= i < |ops| ==> Blind(ops[i])
    ensures Strip(ApplyAll(s, ops).recs) == Landed(Strip(s.recs), ops)
  {
    if ops != [] {
      var front, op := ops[..|ops| - 1], ops[|ops| - 1];
      LandedIs(s, front);
      ApplyAllSound(s, front);
      LandOne(ApplyAll(s, front), op);
    }
  }

  lemma LandOne(s: State, op: Op)
    requires Sound(s) && Blind(op)
    ensures Strip(Apply(s, op).recs) ==
      if op.InsertOp? && (op.rec.id == 0 || op.rec.id in s.recs) then Strip(s.recs)
      else Strip(OnSchema(Strip(s.recs), op))
  {
    hide VersionBlind;
    StripOnSchema(s.recs, op);
  }

  lemma {:induction false} DirectBlind(work: seq<Work>, c: ObjectId)
    requires forall i :: 0 <= i < |work| && work[i].Change? ==> VersionBlind(work[i].delta)
    ensures forall i :: 0 <= i < |work| ==> Blind(DirectOps(work, c)[i])
    decreases |work|
  {
    hide VersionBlind;
    if work != [] {
      DirectBlind(work[1..], IdAfter(work[0], c));
    }
  }

  // ---- one sub-action ----

  datatype End = EndCommitted | EndIntentional | EndError

  /** What is recorded about one transaction. */
  datatype Outcome = Outcome(end: End, implicitCommits: nat, savepointRollbacks: nat, subOk: nat, subFail: nat)

  datatype Tally = Tally(implicitCommits: nat, savepointRollbacks: nat, subOk: nat, subFail: nat)

  function TallyOf(o: Outcome): Tally {
    Tally(o.implicitCommits, o.savepointRollbacks, o.subOk, o.subFail)
  }

  /** inTrx: no mysql DDL has committed the transaction. catalog is the catalog
      itself, seen what the transaction sees over it, and stack what it saw at
      each of its savepoints. */
  datatype RunState =
    RunState(inTrx: bool, catalog: Records, seen: Seen, stack: seq<Seen>, next: ObjectId, tally: Tally)

  /** How a sub-action went: it returned; it failed and the script goes on; it
      returned and the transaction was rewound to a savepoint; it threw, and
      counted tells whether it had been counted before; or it threw at its
      first statement, because the server had already gone. */
  datatype Went = On | Failed | Back | Thrown(counted: bool) | Cut

  /** Where a sub-action runs: after the transaction has been committed behind
      its back, as a mysql DDL about to do that, or in the transaction, with
      savepoints or without. */
  datatype Mode = Tail | Mirror | Save | Abort

  function ModeOf(cfg: Config, transactional: bool, s: RunState, sub: Sub): Mode {
    if !s.inTrx then Tail
    else if !transactional && sub.isDdl then Mirror
    else if cfg.savepointMode then Save
    else Abort
  }

  /** How it goes unless the server refuses a statement that is not its own. */
  function Smooth(mode: Mode, sub: Sub): Went {
    match mode
    case Tail =>
      if sub.ownTrx || sub.ending == Returned then On
      else if sub.ending == ServerGone then Thrown(false) else Failed
    case Mirror =>
      if sub.ending == Returned then On else if sub.ending == ServerGone then Thrown(false) else Failed
    case Save =>
      if sub.ending == Returned then if sub.rewind then Back else On
      else if sub.ending == ServerGone then Thrown(false) else Failed
    case Abort => if sub.ending == Returned then On else Thrown(false)
  }

  /** What else may become of it if the server does: BEGIN, SELECT or COMMIT of
      its own transaction, the COMMIT after a mysql DDL that failed, SAVEPOINT,
      or ROLLBACK TO, which is tried once more if it was to rewind a success. */
  predicate Upset(mode: Mode, sub: Sub, went: Went) {
    match mode
    case Tail => went == Cut || (sub.ownTrx && went in {Failed, Thrown(false)})
    case Mirror => sub.sends && sub.ending in {SqlFailed, ActionFailed} && went == Thrown(true)
    case Save =>
      went == Thrown(false) || (sub.ending == Returned && sub.rewind && went in {Failed, Thrown(true)})
    case Abort => false
  }

  /** calm: the server refused none of these statements. */
  predicate StepOk(mode: Mode, calm: bool, sub: Sub, went: Went) {
    went == Smooth(mode, sub) || (!calm && Upset(mode, sub, went))
  }

  function CountOk(t: Tally): Tally { t.(subOk := t.subOk + 1) }

  function CountFail(t: Tally): Tally { t.(subFail := t.subFail + 1) }

  function CountBack(t: Tally): Tally { t.(savepointRollbacks := t.savepointRollbacks + 1) }

  function CountImplicit(t: Tally): Tally { t.(implicitCommits := t.implicitCommits + 1) }

  /** The sub-action published its changes itself. */
  function Published(s: RunState, sub: Sub): RunState {
    s.(catalog := Landed(s.catalog, DirectOps(sub.work, s.next)), next := IdAfterAll(sub.work, s.next))
  }

  function TailStep(s: RunState, sub: Sub, went: Went): RunState {
    match went
    case On => Published(s, sub).(tally := CountOk(s.tally))
    case Failed => Published(s, sub).(tally := CountFail(s.tally))
    case Cut => s
    case _ => Published(s, sub)
  }

  /** A DDL that reaches the server commits the transaction: what it published
      is in the catalog before what the transaction had buffered. */
  function MirrorStep(s: RunState, sub: Sub, went: Went): RunState {
    var tally :=
      match went
      case On => CountOk(s.tally)
      case Failed => CountFail(s.tally)
      case Thrown(counted) => if counted then CountFail(s.tally) else s.tally
      case _ => s.tally;
    if !sub.sends then s.(tally := tally)
    else
      var direct := Published(s, sub);
      if went.Thrown? then direct.(tally := tally)
      else
        RunState(false, Landed(direct.catalog, s.seen.log), Seen(map[], []), [], direct.next, CountImplicit(tally))
  }

  /** The savepoints once that of the next sub-action is taken. */
  function Stacked(s: RunState): seq<Seen> { s.stack + [s.seen] }

  /** A failure is rewound to the savepoint before it, a success that is
      rewound to the one that was drawn. */
  function SaveStep(s: RunState, sub: Sub, went: Went): RunState {
    var stack, next := Stacked(s), IdAfterAll(sub.work, s.next);
    match went
    case On => s.(seen := Worked(s.seen, sub.work, s.next), stack := stack, next := next, tally := CountOk(s.tally))
    case Back =>
      var k := sub.pick % |stack|;
      s.(seen := stack[k], stack := stack[..k + 1], next := next, tally := CountBack(CountOk(s.tally)))
    case Failed =>
      var tally := if sub.ending == Returned then CountOk(s.tally) else s.tally;
      s.(stack := stack, next := next, tally := CountFail(CountBack(tally)))
    case Thrown(counted) => if counted then s.(tally := CountOk(s.tally)) else s
    case Cut => s
  }

  /** The first failure ends the transaction. */
  function AbortStep(s: RunState, sub: Sub, went: Went): RunState {
    if went == On then
      s.(seen := Worked(s.seen, sub.work, s.next), next := IdAfterAll(sub.work, s.next), tally := CountOk(s.tally))
    else s
  }

  function Advance(mode: Mode, s: RunState, sub: Sub, went: Went): RunState {
    match mode
    case Tail => TailStep(s, sub, went)
    case Mirror => MirrorStep(s, sub, went)
    case Save => SaveStep(s, sub, went)
    case Abort => AbortStep(s, sub, went)
  }

  // ---- the whole script ----

  function Start(catalog: Records, next: ObjectId): RunState {
    RunState(true, catalog, Seen(catalog, []), [], next, Tally(0, 0, 0, 0))
  }

  predicate Threw(went: Went) { went.Thrown? || went.Cut? }

  /** The last one threw. Nothing runs after that. */
  predicate Stopped(trace: seq<Went>) {
    trace != [] && Threw(trace[|trace| - 1])
  }

  /** The state after sub-actions that went as the trace says, if they can have
      gone so. */
  function Course(cfg: Config, transactional: bool, calm: bool, s: RunState, script: seq<Sub>, trace: seq<Went>):
    Option<RunState>
    requires |trace| <= |script|
    decreases |trace|
  {
    if trace == [] then Some(s)
    else
      var n := |trace| - 1;
      match Course(cfg, transactional, calm, s, script, trace[..n])
      case None => None
      case Some(before) =>
        var mode := ModeOf(cfg, transactional, before, script[n]);
        if !Stopped(trace[..n]) && StepOk(mode, calm, script[n], trace[n])
        then Some(Advance(mode, before, script[n], trace[n]))
        else None
  }

  /** All that one execution shows: how each sub-action went, how COMMIT or
      ROLLBACK was answered, the outcome and the catalog it leaves. */
  datatype Shown = Shown(trace: seq<Went>, returned: bool, outcome: Outcome, catalog: Records)

  /** It is what the script makes of the state s. commit is the last draw. */
  predicate Follows(cfg: Config, transactional: bool, calm: bool, s: RunState, script: seq<Sub>, commit: bool,
          shown: Shown)
  {
    && |shown.trace| <= |script| && (|shown.trace| == |script| || Stopped(shown.trace))
    && match Course(cfg, transactional, calm, s, script, shown.trace)
       case None => false
       case Some(end) =>
         && TallyOf(shown.outcome) == end.tally
         && (Stopped(shown.trace) ==> !shown.returned)
         && (calm || !end.inTrx ==> shown.returned == !Stopped(shown.trace))
         && shown.outcome.end == (
              if !end.inTrx then EndCommitted
              else if !shown.returned then EndError
              else if commit then EndCommitted else EndIntentional)
         && shown.catalog == if end.inTrx && shown.returned && commit then end.seen.schema else end.catalog
  }

  /** What goes so when nothing is refused may go so anyway. */
  lemma {:induction false} CourseCalm(cfg: Config, transactional: bool, s: RunState, script: seq<Sub>,
          trace: seq<Went>)
    requires |trace| <= |script| && Course(cfg, transactional, true, s, script, trace).Some?
    ensures Course(cfg, transactional, false, s, script, trace) == Course(cfg, transactional, true, s, script, trace)
    decreases |trace|
  {
    if trace != [] {
      CourseCalm(cfg, transactional, s, script, trace[..|trace| - 1]);
    }
  }

  lemma CourseBack(cfg: Config, transactional: bool, calm: bool, s: RunState, script: seq<Sub>, trace: seq<Went>)
    requires |trace| <= |script| && Course(cfg, transactional, calm, s, script, trace).Some?
    ensures trace == [] ==> Course(cfg, transactional, calm, s, script, trace) == Some(s)
    ensures trace != [] ==>
      var n := |trace| - 1;
      var before := Course(cfg, transactional, calm, s, script, trace[..n]);
      before.Some? && !Stopped(trace[..n]) &&
      var mode := ModeOf(cfg, transactional, before.value, script[n]);
      StepOk(mode, calm, script[n], trace[n]) &&
      Course(cfg, transactional, calm, s, script, trace).value == Advance(mode, before.value, script[n], trace[n])
  {
    hide StepOk, ModeOf, Advance;
  }

  lemma CourseNext(cfg: Config, transactional: bool, calm: bool, s: RunState, script: seq<Sub>, trace: seq<Went>,
          before: RunState, stepCalm: bool, went: Went, stillCalm: bool)
    requires |trace| < |script| && Course(cfg, transactional, calm, s, script, trace) == Some(before)
    requires !Stopped(trace) && (stillCalm ==> calm && stepCalm)
    requires StepOk(ModeOf(cfg, transactional, before, script[|trace|]), stepCalm, script[|trace|], went)
    ensures
      var mode := ModeOf(cfg, transactional, before, script[|trace|]);
      Course(cfg, transactional, stillCalm, s, script, trace + [went]) ==
        Some(Advance(mode, before, script[|trace|], went))
  {
    assert (trace + [went])[..|trace|] == trace;
    if calm && !stillCalm {
      CourseCalm(cfg, transactional, s, script, trace);
    }
  }

  lemma FollowsCalm(cfg: Config, transactional: bool, calm: bool, s: RunState, script: seq<Sub>, commit: bool,
          shown: Shown)
    requires Follows(cfg, transactional, calm, s, script, commit, shown)
    ensures Follows(cfg, transactional, false, s, script, commit, shown)
  {
    if calm {
      CourseCalm(cfg, transactional, s, script, shown.trace);
    }
  }

  lemma {:induction false} CoursePrefix(cfg: Config, transactional: bool, calm: bool, s: RunState, script: seq<Sub>,
          trace: seq<Went>, n: nat)
    requires n <= |trace| <= |script| && Course(cfg, transactional, calm, s, script, trace).Some?
    ensures Course(cfg, transactional, calm, s, script, trace[..n]).Some? && (n < |trace| ==> !Stopped(trace[..n]))
    decreases |trace|
  {
    hide Course, StepOk, Advance, ModeOf, Stopped;
    if n == |trace| {
      assert trace[..n] == trace;
    } else {
      var front := trace[..|trace| - 1];
      CourseBack(cfg, transactional, calm, s, script, trace);
      CoursePrefix(cfg, transactional, calm, s, script, front, n);
      assert front[..n] == trace[..n] && (n == |front| ==> trace[..n] == front);
    }
  }

  lemma LastSmooth(cfg: Config, transactional: bool, s: RunState, script: seq<Sub>, trace: seq<Went>)
    requires 0 < |trace| <= |script| && Course(cfg, transactional, true, s, script, trace).Some?
    ensures
      var n := |trace| - 1;
      var before := Course(cfg, transactional, true, s, script, trace[..n]);
      before.Some? && trace[n] == Smooth(ModeOf(cfg, transactional, before.value, script[n]), script[n])
  {
    hide Course, Smooth, Upset, Advance, ModeOf, Stopped;
    CourseBack(cfg, transactional, true, s, script, trace);
  }

  /** Two runs that are refused nothing go alike as long as both go on. */
  lemma {:induction false} CalmAlike(cfg: Config, transactional: bool, s: RunState, script: seq<Sub>, a: seq<Went>,
          b: seq<Went>, n: nat)
    requires n <= |a| <= |script| && n <= |b| <= |script|
    requires Course(cfg, transactional, true, s, script, a).Some?
    requires Course(cfg, transactional, true, s, script, b).Some?
    ensures a[..n] == b[..n]
    decreases n
  {
    hide Course, Smooth, Upset, Advance, ModeOf, Stopped;
    if n > 0 {
      CalmAlike(cfg, transactional, s, script, a, b, n - 1);
      CoursePrefix(cfg, transactional, true, s, script, a, n);
      CoursePrefix(cfg, transactional, true, s, script, b, n);
      LastSmooth(cfg, transactional, s, script, a[..n]);
      LastSmooth(cfg, transactional, s, script, b[..n]);
      assert a[..n][..n - 1] == a[..n - 1] && b[..n][..n - 1] == b[..n - 1];
      assert a[..n] == a[..n - 1] + [a[..n][n - 1]] && b[..n] == b[..n - 1] + [b[..n][n - 1]];
    }
  }

  /** If the server refuses nothing, the script determines all that shows. */
  lemma CalmIsDetermined(cfg: Config, transactional: bool, s: RunState, script: seq<Sub>, commit: bool, a: Shown,
          b: Shown)
    requires Follows(cfg, transactional, true, s, script, commit, a)
    requires Follows(cfg, transactional, true, s, script, commit, b)
    ensures a == b
  {
    var x, y := a.trace, b.trace;
    var n := if |x| < |y| then |x| else |y|;
    CalmAlike(cfg, transactional, s, script, x, y, n);
    CoursePrefix(cfg, transactional, true, s, script, x, n);
    CoursePrefix(cfg, transactional, true, s, script, y, n);
    hide Course;
    assert x[..|x|] == x && y[..|y|] == y;
    assert x == y;
  }

  /** pg never leaves the transaction before its end. */
  lemma {:induction false} StaysInside(cfg: Config, calm: bool, s: RunState, script: seq<Sub>, trace: seq<Went>)
    requires |trace| <= |script| && s.inTrx && Course(cfg, true, calm, s, script, trace).Some?
    ensures
      var end := Course(cfg, true, calm, s, script, trace).value;
      end.inTrx && end.catalog == s.catalog && end.tally.implicitCommits == s.tally.implicitCommits
    decreases |trace|
  {
    if trace != [] {
      StaysInside(cfg, calm, s, script, trace[..|trace| - 1]);
    }
  }

  /** Every sub-action that let the script go on was counted, as a success or
      as a failure; once, unless rewinding a success was refused at first. */
  lemma {:induction false} AllCounted(cfg: Config, transactional: bool, calm: bool, s: RunState, script: seq<Sub>,
          trace: seq<Went>)
    requires |trace| <= |script| && Course(cfg, transactional, calm, s, script, trace).Some? && !Stopped(trace)
    ensures
      var end := Course(cfg, transactional, calm, s, script, trace).value.tally;
      var count := end.subOk + end.subFail - (s.tally.subOk + s.tally.subFail);
      if calm then count == |trace| else |trace| <= count <= 2 * |trace|
    decreases |trace|
  {
    hide Course, Stopped, ModeOf, Advance, StepOk;
    CourseBack(cfg, transactional, calm, s, script, trace);
    if trace != [] {
      var n := |trace| - 1;
      AllCounted(cfg, transactional, calm, s, script, trace[..n]);
      var before := Course(cfg, transactional, calm, s, script, trace[..n]).value;
      LastWent(trace);
      StepCounts(ModeOf(cfg, transactional, before, script[n]), calm, before, script[n], trace[n]);
    }
  }

  lemma LastWent(trace: seq<Went>)
    requires trace != []
    ensures Stopped(trace) <==> Threw(trace[|trace| - 1])
  {
  }

  lemma StepCounts(mode: Mode, calm: bool, s: RunState, sub: Sub, went: Went)
    requires StepOk(mode, calm, sub, went) && !Threw(went)
    ensures
      var count := Advance(mode, s, sub, went).tally.subOk + Advance(mode, s, sub, went).tally.subFail
        - (s.tally.subOk + s.tally.subFail);
      1 <= count <= 2 && (calm ==> count == 1)
  {
    hide Landed, DirectOps, Worked, IdAfterAll;
  }

  /** The transaction is committed behind its back once, at the first mysql DDL
      that reaches the server. */
  lemma {:induction false} LeavesAtFirstDdl(cfg: Config, transactional: bool, calm: bool, s: RunState,
          script: seq<Sub>, trace: seq<Went>)
    requires |trace| <= |script| && s.inTrx && s.tally.implicitCommits == 0
    requires Course(cfg, transactional, calm, s, script, trace).Some? && !Stopped(trace)
    ensures
      var end := Course(cfg, transactional, calm, s, script, trace).value;
      && (end.inTrx <==> transactional || forall i :: 0 <= i < |trace| ==> !(script[i].isDdl && script[i].sends))
      && end.tally.implicitCommits == if end.inTrx then 0 else 1
    decreases |trace|
  {
    if trace != [] {
      var n := |trace| - 1;
      LeavesAtFirstDdl(cfg, transactional, calm, s, script, trace[..n]);
    }
  }
}
