/** When a query is well formed: every column resolves in the scope it may use,
    and every operand has the family its operator needs. */
module Scopes {
  import opened Metadata
  import opened Numerals
  import opened QueryIr

  datatype Entry = Entry(alias: string, table: Table)

  type Scope = seq<Entry>

  predicate Resolves(vis: Scope, ref: ColumnRef, ty: ColumnType) {
    exists i, j :: 0 <= i < |vis| && 0 <= j < |vis[i].table.columns|
      && vis[i].alias == ref.alias
      && vis[i].table.columns[j].name == ref.column && vis[i].table.columns[j].colType == ty
  }

  predicate LitFits(v: Value, ty: ColumnType) {
    match v
    case NullValue => true
    case IntValue(n) => ty == INT && n >= 0
    case RealValue(_) => ty == REAL
    case BoolValue(_) => ty == BOOL
    case TextValue(_) => FamilyOf(ty) == Text || FamilyOf(ty) == Binary8
  }

  function ZeroLit(): Expr { Expr(Lit(IntValue(0)), INT) }

  /** NULLIF(x, 0): never zero, so safe on the right of a division. */
  predicate NullifZero(e: Expr) {
    e.node.Call? && e.node.fn == Nullif && |e.node.args| == 2 && e.node.args[1] == ZeroLit()
  }

  predicate Comparison(op: BinOp) { op in {Eq, Ne, Lt, Le, Gt, Ge} }

  predicate Logical(op: BinOp) { op == And || op == Or }

  /** The families of a binary operator's operands and result. */
  predicate BinaryTyped(op: BinOp, l: Expr, r: Expr, ty: ColumnType) {
    match op
    case Add | Sub | Mul => FamilyOf(l.ty) == FamilyOf(r.ty) == FamilyOf(ty) == Numeric
    case Div => FamilyOf(l.ty) == FamilyOf(r.ty) == FamilyOf(ty) == Numeric && NullifZero(r)
    case Mod => l.ty == r.ty == ty == INT && NullifZero(r)
    case And | Or => l.ty == r.ty == ty == BOOL
    case Like => FamilyOf(l.ty) == FamilyOf(r.ty) == Text && ty == BOOL
    case Concat => FamilyOf(l.ty) == FamilyOf(r.ty) == FamilyOf(ty) == Text
    case Eq | Ne => FamilyOf(l.ty) == FamilyOf(r.ty) && ty == BOOL
    case _ => FamilyOf(l.ty) == FamilyOf(r.ty) && FamilyOf(l.ty) in {Numeric, Text} && ty == BOOL
  }

  predicate UnaryTyped(op: UnOp, a: Expr, ty: ColumnType) {
    match op
    case Not => a.ty == ty == BOOL
    case IsNull | IsNotNull => ty == BOOL
    case Neg => FamilyOf(a.ty) == FamilyOf(ty) == Numeric
  }

  predicate CallTyped(fn: Func, args: seq<Expr>, ty: ColumnType) {
    match fn
    case Lower | Upper => |args| == 1 && FamilyOf(args[0].ty) == FamilyOf(ty) == Text
    case Length => |args| == 1 && FamilyOf(args[0].ty) == Text && ty == INT
    case Abs => |args| == 1 && FamilyOf(args[0].ty) == FamilyOf(ty) == Numeric
    case Coalesce | Nullif => |args| == 2 && FamilyOf(args[0].ty) == FamilyOf(args[1].ty) == FamilyOf(ty)
  }

  /** A well-formed expression without subqueries or aggregates over vis. */
  predicate WfFlat(e: Expr, vis: Scope) {
    match e.node
    case Ref(r) => Resolves(vis, r, e.ty)
    case Lit(v) => LitFits(v, e.ty)
    case Unary(op, a) => UnaryTyped(op, a, e.ty) && WfFlat(a, vis)
    case Binary(op, l, r) => BinaryTyped(op, l, r, e.ty) && WfFlat(l, vis) && WfFlat(r, vis)
    case Between(a, lo, hi) =>
      e.ty == BOOL && FamilyOf(a.ty) == FamilyOf(lo.ty) == FamilyOf(hi.ty) == Numeric
      && WfFlat(a, vis) && WfFlat(lo, vis) && WfFlat(hi, vis)
    case InList(a, items, _) =>
      e.ty == BOOL && 1 <= |items| <= 5 && WfFlat(a, vis)
      && forall i :: 0 <= i < |items| ==> FamilyOf(items[i].ty) == FamilyOf(a.ty) && WfFlat(items[i], vis)
    case Call(fn, args) =>
      CallTyped(fn, args, e.ty) && forall i :: 0 <= i < |args| ==> WfFlat(args[i], vis)
    case Case(whens, otherwise) =>
      1 <= |whens| <= 2 && otherwise.Some?
      && FamilyOf(otherwise.value.ty) == FamilyOf(e.ty) && WfFlat(otherwise.value, vis)
      && forall i :: 0 <= i < |whens| ==>
           whens[i].cond.ty == BOOL && FamilyOf(whens[i].result.ty) == FamilyOf(e.ty)
           && WfFlat(whens[i].cond, vis) && WfFlat(whens[i].result, vis)
    case _ => false
  }

  /** A query whose one column can stand for a value of family f. */
  predicate Single(q: QuerySpec, f: Family) {
    Plain(q) && |q.items| == 1 && FamilyOf(q.items[0].expr.ty) == f && q.orderBy == [] && q.offset.None?
  }

  /** A well-formed condition: subqueries may stand under NOT, AND, OR, on the
      right of a comparison, in IN and in EXISTS, over the tables ts. */
  ghost predicate WfPred(e: Expr, vis: Scope, ts: seq<Table>)
    decreases e, 1
  {
    e.ty == BOOL && (WfFlat(e, vis) || WithSubquery(e, vis, ts))
  }

  ghost predicate WithSubquery(e: Expr, vis: Scope, ts: seq<Table>)
    decreases e, 0
  {
    match e.node
    case Unary(op, a) => op == Not && WfPred(a, vis, ts)
    case Binary(op, l, r) =>
      if Logical(op) then WfPred(l, vis, ts) && WfPred(r, vis, ts)
      else
        Comparison(op) && BinaryTyped(op, l, r, e.ty) && WfFlat(l, vis) && r.node.ScalarSubquery?
        && r.node.sub.limit == Some(1) && Single(r.node.sub, FamilyOf(r.ty)) && WfQuery(r.node.sub, vis, ts)
    case InSubquery(a, q, _) =>
      WfFlat(a, vis) && Single(q, FamilyOf(a.ty)) && q.limit.None? && WfQuery(q, vis, ts)
    case Exists(q, _) => Plain(q) && WfQuery(q, vis, ts)
    case _ => false
  }

  ghost predicate WfQuery(q: QuerySpec, outer: Scope, ts: seq<Table>)
    decreases q, 1
  {
    Sized(q) && exists own :: QueryFits(q, own, outer, ts, None)
  }

  /** q is well formed with the scope own of its FROM clause, which may start
      with the table seed. Only WHERE may look outside own, and only into outer. */
  ghost predicate QueryFits(q: QuerySpec, own: Scope, outer: Scope, ts: seq<Table>, seed: Option<Table>)
    decreases q, 0
  {
    && SourcesFit(q, own, ts, seed) && JoinsFit(q.joins, own)
    && ItemsFit(q, own) && OrderFits(q) && TailFits(q)
    && (q.filter.Some? ==> WfPred(q.filter.value, own, ts) || WfPred(q.filter.value, own + outer, ts))
    && (forall i :: 0 <= i < |q.ctes| ==>
          NamedCte(q.ctes[i]) && Plain(q.ctes[i].query) && WfQuery(q.ctes[i].query, [], ts))
    && (q.setOpRhs.Some? ==>
          SameShape(q, q.setOpRhs.value) && Plain(q.setOpRhs.value) && WfQuery(q.setOpRhs.value, [], ts))
  }

  // ---- FROM ----

  function CteColumn(item: SelectItem): Column {
    Column(item.colAlias, item.expr.ty, 0, "", NotGenerated, true, false, false, 0, false)
  }

  /** A name the generator can give to a CTE. The number 0 is always taken by
      an alias of the CTE's own query. */
  ghost predicate CteName(name: string) {
    exists n: nat :: n > 0 && name == Numbered('w', n)
  }

  ghost predicate NamedCte(c: Cte) { CteName(c.name) }

  /** The table a CTE looks like inside its query. */
  function CteTable(c: Cte): Table {
    Table(0, 0, c.name, "", "", None,
      seq(|c.query.items|, i requires 0 <= i < |c.query.items| => CteColumn(c.query.items[i])), [])
  }

  predicate IsCte(t: Table, ctes: seq<Cte>) {
    exists i :: 0 <= i < |ctes| && CteTable(ctes[i]) == t
  }

  predicate TableFits(t: Table, ctes: seq<Cte>, ts: seq<Table>) {
    IsCte(t, ctes) || t in ts
  }

  predicate JoinSourceFits(source: TableSource, e: Entry, ctes: seq<Cte>, ts: seq<Table>) {
    source == TableSource(e.table.name, e.alias) && TableFits(e.table, ctes, ts)
  }

  predicate SourcesFit(q: QuerySpec, own: Scope, ts: seq<Table>, seed: Option<Table>) {
    && |own| == |q.joins| + 1
    && q.from == TableSource(own[0].table.name, own[0].alias)
    && (TableFits(own[0].table, q.ctes, ts) || Some(own[0].table) == seed)
    && forall i :: 0 <= i < |q.joins| ==> JoinSourceFits(q.joins[i].source, own[i + 1], q.ctes, ts)
  }

  /** The primary key column, or else the first one (pkColumn). */
  function PkColumn(t: Table): (c: Column)
    requires t.columns != []
    ensures c in t.columns
  {
    PkFrom(t, 0)
  }

  function PkFrom(t: Table, i: nat): (c: Column)
    requires t.columns != [] && i <= |t.columns|
    ensures c in t.columns
    decreases |t.columns| - i
  {
    if i == |t.columns| then t.columns[0]
    else if t.columns[i].primaryKey then t.columns[i] else PkFrom(t, i + 1)
  }

  /** c of t is a foreign key to the key column p of u. */
  predicate KeyOf(c: Column, t: Table, p: Column, u: Table) {
    c in t.columns && c.fkRef != 0 && c.fkRef == u.id && u.columns != [] && p == PkColumn(u)
  }

  /** The new table's column may be equated with the earlier one's: the families
      agree, or a foreign key links them. */
  predicate Joinable(added: Column, addedTable: Table, base: Column, baseTable: Table) {
    FamilyOf(added.colType) == FamilyOf(base.colType)
    || KeyOf(added, addedTable, base, baseTable) || KeyOf(base, baseTable, added, addedTable)
  }

  function ColExpr(alias: string, c: Column): Expr { Expr(Ref(ColumnRef(alias, c.name)), c.colType) }

  function Equals(l: Expr, r: Expr): Expr { Expr(Node.Binary(Eq, l, r), BOOL) }

  /** The ON condition of join i equates a column of the joined table with one
      of a table joined before it. */
  predicate JoinLinks(cond: Expr, own: Scope, i: nat)
    requires i < |own|
  {
    exists added, k, base :: added in own[i].table.columns && 0 <= k < i && base in own[k].table.columns
      && Joinable(added, own[i].table, base, own[k].table)
      && cond == Equals(ColExpr(own[i].alias, added), ColExpr(own[k].alias, base))
  }

  predicate JoinFits(j: Join, own: Scope, i: nat)
    requires i < |own|
  {
    (j.kind == Cross <==> j.condition.None?) && (j.condition.Some? ==> JoinLinks(j.condition.value, own, i))
  }

  /** At most one join is a cross join, and only it has no condition. */
  predicate JoinsFit(joins: seq<Join>, own: Scope) {
    && |own| == |joins| + 1
    && (forall i :: 0 <= i < |joins| ==> JoinFits(joins[i], own, i + 1))
    && (forall i, j :: 0 <= i < j < |joins| ==> joins[i].kind != Cross || joins[j].kind != Cross)
  }

  // ---- SELECT, GROUP BY and HAVING ----

  /** An aggregate over own whose argument family suits the function. */
  predicate WfAgg(e: Expr, own: Scope) {
    e.node.Agg?
    && (e.node.aggArg.None? ==> e.node.agg == AggCount && !e.node.aggDistinct && e.ty == INT)
    && (e.node.aggArg.Some? ==>
          var a := e.node.aggArg.value;
          a.node.Ref? && WfFlat(a, own)
          && match e.node.agg
             case AggCount => e.ty == INT
             case AggSum => FamilyOf(a.ty) == Numeric && e.ty == a.ty
             case AggAvg => FamilyOf(a.ty) == Numeric && e.ty == REAL
             case _ => FamilyOf(a.ty) in {Numeric, Text} && e.ty == a.ty)
  }

  predicate InScope(own: Scope, ref: ColumnRef) {
    exists ty :: Resolves(own, ref, ty)
  }

  /** A window call over own. */
  predicate WfWindow(e: Expr, own: Scope) {
    e.node.Window?
    && (forall r :: r in e.node.partitionBy ==> InScope(own, r))
    && (forall r :: r in e.node.over ==> InScope(own, r))
    && (e.node.winArg.Some? ==> e.node.winArg.value.node.Ref? && WfFlat(e.node.winArg.value, own))
    && match e.node.win
       case RowNumber | Rank | DenseRank => e.node.winArg.None? && e.ty == INT
       case WinCount => e.ty == INT
       case WinSum => e.node.winArg.Some? && FamilyOf(e.node.winArg.value.ty) == Numeric &&
         e.ty == e.node.winArg.value.ty
       case WinAvg => e.node.winArg.Some? && FamilyOf(e.node.winArg.value.ty) == Numeric && e.ty == REAL
       case WinMin | WinMax =>
         e.node.winArg.Some? && FamilyOf(e.node.winArg.value.ty) in {Numeric, Text} && e.ty == e.node.winArg.value.ty
  }

  /** In an aggregated query a plain column must be grouped. */
  predicate AggItem(e: Expr, own: Scope, groupBy: seq<ColumnRef>) {
    WfAgg(e, own) || (WfFlat(e, own) && (e.node.Lit? || (e.node.Ref? && e.node.ref in groupBy)))
  }

  predicate PlainItem(e: Expr, own: Scope) { WfFlat(e, own) || WfWindow(e, own) }

  predicate HavingFits(h: Expr, own: Scope) {
    h.ty == BOOL && h.node.Binary? && h.node.op in {Gt, Le} && BinaryTyped(h.node.op, h.node.lhs, h.node.rhs, h.ty)
    && WfAgg(h.node.lhs, own) && h.node.rhs.node.Lit? && WfFlat(h.node.rhs, own)
  }

  predicate AggItems(items: seq<SelectItem>, own: Scope, groupBy: seq<ColumnRef>) {
    forall i :: 0 <= i < |items| ==> AggItem(items[i].expr, own, groupBy)
  }

  predicate PlainItems(items: seq<SelectItem>, own: Scope) {
    forall i :: 0 <= i < |items| ==> PlainItem(items[i].expr, own)
  }

  predicate PlainList(items: seq<SelectItem>, groupBy: seq<ColumnRef>, having: Option<Expr>, own: Scope) {
    groupBy == [] && having.None? && PlainItems(items, own)
  }

  /** The select list is a plain one, with no grouping at all, or an
      aggregated one whose plain columns are grouped. */
  predicate ListFits(items: seq<SelectItem>, groupBy: seq<ColumnRef>, having: Option<Expr>, own: Scope) {
    || PlainList(items, groupBy, having, own)
    || ((forall i, j :: 0 <= i < j < |groupBy| ==> groupBy[i] != groupBy[j])
        && (forall r :: r in groupBy ==> InScope(own, r))
        && (having.Some? ==> HavingFits(having.value, own))
        && AggItems(items, own, groupBy))
  }

  predicate Labelled(items: seq<SelectItem>) {
    forall i :: 0 <= i < |items| ==> items[i].colAlias == Numbered('c', i)
  }

  /** DISTINCT only goes with a plain select list. */
  predicate ItemsFit(q: QuerySpec, own: Scope) {
    && q.items != [] && Labelled(q.items) && ListFits(q.items, q.groupBy, q.having, own)
    && (q.distinct ==> PlainList(q.items, q.groupBy, q.having, own))
  }

  /** The sizes the draws allow. */
  predicate Sized(q: QuerySpec) {
    && |q.items| <= 6 && |q.groupBy| <= 2 && |q.orderBy| <= 2
    && (q.limit.Some? ==> 1 <= q.limit.value <= 1000)
    && (q.offset.Some? ==> q.offset.value <= 100)
  }

  // ---- the tail ----

  /** ORDER BY repeats selected columns, or names an output column of a set
      operation. */
  predicate OrderFits(q: QuerySpec) {
    forall o :: o in q.orderBy ==> OrderItemFits(o, q)
  }

  predicate OrderItemFits(o: OrderItem, q: QuerySpec) {
    o.expr.node.Ref?
    && exists i :: 0 <= i < |q.items|
         && (if q.setOpRhs.Some? then o.expr == Expr(Ref(ColumnRef("", q.items[i].colAlias)), q.items[i].expr.ty)
             else o.expr == q.items[i].expr)
  }

  /** OFFSET comes with LIMIT; a lock names the FROM alias and rules out
      DISTINCT, grouping and right joins. */
  predicate TailFits(q: QuerySpec) {
    && (q.offset.Some? ==> q.limit.Some?)
    && (q.setOpRhs.None? ==> q.setOpKind == UnionAll)
    && (q.lock.clause == NoLock ==> q.lock.ofAlias == "")
    && (q.lock.clause != NoLock ==>
          q.lock.ofAlias == q.from.alias && !q.distinct && q.groupBy == [] && Plain(q)
          && forall j :: j in q.joins ==> j.kind != Right)
  }

  /** Both sides of a set operation: as many columns, position by position of
      one family, named alike; no ORDER BY or OFFSET on the right. */
  predicate SameShape(q: QuerySpec, rhs: QuerySpec) {
    && |rhs.items| == |q.items| && rhs.orderBy == [] && rhs.offset.None?
    && forall i :: 0 <= i < |q.items| ==>
         rhs.items[i].colAlias == q.items[i].colAlias && FamilyOf(rhs.items[i].expr.ty) == FamilyOf(q.items[i].expr.ty)
  }

  // ---- what is read, and under which names ----

  function JoinSources(joins: seq<Join>): multiset<TableSource> {
    if joins == [] then multiset{}
    else JoinSources(joins[..|joins| - 1]) + multiset{joins[|joins| - 1].source}
  }

  /** Every FROM and JOIN source in e, at any depth. Elsewhere a well-formed
      expression has no subquery. */
  function Sources(e: Expr): multiset<TableSource> {
    match e.node
    case Unary(_, a) => Sources(a)
    case Binary(_, l, r) => Sources(l) + Sources(r)
    case InSubquery(_, q, _) => QuerySources(q)
    case Exists(q, _) => QuerySources(q)
    case ScalarSubquery(q) => QuerySources(q)
    case _ => multiset{}
  }

  function OwnSources(q: QuerySpec): multiset<TableSource> {
    multiset{q.from} + JoinSources(q.joins)
  }

  function CteSources(ctes: seq<Cte>): multiset<TableSource> {
    if ctes == [] then multiset{} else QuerySources(ctes[0].query) + CteSources(ctes[1..])
  }

  function QuerySources(q: QuerySpec): multiset<TableSource> {
    CteSources(q.ctes) + OwnSources(q)
    + (if q.filter.Some? then Sources(q.filter.value) else multiset{})
    + (if q.setOpRhs.Some? then QuerySources(q.setOpRhs.value) else multiset{})
  }

  /** Those below the FROM clause and outside the CTEs. */
  function InnerSources(q: QuerySpec): multiset<TableSource> {
    (if q.filter.Some? then Sources(q.filter.value) else multiset{})
    + (if q.setOpRhs.Some? then QuerySources(q.setOpRhs.value) else multiset{})
  }

  predicate Defines(ctes: seq<Cte>, name: string) {
    exists i :: 0 <= i < |ctes| && ctes[i].name == name
  }

  /** A CTE hides every table of its name in the query and below it. Each name
      of q, with the scope own, still means the table it was taken from. */
  ghost predicate NamesMean(q: QuerySpec, own: Scope) {
    && (forall i :: 0 <= i < |own| && Defines(q.ctes, own[i].table.name) ==> IsCte(own[i].table, q.ctes))
    && (forall s :: s in InnerSources(q) ==> !Defines(q.ctes, s.table))
  }

  /** How deep subqueries nest in e. */
  function Nesting(e: Expr): nat {
    match e.node
    case Unary(_, a) => Nesting(a)
    case Binary(_, l, r) => Max(Nesting(l), Nesting(r))
    case InSubquery(_, q, _) => 1 + FilterNesting(q)
    case Exists(q, _) => 1 + FilterNesting(q)
    case ScalarSubquery(q) => 1 + FilterNesting(q)
    case _ => 0
  }

  /** How deep they nest in the WHERE clause of q. */
  function FilterNesting(q: QuerySpec): nat {
    if q.filter.Some? then Nesting(q.filter.value) else 0
  }

  lemma {:induction false} FlatReadsNothing(e: Expr, vis: Scope)
    requires WfFlat(e, vis)
    ensures Sources(e) == multiset{} && Nesting(e) == 0
  {
    match e.node
    case Unary(_, a) => FlatReadsNothing(a, vis);
    case Binary(_, l, r) =>
      FlatReadsNothing(l, vis);
      FlatReadsNothing(r, vis);
    case _ =>
  }

  predicate AliasFrom(alias: string, lo: nat, hi: nat) {
    exists n :: lo <= n < hi && alias == Numbered('u', n)
  }

  /** The sources m read only tables in names and are each declared once, under
      distinct aliases numbered from lo to hi. */
  ghost predicate Owned(m: multiset<TableSource>, lo: nat, hi: nat, names: set<string>) {
    && (forall s :: s in m ==> m[s] == 1 && s.table in names && AliasFrom(s.alias, lo, hi))
    && (forall s, t :: s in m && t in m && s.alias == t.alias ==> s == t)
  }

  lemma AliasesApart(alias: string, lo: nat, mid: nat, hi: nat)
    requires AliasFrom(alias, lo, mid)
    ensures !AliasFrom(alias, mid, hi)
  {
    var m :| lo <= m < mid && alias == Numbered('u', m);
    forall n | mid <= n < hi ensures alias != Numbered('u', n) {
      if alias == Numbered('u', n) {
        NumberedInjective('u', m, n);
      }
    }
  }

  lemma OwnedJoin(a: multiset<TableSource>, b: multiset<TableSource>, lo: nat, mid: nat, hi: nat, names: set<string>)
    requires Owned(a, lo, mid, names) && Owned(b, mid, hi, names) && lo <= mid <= hi
    ensures Owned(a + b, lo, hi, names)
  {
    forall s, t | s in a && t in b ensures s.alias != t.alias {
      AliasesApart(s.alias, lo, mid, hi);
    }
    forall s | s in a + b ensures (a + b)[s] == 1 && s.table in names && AliasFrom(s.alias, lo, hi) {
      assert !(s in a && s in b);
    }
  }

  lemma OwnedWiden(m: multiset<TableSource>, lo: nat, hi: nat, lo': nat, hi': nat, names: set<string>,
          names': set<string>)
    requires Owned(m, lo, hi, names) && lo' <= lo && hi <= hi' && names <= names'
    ensures Owned(m, lo', hi', names')
  {
  }

  lemma OwnedOne(s: TableSource, n: nat, names: set<string>)
    requires s.alias == Numbered('u', n) && s.table in names
    ensures Owned(multiset{s}, n, n + 1, names)
  {
  }

  function Names(ts: seq<Table>): set<string> {
    set t | t in ts :: t.name
  }
}
