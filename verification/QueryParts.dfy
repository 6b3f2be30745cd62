/** How the parts of a generated query fit together. */
module QueryParts {
  import opened Metadata
  import opened Numerals
  import opened QueryIr
  import opened Scopes
  import opened Capture
  import opened Leaves
  import opened Conditions
  import opened Joins
  import opened SelectLists

  /** A trimmed plain query is still well formed, over the same sources. */
  lemma TrimFits(q: QuerySpec, keep: nat, limit: Option<nat>, own: Scope, outer: Scope, ts: seq<Table>)
    requires keep < |q.items| && QueryFits(q, own, outer, ts, None) && Plain(q) && q.lock.clause == NoLock
    requires limit in {None, Some(1)} && |q.groupBy| <= 2
    ensures
      var t := TrimToSingleItem(q, keep).(limit := limit);
      WfQuery(t, outer, ts) && Single(t, FamilyOf(q.items[keep].expr.ty)) && QuerySources(t) == QuerySources(q)
  {
    TrimKeepsList(q, keep, own);
    var t := TrimToSingleItem(q, keep).(limit := limit);
    assert ItemsFit(t, own);
    assert QueryFits(t, own, outer, ts, None);
  }

  lemma ReshapedFits(lhs: seq<SelectItem>, rhs: QuerySpec, r: QuerySpec, own: Scope, ts: seq<Table>)
    requires QueryFits(rhs, own, [], ts, None) && Plain(rhs) && rhs.lock.clause == NoLock
    requires r == rhs.(items := r.items, orderBy := [], offset := None)
    requires ItemsFit(r, own) && Sized(r)
    ensures WfQuery(r, [], ts) && Plain(r) && QuerySources(r) == QuerySources(rhs)
  {
    assert QueryFits(r, own, [], ts, None);
  }

  function TargetNames(target: Option<Table>): set<string> {
    if target.Some? then {target.value.name} else {}
  }

  /** The names q may read: the tables', its own CTEs' and the target's. */
  function Readable(ts: seq<Table>, ctes: seq<Cte>, target: Option<Table>): set<string> {
    Names(ts) + (set c | c in ctes :: c.name) + TargetNames(target)
  }

  /** What a primary-key select is: the first column of the target, and only
      that, with nothing that would make the target's rows nullable. */
  ghost predicate PkShape(q: QuerySpec, own: Scope, target: Option<Table>) {
    && |own| > 0 && Some(own[0].table) == target && own[0].table.columns != []
    && q.items == [SelectItem(ColExpr(own[0].alias, own[0].table.columns[0]), "c0")]
    && q.groupBy == [] && q.having.None? && q.limit.None? && q.offset.None?
    && (q.distinct <==> q.joins != [])
    && (forall j :: j in q.joins ==> j.kind != Right)
    && Plain(q)
  }

  /** At most one CTE: a plain closed query under a generated name. */
  ghost predicate CteOk(ctes: seq<Cte>, ts: seq<Table>) {
    |ctes| <= 1 && (|ctes| == 1 ==>
      Plain(ctes[0].query) && WfQuery(ctes[0].query, [], ts) && ctes[0].query.items != []
      && NamedCte(ctes[0]))
  }

  lemma CandFits(ts: seq<Table>, ctes: seq<Cte>, cands: seq<Table>, t: Table)
    requires |ctes| <= 1 && cands == ts + (if ctes == [] then [] else [CteTable(ctes[0])]) && t in cands
    ensures TableFits(t, ctes, ts)
  {
    if t !in ts {
      assert CteTable(ctes[0]) == t;
    }
  }

  /** FROM and JOIN sources come from the tables, the CTE or the target. */
  lemma FromFits(q: QuerySpec, own: Scope, ts: seq<Table>, cands: seq<Table>, target: Option<Table>)
    requires CteOk(q.ctes, ts) && |own| == |q.joins| + 1
    requires cands == ts + (if q.ctes == [] then [] else [CteTable(q.ctes[0])])
    requires q.from == TableSource(own[0].table.name, own[0].alias)
    requires if target.Some? then own[0].table == target.value else own[0].table in cands
    requires forall i :: 0 <= i < |q.joins| ==> JoinsOne(q.joins[i].source, own[i + 1], cands)
    ensures SourcesFit(q, own, ts, target)
  {
    if target.None? {
      CandFits(ts, q.ctes, cands, own[0].table);
    }
    forall i {:trigger q.joins[i]} | 0 <= i < |q.joins|
      ensures JoinSourceFits(q.joins[i].source, own[i + 1], q.ctes, ts)
    {
      assert JoinsOne(q.joins[i].source, own[i + 1], cands);
      CandFits(ts, q.ctes, cands, own[i + 1].table);
    }
  }

  lemma CandNames(ts: seq<Table>, ctes: seq<Cte>, cands: seq<Table>, target: Option<Table>)
    requires |ctes| <= 1 && cands == ts + (if ctes == [] then [] else [CteTable(ctes[0])])
    ensures Names(cands) <= Readable(ts, ctes, target)
  {
    forall t | t in cands ensures t.name in Readable(ts, ctes, target) {
      if t !in ts {
        assert ctes[0] in ctes && t.name == ctes[0].name;
      }
    }
  }

  lemma FromOwned(from: TableSource, joins: seq<Join>, lo: nat, hi: nat, names: set<string>)
    requires from.alias == Numbered('u', lo) && from.table in names && lo < hi
    requires Owned(JoinSources(joins), lo + 1, hi, names)
    ensures Owned(multiset{from} + JoinSources(joins), lo, hi, names)
  {
    OwnedOne(from, lo, names);
    OwnedJoin(multiset{from}, JoinSources(joins), lo, lo + 1, hi, names);
  }

  /** The parts of a query were numbered one after the other. */
  lemma SourcesOwned(q: QuerySpec, c0: nat, c1: nat, c2: nat, c3: nat, c4: nat, names: set<string>)
    requires c0 <= c1 <= c2 <= c3 <= c4
    requires Owned(CteSources(q.ctes), c0, c1, names) && Owned(OwnSources(q), c1, c2, names)
    requires q.filter.Some? ==> Owned(Sources(q.filter.value), c2, c3, names)
    requires q.setOpRhs.Some? ==> Owned(QuerySources(q.setOpRhs.value), c3, c4, names)
    ensures Owned(QuerySources(q), c0, c4, names)
  {
    var f := if q.filter.Some? then Sources(q.filter.value) else multiset{};
    var r := if q.setOpRhs.Some? then QuerySources(q.setOpRhs.value) else multiset{};
    OwnedJoin(CteSources(q.ctes), OwnSources(q), c0, c1, c2, names);
    OwnedJoin(CteSources(q.ctes) + OwnSources(q), f, c0, c2, c3, names);
    OwnedJoin(CteSources(q.ctes) + OwnSources(q) + f, r, c0, c3, c4, names);
  }

  lemma PartsOwned(q: QuerySpec, own: Scope, ts: seq<Table>, cands: seq<Table>, target: Option<Table>, c0: nat,
          c1: nat, c2: nat, c3: nat, c4: nat)
    requires c0 <= c1 < c2 <= c3 <= c4 && |own| > 0
    requires |q.ctes| <= 1 && cands == ts + (if q.ctes == [] then [] else [CteTable(q.ctes[0])])
    requires Owned(CteSources(q.ctes), c0, c1, Names(ts))
    requires q.from == TableSource(own[0].table.name, Numbered('u', c1))
    requires if target.Some? then own[0].table == target.value else own[0].table in cands
    requires Owned(JoinSources(q.joins), c1 + 1, c2, Names(cands))
    requires q.filter.Some? ==> Owned(Sources(q.filter.value), c2, c3, Names(ts))
    requires q.setOpRhs.Some? ==> Owned(QuerySources(q.setOpRhs.value), c3, c4, Names(ts))
    ensures Owned(QuerySources(q), c0, c4, Readable(ts, q.ctes, target))
  {
    var names := Readable(ts, q.ctes, target);
    CandNames(ts, q.ctes, cands, target);
    OwnedWiden(CteSources(q.ctes), c0, c1, c0, c1, Names(ts), names);
    OwnedWiden(JoinSources(q.joins), c1 + 1, c2, c1 + 1, c2, Names(cands), names);
    if q.filter.Some? {
      OwnedWiden(Sources(q.filter.value), c2, c3, c2, c3, Names(ts), names);
    }
    if q.setOpRhs.Some? {
      OwnedWiden(QuerySources(q.setOpRhs.value), c3, c4, c3, c4, Names(ts), names);
    }
    FromOwned(q.from, q.joins, c1, c2, names);
    SourcesOwned(q, c0, c1, c2, c3, c4, names);
  }

  /** A generated query over outer with its scope: well formed, not locked, its
      aliases numbered from lo to hi, and no CTE read below its FROM clause. */
  ghost predicate QueryOk(q: QuerySpec, own: Scope, outer: Scope, ts: seq<Table>, target: Option<Table>, lo: nat,
          hi: nat) {
    && lo <= hi
    && QueryFits(q, own, outer, ts, target) && Sized(q) && q.lock == LockSpec(NoLock, "")
    && Owned(QuerySources(q), lo, hi, Readable(ts, q.ctes, target))
    && forall s :: s in InnerSources(q) ==> s.table in Names(ts)
  }

  /** No table has the name of one of the CTEs. */
  predicate NamesApart(ctes: seq<Cte>, ts: seq<Table>, target: Option<Table>) {
    (forall t :: t in ts ==> !Defines(ctes, t.name)) && (target.Some? ==> !Defines(ctes, target.value.name))
  }

  /** Then no CTE hides a table the query reads. */
  lemma ApartMeans(q: QuerySpec, own: Scope, outer: Scope, ts: seq<Table>, target: Option<Table>, lo: nat, hi: nat)
    requires QueryOk(q, own, outer, ts, target, lo, hi) && NamesApart(q.ctes, ts, target)
    ensures NamesMean(q, own)
  {
    forall i | 0 <= i < |own| && Defines(q.ctes, own[i].table.name) ensures IsCte(own[i].table, q.ctes) {
      if i > 0 {
        assert JoinSourceFits(q.joins[i - 1].source, own[i - 1 + 1], q.ctes, ts);
      }
    }
  }

  /** No table has a name that a CTE can get. */
  ghost predicate NoCteName(ts: seq<Table>, target: Option<Table>) {
    (forall t :: t in ts ==> !CteName(t.name)) && (target.Some? ==> !CteName(target.value.name))
  }

  lemma NoCteNameMeans(q: QuerySpec, own: Scope, outer: Scope, ts: seq<Table>, target: Option<Table>, lo: nat, hi: nat)
    requires QueryOk(q, own, outer, ts, target, lo, hi) && NoCteName(ts, target)
    ensures NamesMean(q, own)
  {
    forall i, t | 0 <= i < |q.ctes| && (t in ts || Some(t) == target) ensures q.ctes[i].name != t.name {
      assert NamedCte(q.ctes[i]);
    }
    ApartMeans(q, own, outer, ts, target, lo, hi);
  }

  lemma CteNumber(name: string) returns (n: nat)
    requires CteName(name)
    ensures n > 0 && name == Numbered('w', n)
  {
    n :| n > 0 && name == Numbered('w', n);
  }

  /** SELECT the first column of t under that alias. */
  function FirstColumn(ctes: seq<Cte>, t: Table, alias: string): QuerySpec
    requires t.columns != []
  {
    Bare(ctes, TableSource(t.name, alias), [], [SelectItem(ColExpr(alias, t.columns[0]), "c0")], [], None)
  }

  lemma FirstColumnFits(ctes: seq<Cte>, t: Table, alias: string, ts: seq<Table>, target: Option<Table>)
    requires t.columns != [] && CteOk(ctes, ts) && (t in ts || Some(t) == target)
    ensures QueryFits(FirstColumn(ctes, t, alias), [Entry(alias, t)], [], ts, target)
  {
    var q, own := FirstColumn(ctes, t, alias), [Entry(alias, t)];
    FirstResolves(own);
    ZeroLabel();
    assert PlainItem(q.items[0].expr, own);
    assert ItemsFit(q, own) && SourcesFit(q, own, ts, target) && JoinsFit([], own);
    CoreQuery(q, own, [], ts, target);
  }

  lemma FirstColumnOwned(t: Table, n: nat, names: set<string>)
    requires t.columns != [] && t.name in names
    ensures
      var q := FirstColumn([], t, Numbered('u', n));
      QuerySources(q) == multiset{q.from} && Owned(multiset{q.from}, n, n + 1, names)
  {
    var q := FirstColumn([], t, Numbered('u', n));
    OwnedOne(q.from, n, names);
    assert QuerySources(q) == multiset{q.from};
  }

  /** A query that reads t, with CTE number n over b: the one the generator may
      build when its aliases have reached n - 1. */
  function Hiding(b: Table, t: Table, n: nat): QuerySpec
    requires b.columns != [] && t.columns != [] && n > 0
  {
    FirstColumn([Cte(Numbered('w', n), FirstColumn([], b, Numbered('u', n - 1)))], t, Numbered('u', n + 1))
  }

  /** If t has the name of that CTE, the source that was to read it reads the
      CTE instead. */
  lemma CteHidesTable(b: Table, t: Table, n: nat, ts: seq<Table>, target: Option<Table>)
    requires b in ts && b.columns != [] && (t in ts || Some(t) == target) && t.columns != []
    requires t.id != 0 && n > 0 && t.name == Numbered('w', n)
    ensures QueryOk(Hiding(b, t, n), [Entry(Numbered('u', n + 1), t)], [], ts, target, n - 1, n + 2)
    ensures !NamesMean(Hiding(b, t, n), [Entry(Numbered('u', n + 1), t)])
  {
    HidingOwned(b, t, n, ts, target);
    HidingMeans(b, t, n);
    hide QueryFits, Owned, Names, QuerySources, Readable, NamesMean;
  }

  lemma HidingMeans(b: Table, t: Table, n: nat)
    requires b.columns != [] && t.columns != [] && t.id != 0 && n > 0 && t.name == Numbered('w', n)
    ensures !NamesMean(Hiding(b, t, n), [Entry(Numbered('u', n + 1), t)])
  {
    hide Numbered;
    var q, own := Hiding(b, t, n), [Entry(Numbered('u', n + 1), t)];
    assert q.ctes[0].name == t.name && CteTable(q.ctes[0]).id == 0;
    assert Defines(q.ctes, own[0].table.name);
  }

  lemma HidingCtes(b: Table, n: nat, ts: seq<Table>)
    requires b in ts && b.columns != [] && n > 0
    ensures
      var ctes := [Cte(Numbered('w', n), FirstColumn([], b, Numbered('u', n - 1)))];
      CteOk(ctes, ts) && Owned(CteSources(ctes), n - 1, n + 1, Names(ts))
  {
    assert b.name in Names(ts);
    hide QueryFits, Owned, Numbered, CteOk, Names, NestedFits;
    FirstColumnNested(b, n - 1, ts);
    CteFits(FirstColumn([], b, Numbered('u', n - 1)), [Entry(Numbered('u', n - 1), b)], ts, 0, n - 1, n);
  }

  lemma FirstColumnNested(b: Table, n: nat, ts: seq<Table>)
    requires b in ts && b.columns != [] && b.name in Names(ts)
    ensures
      NestedFits(FirstColumn([], b, Numbered('u', n)), [Entry(Numbered('u', n), b)], [], ts, 0, n, n + 1)
  {
    hide QueryFits, Owned, Numbered, CteOk, Names, QuerySources;
    NoCtesOk(ts, 0);
    FirstColumnFits([], b, Numbered('u', n), ts, None);
    FirstColumnOwned(b, n, Names(ts));
  }

  lemma FirstColumnOver(ctes: seq<Cte>, t: Table, n: nat, ts: seq<Table>, target: Option<Table>)
    requires t.columns != [] && n > 0 && t.name in Readable(ts, ctes, target)
    requires Owned(CteSources(ctes), n - 1, n + 1, Names(ts))
    ensures Owned(QuerySources(FirstColumn(ctes, t, Numbered('u', n + 1))), n - 1, n + 2, Readable(ts, ctes, target))
  {
    hide Owned, Numbered, Names, Readable, CteSources, QuerySources;
    var names, from := Readable(ts, ctes, target), TableSource(t.name, Numbered('u', n + 1));
    FirstColumnOwned(t, n + 1, names);
    NamesReadable(ts, ctes, target);
    OwnedWiden(CteSources(ctes), n - 1, n + 1, n - 1, n + 1, Names(ts), names);
    OwnedJoin(CteSources(ctes), multiset{from}, n - 1, n + 1, n + 2, names);
    FirstColumnSources(ctes, t, Numbered('u', n + 1));
  }

  lemma HidingOwned(b: Table, t: Table, n: nat, ts: seq<Table>, target: Option<Table>)
    requires b in ts && b.columns != [] && (t in ts || Some(t) == target) && t.columns != [] && n > 0
    ensures
      var q := Hiding(b, t, n);
      QueryFits(q, [Entry(Numbered('u', n + 1), t)], [], ts, target)
      && Owned(QuerySources(q), n - 1, n + 2, Readable(ts, q.ctes, target))
  {
    var ctes := [Cte(Numbered('w', n), FirstColumn([], b, Numbered('u', n - 1)))];
    assert t.name in Readable(ts, ctes, target);
    HidingCtes(b, n, ts);
    hide QueryFits, Owned, Numbered, CteOk, Names, Readable, CteName, CteSources, QuerySources;
    FirstColumnFits(ctes, t, Numbered('u', n + 1), ts, target);
    FirstColumnOver(ctes, t, n, ts, target);
  }

  lemma FirstColumnSources(ctes: seq<Cte>, t: Table, alias: string)
    requires t.columns != []
    ensures
      var q := FirstColumn(ctes, t, alias);
      QuerySources(q) == CteSources(ctes) + multiset{q.from}
  {
  }

  /** Exactly when every name of every query the generator may build means the
      table it was taken from: no table has a name a CTE can get. */
  lemma CteNamesExact(ts: seq<Table>, target: Option<Table>)
    requires ts != [] && forall t :: t in ts || target == Some(t) ==> t.columns != [] && t.id != 0
    ensures NoCteName(ts, target) <==>
            forall q, own, lo, hi {:trigger QueryOk(q, own, [], ts, target, lo, hi)} ::
              QueryOk(q, own, [], ts, target, lo, hi) ==> NamesMean(q, own)
  {
    hide QueryOk, NamesMean;
    if NoCteName(ts, target) {
      forall q, own, lo, hi | QueryOk(q, own, [], ts, target, lo, hi) ensures NamesMean(q, own) {
        NoCteNameMeans(q, own, [], ts, target, lo, hi);
      }
    } else {
      var t :| (t in ts || target == Some(t)) && CteName(t.name);
      var n := CteNumber(t.name);
      CteHidesTable(ts[0], t, n, ts, target);
    }
  }

  lemma NamesReadable(ts: seq<Table>, ctes: seq<Cte>, target: Option<Table>)
    ensures Names(ts) <= Readable(ts, ctes, target)
  {
  }

  lemma NoCtesOk(ts: seq<Table>, n: nat)
    ensures CteOk([], ts) && Owned(CteSources([]), n, n, Names(ts))
  {
  }

  /** A plain one over the tables alone. */
  ghost predicate NestedFits(q: QuerySpec, own: Scope, outer: Scope, ts: seq<Table>, budget: nat, lo: nat, hi: nat) {
    && lo <= hi
    && QueryFits(q, own, outer, ts, None) && Sized(q) && Plain(q) && q.lock == LockSpec(NoLock, "")
    && FilterNesting(q) <= budget
    && Owned(QuerySources(q), lo, hi, Names(ts))
  }

  /** A one-column subquery of family f, ready to be an operand. */
  ghost predicate OperandFits(q: QuerySpec, limit: Option<nat>, outer: Scope, f: Family, ts: seq<Table>,
          budget: nat, lo: nat, hi: nat) {
    && lo <= hi
    && WfQuery(q, outer, ts) && Single(q, f) && q.limit == limit && FilterNesting(q) <= budget
    && Owned(QuerySources(q), lo, hi, Names(ts))
  }

  lemma TrimOperand(q: QuerySpec, keep: nat, limit: Option<nat>, own: Scope, outer: Scope, ts: seq<Table>,
          budget: nat, lo: nat, hi: nat)
    requires NestedFits(q, own, outer, ts, budget, lo, hi) && keep < |q.items| && limit in {None, Some(1)}
    ensures OperandFits(TrimToSingleItem(q, keep).(limit := limit), limit, outer, FamilyOf(q.items[keep].expr.ty), ts,
      budget, lo, hi)
  {
    TrimFits(q, keep, limit, own, outer, ts);
  }

  lemma NestedHasItems(q: QuerySpec, own: Scope, outer: Scope, ts: seq<Table>, budget: nat, lo: nat, hi: nat)
    requires NestedFits(q, own, outer, ts, budget, lo, hi)
    ensures q.items != []
  {
  }

  lemma ExistsFits(q: QuerySpec, negated: bool, own: Scope, scope: Scope, ts: seq<Table>, depth: nat,
          budget: nat, lo: nat, hi: nat)
    requires NestedFits(q, own, scope, ts, budget, lo, hi)
    ensures BoolFits(Expr(Exists(q, negated), BOOL), scope, ts, depth, budget + 1, lo, hi)
  {
    assert WithSubquery(Expr(Exists(q, negated), BOOL), scope, ts);
  }

  lemma InFits(arg: Expr, q: QuerySpec, negated: bool, scope: Scope, ts: seq<Table>, depth: nat, budget: nat,
          lo: nat, hi: nat)
    requires IsLeaf(arg, scope, FamilyOf(arg.ty)) && OperandFits(q, None, scope, FamilyOf(arg.ty), ts, budget, lo, hi)
    ensures BoolFits(Expr(InSubquery(arg, q, negated), BOOL), scope, ts, depth, budget + 1, lo, hi)
  {
    assert WithSubquery(Expr(InSubquery(arg, q, negated), BOOL), scope, ts);
  }

  lemma CmpFits(op: BinOp, l: Expr, q: QuerySpec, scope: Scope, f: Family, ts: seq<Table>, depth: nat,
          budget: nat, lo: nat, hi: nat)
    requires Comparison(op) && WfFlat(l, scope) && FamilyOf(l.ty) == f && f in {Numeric, Text}
    requires OperandFits(q, Some(1), scope, f, ts, budget, lo, hi)
    ensures BoolFits(Expr(Node.Binary(op, l, Expr(ScalarSubquery(q), Representative(f))), BOOL), scope, ts, depth,
      budget + 1, lo, hi)
  {
    CmpSubqueryOk(op, l, q, scope, f, ts);
  }

  lemma BoolWiden(e: Expr, scope: Scope, ts: seq<Table>, depth: nat, budget: nat, lo: nat, mid: nat, hi: nat)
    requires lo <= mid && BoolFits(e, scope, ts, depth, budget, mid, hi)
    ensures BoolFits(e, scope, ts, depth, budget, lo, hi)
  {
    OwnedWiden(Sources(e), mid, hi, lo, hi, Names(ts), Names(ts));
  }

  lemma CteFits(body: QuerySpec, own: Scope, ts: seq<Table>, budget: nat, lo: nat, hi: nat)
    requires NestedFits(body, own, [], ts, budget, lo, hi)
    ensures
      var ctes := [Cte(Numbered('w', hi), body)];
      CteOk(ctes, ts) && Owned(CteSources(ctes), lo, hi + 1, Names(ts))
  {
    var ctes := [Cte(Numbered('w', hi), body)];
    assert ctes[1..] == [];
    assert body.from in QuerySources(body);
    assert CteSources(ctes) == QuerySources(body);
    OwnedWiden(QuerySources(body), lo, hi, lo, hi + 1, Names(ts), Names(ts));
  }

  lemma CandsHaveColumns(ts: seq<Table>, ctes: seq<Cte>, cands: seq<Table>)
    requires HaveColumns(ts) && CteOk(ctes, ts) && cands == ts + (if ctes == [] then [] else [CteTable(ctes[0])])
    ensures HaveColumns(cands)
  {
  }

  /** A query with a FROM clause and a select list only. */
  function Bare(ctes: seq<Cte>, from: TableSource, joins: seq<Join>, items: seq<SelectItem>,
          groupBy: seq<ColumnRef>, having: Option<Expr>): QuerySpec {
    QuerySpec(ctes, from, joins, false, items, None, groupBy, having, [], None, None, LockSpec(NoLock, ""), None,
      UnionAll)
  }

  ghost predicate PkItems(q: QuerySpec, own: Scope, target: Option<Table>) {
    && |own| > 0 && Some(own[0].table) == target && own[0].table.columns != []
    && q.items == [SelectItem(ColExpr(own[0].alias, own[0].table.columns[0]), "c0")]
    && q.groupBy == [] && q.having.None?
    && (forall j :: j in q.joins ==> j.kind != Right)
  }

  lemma CoreFrom(q: QuerySpec, own: Scope, ts: seq<Table>, cands: seq<Table>, target: Option<Table>, lo: nat, hi: nat)
    requires CteOk(q.ctes, ts) && cands == ts + (if q.ctes == [] then [] else [CteTable(q.ctes[0])])
    requires JoinsOk(q.joins, own, cands, lo, hi)
    requires q.from == TableSource(own[0].table.name, own[0].alias)
    requires if target.Some? then own[0].table == target.value else own[0].table in cands
    ensures SourcesFit(q, own, ts, target)
  {
    FromFits(q, own, ts, cands, target);
  }

  lemma CoreQuery(q: QuerySpec, own: Scope, outer: Scope, ts: seq<Table>, target: Option<Table>)
    requires CteOk(q.ctes, ts) && q == Bare(q.ctes, q.from, q.joins, q.items, q.groupBy, q.having)
    requires SourcesFit(q, own, ts, target) && JoinsFit(q.joins, own) && ItemsFit(q, own)
    ensures QueryFits(q, own, outer, ts, target)
  {
    assert OrderFits(q) && TailFits(q);
  }

  lemma CoreFits(q: QuerySpec, own: Scope, outer: Scope, ts: seq<Table>, cands: seq<Table>,
          target: Option<Table>, c0: nat, c1: nat, c2: nat, c3: nat)
    requires CteOk(q.ctes, ts) && cands == ts + (if q.ctes == [] then [] else [CteTable(q.ctes[0])])
    requires q == Bare(q.ctes, q.from, q.joins, q.items, q.groupBy, q.having) && ItemsFit(q, own) && Sized(q)
    requires c0 <= c1 < c2 <= c3 && JoinsOk(q.joins, own, cands, c1 + 1, c2)
    requires q.from == TableSource(own[0].table.name, own[0].alias) && own[0].alias == Numbered('u', c1)
    requires if target.Some? then own[0].table == target.value else own[0].table in cands
    requires Owned(CteSources(q.ctes), c0, c1, Names(ts))
    ensures QueryOk(q, own, outer, ts, target, c0, c3)
  {
    CoreFrom(q, own, ts, cands, target, c1 + 1, c2);
    PartsOwned(q, own, ts, cands, target, c0, c1, c2, c3, c3);
    CoreQuery(q, own, outer, ts, target);
  }

  lemma FilterFits(q: QuerySpec, e: Expr, own: Scope, outer: Scope, ts: seq<Table>, target: Option<Table>,
          lo: nat, mid: nat, hi: nat)
    requires QueryOk(q, own, outer, ts, target, lo, mid) && q.filter.None? && q.setOpRhs.None? && mid <= hi
    requires WfPred(e, own, ts) || WfPred(e, own + outer, ts)
    requires Owned(Sources(e), mid, hi, Names(ts))
    ensures QueryOk(q.(filter := Some(e)), own, outer, ts, target, lo, hi)
  {
    hide QueryFits, Owned, WfPred, Readable, Names, QuerySources, InnerSources, Sources;
    FilterQuery(q, e, own, outer, ts, target);
    FilterSources(q, e);
    OwnedNames(Sources(e), mid, hi, Names(ts));
    MoreOwned(QuerySources(q), Sources(e), lo, mid, hi, ts, q.ctes, target);
  }

  lemma FilterSources(q: QuerySpec, e: Expr)
    requires q.filter.None? && q.setOpRhs.None?
    ensures QuerySources(q.(filter := Some(e))) == QuerySources(q) + Sources(e)
    ensures InnerSources(q.(filter := Some(e))) == InnerSources(q) + Sources(e)
  {
  }

  lemma FilterQuery(q: QuerySpec, e: Expr, own: Scope, outer: Scope, ts: seq<Table>, target: Option<Table>)
    requires QueryFits(q, own, outer, ts, target) && q.filter.None? && q.setOpRhs.None?
    requires WfPred(e, own, ts) || WfPred(e, own + outer, ts)
    ensures QueryFits(q.(filter := Some(e)), own, outer, ts, target)
  {
    var r := q.(filter := Some(e));
    assert SourcesFit(r, own, ts, target) && ItemsFit(r, own);
    assert forall o :: o in r.orderBy ==> OrderItemFits(o, q) ==> OrderItemFits(o, r);
  }

  lemma MoreOwned(a: multiset<TableSource>, b: multiset<TableSource>, lo: nat, mid: nat, hi: nat, ts: seq<Table>,
          ctes: seq<Cte>, target: Option<Table>)
    requires lo <= mid <= hi && Owned(a, lo, mid, Readable(ts, ctes, target)) && Owned(b, mid, hi, Names(ts))
    ensures Owned(a + b, lo, hi, Readable(ts, ctes, target))
  {
    OwnedWiden(b, mid, hi, mid, hi, Names(ts), Readable(ts, ctes, target));
    OwnedJoin(a, b, lo, mid, hi, Readable(ts, ctes, target));
  }

  lemma TailOk(q: QuerySpec, r: QuerySpec, own: Scope, outer: Scope, ts: seq<Table>, target: Option<Table>,
          lo: nat, hi: nat)
    requires QueryOk(q, own, outer, ts, target, lo, hi) && q.setOpRhs.None?
    requires r == q.(orderBy := r.orderBy, limit := r.limit, offset := r.offset, distinct := r.distinct)
    requires forall o :: o in r.orderBy ==>
      o.expr.node.Ref? && exists i :: 0 <= i < |q.items| && o.expr == q.items[i].expr
    requires Sized(r) && (r.offset.Some? ==> r.limit.Some?)
    requires r.distinct ==> PlainList(q.items, q.groupBy, q.having, own)
    ensures QueryOk(r, own, outer, ts, target, lo, hi)
  {
    assert QuerySources(r) == QuerySources(q);
    assert ItemsFit(r, own);
    forall o | o in r.orderBy ensures OrderItemFits(o, r) {
      var i :| 0 <= i < |q.items| && o.expr == q.items[i].expr;
      assert o.expr == r.items[i].expr;
    }
    assert QueryFits(r, own, outer, ts, target);
  }

  lemma OkLabelled(q: QuerySpec, own: Scope, outer: Scope, ts: seq<Table>, target: Option<Table>, lo: nat, hi: nat)
    requires QueryOk(q, own, outer, ts, target, lo, hi)
    ensures q.items != [] && |q.items| <= 6 && Labelled(q.items)
  {
  }

  ghost predicate SideFits(items: seq<SelectItem>, rhs: QuerySpec, ts: seq<Table>, lo: nat, hi: nat) {
    && lo <= hi && WfQuery(rhs, [], ts) && Plain(rhs) && rhs.orderBy == [] && rhs.offset.None?
    && |rhs.items| == |items|
    && (forall i :: 0 <= i < |items| ==>
          rhs.items[i].colAlias == items[i].colAlias && FamilyOf(rhs.items[i].expr.ty) == FamilyOf(items[i].expr.ty))
    && Owned(QuerySources(rhs), lo, hi, Names(ts))
  }

  lemma ReshapedNested(items: seq<SelectItem>, body: QuerySpec, rhs: QuerySpec, own: Scope, ts: seq<Table>,
          budget: nat, lo: nat, hi: nat)
    requires NestedFits(body, own, [], ts, budget, lo, hi) && items != [] && |items| <= 6 && Labelled(items)
    requires rhs == body.(items := rhs.items, orderBy := [], offset := None) && |rhs.items| == |items|
    requires forall i :: 0 <= i < |items| ==>
      rhs.items[i].colAlias == items[i].colAlias && FamilyOf(rhs.items[i].expr.ty) == FamilyOf(items[i].expr.ty)
      && (SmallLiteral(rhs.items[i].expr) || (i < |body.items| && rhs.items[i].expr == body.items[i].expr))
    ensures SideFits(items, rhs, ts, lo, hi)
  {
    ReshapedListFits(items, body, rhs, own);
    ReshapedFits(items, body, rhs, own, ts);
  }

  /** An ORDER BY of a set operation names its output columns by number. */
  predicate NumberedItem(o: OrderItem, items: seq<SelectItem>) {
    exists i :: 0 <= i < |items| && o.expr == Expr(Ref(ColumnRef("", Numbered('c', i))), items[i].expr.ty)
  }

  lemma SetOpOk(q: QuerySpec, rhs: QuerySpec, kind: SetOpKind, orderBy: seq<OrderItem>, own: Scope, outer: Scope,
          ts: seq<Table>, target: Option<Table>, lo: nat, mid: nat, hi: nat)
    requires QueryOk(q, own, outer, ts, target, lo, mid) && q.setOpRhs.None? && SideFits(q.items, rhs, ts, mid, hi)
    requires |orderBy| <= 2 && forall o :: o in orderBy ==> NumberedItem(o, q.items)
    ensures QueryOk(q.(setOpRhs := Some(rhs), setOpKind := kind, orderBy := orderBy), own, outer, ts, target, lo, hi)
  {
    hide QueryFits, Owned, WfQuery, Readable, Names, QuerySources, InnerSources, NumberedItem;
    var r := q.(setOpRhs := Some(rhs), setOpKind := kind, orderBy := orderBy);
    SetOpQuery(q, rhs, kind, orderBy, own, outer, ts, target, mid, hi);
    SetOpSources(q, r);
    OwnedNames(QuerySources(rhs), mid, hi, Names(ts));
    MoreOwned(QuerySources(q), QuerySources(rhs), lo, mid, hi, ts, q.ctes, target);
  }

  lemma SetOpSources(q: QuerySpec, r: QuerySpec)
    requires q.setOpRhs.None? && r.setOpRhs.Some?
    requires r == q.(setOpRhs := r.setOpRhs, setOpKind := r.setOpKind, orderBy := r.orderBy)
    ensures QuerySources(r) == QuerySources(q) + QuerySources(r.setOpRhs.value)
    ensures InnerSources(r) == InnerSources(q) + QuerySources(r.setOpRhs.value)
  {
  }

  lemma OwnedNames(m: multiset<TableSource>, lo: nat, hi: nat, names: set<string>)
    requires Owned(m, lo, hi, names)
    ensures forall s :: s in m ==> s.table in names
  {
  }

  lemma SetOpQuery(q: QuerySpec, rhs: QuerySpec, kind: SetOpKind, orderBy: seq<OrderItem>, own: Scope,
          outer: Scope, ts: seq<Table>, target: Option<Table>, mid: nat, hi: nat)
    requires QueryFits(q, own, outer, ts, target) && q.lock.clause == NoLock && SideFits(q.items, rhs, ts, mid, hi)
    requires forall o :: o in orderBy ==> NumberedItem(o, q.items)
    ensures QueryFits(q.(setOpRhs := Some(rhs), setOpKind := kind, orderBy := orderBy), own, outer, ts, target)
  {
    var r := q.(setOpRhs := Some(rhs), setOpKind := kind, orderBy := orderBy);
    assert SourcesFit(r, own, ts, target) && ItemsFit(r, own) && TailFits(r) && SameShape(r, rhs);
    NumberedOrder(q, r);
  }

  lemma NumberedOrder(q: QuerySpec, r: QuerySpec)
    requires Labelled(q.items) && r.items == q.items && r.setOpRhs.Some?
    requires forall o :: o in r.orderBy ==> NumberedItem(o, q.items)
    ensures OrderFits(r)
  {
    forall o | o in r.orderBy ensures OrderItemFits(o, r) {
      assert NumberedItem(o, q.items);
      var i :| 0 <= i < |q.items| && o.expr == Expr(Ref(ColumnRef("", Numbered('c', i))), q.items[i].expr.ty);
      assert r.items[i].colAlias == Numbered('c', i);
    }
  }

  lemma LockOk(q: QuerySpec, limit: Option<nat>, lock: LockSpec, distinct: bool, own: Scope, ts: seq<Table>,
          target: Option<Table>, lo: nat, hi: nat)
    requires QueryOk(q, own, [], ts, target, lo, hi) && PkShape(q, own, target) && (distinct ==> q.distinct)
    requires lock == q.lock || (lock.clause != NoLock && lock.ofAlias == q.from.alias && !distinct)
    ensures
      var r := q.(limit := limit, lock := lock, distinct := distinct);
      && QueryFits(r, own, [], ts, target) && QuerySources(r) == QuerySources(q) && PkItems(r, own, target)
      && (limit.None? || 1 <= limit.value <= 1000 ==> Sized(r))
  {
    var r := q.(limit := limit, lock := lock, distinct := distinct);
    assert SourcesFit(r, own, ts, target) && ItemsFit(r, own);
    forall o | o in r.orderBy ensures OrderItemFits(o, r) {
      assert OrderItemFits(o, q);
    }
  }

  lemma QueryReadsClearly(q: QuerySpec, own: Scope, ts: seq<Table>, target: Option<Table>, lo: nat, hi: nat)
    requires QueryOk(q, own, [], ts, target, lo, hi)
    ensures ClearOver(q, own, [])
  {
    NoCaptureQuery(q, own, [], [], ts, target);
  }

  /** A generated alias that is not numbered from lo to hi captures nothing. */
  lemma PredicateReadsClearly(e: Expr, qualifier: string, target: Table, ts: seq<Table>, lo: nat, hi: nat)
    requires WfPred(e, [Entry(qualifier, target)], ts) && Owned(Sources(e), lo, hi, Names(ts))
    requires !AliasFrom(qualifier, lo, hi)
    ensures Clear(e, [Entry(qualifier, target)])
  {
    NoCapture(e, [Entry(qualifier, target)], [Entry(qualifier, target)], ts);
  }

  lemma ClearlyLocked(q: QuerySpec, r: QuerySpec, own: Scope)
    requires r == q.(limit := r.limit, lock := r.lock, distinct := r.distinct) && ClearOver(q, own, [])
    ensures ClearOver(r, own, [])
  {
    hide Clear, ClearQuery, NoRepeats, MeansSome, Aliases;
    assert OwnAliases(r) == OwnAliases(q);
  }

  lemma PlainMeans(q: QuerySpec, own: Scope)
    requires Plain(q)
    ensures NamesMean(q, own)
  {
  }
}
