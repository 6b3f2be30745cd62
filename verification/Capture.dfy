/** No name capture: where every alias is declared once, each column reference
    has one table it can mean, however deep the query is nested. */
module Capture {
  import opened Metadata
  import opened QueryIr
  import opened Scopes

  function JoinAliases(joins: seq<Join>): seq<string> {
    if joins == [] then [] else JoinAliases(joins[..|joins| - 1]) + [joins[|joins| - 1].source.alias]
  }

  function OwnAliases(q: QuerySpec): seq<string> { [q.from.alias] + JoinAliases(q.joins) }

  predicate NoRepeats(xs: seq<string>) {
    forall i, j :: 0 <= i < j < |xs| ==> xs[i] != xs[j]
  }

  function Aliases(vis: Scope): seq<string> {
    seq(|vis|, i requires 0 <= i < |vis| => vis[i].alias)
  }

  predicate HasColumn(t: Table, name: string, ty: ColumnType) {
    exists j :: 0 <= j < |t.columns| && t.columns[j].name == name && t.columns[j].colType == ty
  }

  predicate OnlyAt(vis: Scope, alias: string, i: nat) {
    i < |vis| && vis[i].alias == alias && forall j :: 0 <= j < |vis| && j != i ==> vis[j].alias != alias
  }

  /** Exactly one table in sight goes by that alias, and it has the column. */
  predicate MeansOne(vis: Scope, ref: ColumnRef, ty: ColumnType) {
    exists i :: 0 <= i < |vis| && OnlyAt(vis, ref.alias, i) && HasColumn(vis[i].table, ref.column, ty)
  }

  predicate MeansSome(vis: Scope, ref: ColumnRef) {
    exists ty :: MeansOne(vis, ref, ty)
  }

  /** Every column reference of e, at any depth, means one table of those in
      sight where it stands: vis, and in a subquery its own FROM clause too. */
  ghost predicate Clear(e: Expr, vis: Scope)
    decreases e, 0
  {
    match e.node
    case Ref(r) => MeansOne(vis, r, e.ty)
    case Lit(_) => true
    case Unary(_, a) => Clear(a, vis)
    case Binary(_, l, r) => Clear(l, vis) && Clear(r, vis)
    case Between(a, lo, hi) => Clear(a, vis) && Clear(lo, vis) && Clear(hi, vis)
    case InList(a, items, _) => Clear(a, vis) && forall i :: 0 <= i < |items| ==> Clear(items[i], vis)
    case InSubquery(a, q, _) => Clear(a, vis) && ClearQuery(q, vis)
    case Exists(q, _) => ClearQuery(q, vis)
    case ScalarSubquery(q) => ClearQuery(q, vis)
    case Call(_, args) => forall i :: 0 <= i < |args| ==> Clear(args[i], vis)
    case Case(whens, otherwise) =>
      (forall i :: 0 <= i < |whens| ==> Clear(whens[i].cond, vis) && Clear(whens[i].result, vis))
      && (otherwise.Some? ==> Clear(otherwise.value, vis))
    case Agg(_, arg, _) => arg.Some? ==> Clear(arg.value, vis)
    case Window(_, arg, partitionBy, over) =>
      (arg.Some? ==> Clear(arg.value, vis))
      && (forall r :: r in partitionBy || r in over ==> MeansSome(vis, r))
  }

  ghost predicate ClearQuery(q: QuerySpec, outer: Scope)
    decreases q, 1
  {
    exists own :: ClearOver(q, own, outer)
  }

  /** The same of a query whose FROM clause declares own, with the tables of
      outer in sight around it. All aliases in sight are distinct. */
  ghost predicate ClearOver(q: QuerySpec, own: Scope, outer: Scope)
    decreases q, 0
  {
    var vis := own + outer;
    && Aliases(own) == OwnAliases(q) && NoRepeats(Aliases(vis))
    && (forall i :: 0 <= i < |q.items| ==> Clear(q.items[i].expr, vis))
    && (forall i :: 0 <= i < |q.joins| && q.joins[i].condition.Some? ==> Clear(q.joins[i].condition.value, vis))
    && (forall r :: r in q.groupBy ==> MeansSome(vis, r))
    && (q.having.Some? ==> Clear(q.having.value, vis))
    && (q.filter.Some? ==> Clear(q.filter.value, vis))
    && (forall i :: 0 <= i < |q.orderBy| && q.setOpRhs.None? ==> Clear(q.orderBy[i].expr, vis))
    && (forall i :: 0 <= i < |q.ctes| ==> ClearQuery(q.ctes[i].query, []))
    && (q.setOpRhs.Some? ==> ClearQuery(q.setOpRhs.value, []))
  }

  /** Each source is declared once and no two share an alias. */
  ghost predicate Once(m: multiset<TableSource>) {
    && (forall s :: s in m ==> m[s] == 1)
    && (forall s, t :: s in m && t in m && s.alias == t.alias ==> s == t)
  }

  ghost predicate Apart(m: multiset<TableSource>, outer: seq<string>) {
    forall s :: s in m ==> s.alias !in outer
  }

  lemma OnceParts(a: multiset<TableSource>, b: multiset<TableSource>)
    requires Once(a + b)
    ensures Once(a) && Once(b)
    ensures forall s, t :: s in a && t in b ==> s.alias != t.alias
  {
    forall s | s in a ensures a[s] == 1 {
      assert s in a + b;
    }
    forall s | s in b ensures b[s] == 1 {
      assert s in a + b;
    }
    forall s | s in a ensures s !in b {
      assert s in a + b;
      assert a[s] + b[s] == (a + b)[s] == 1;
    }
    forall s, t | s in a && t in b ensures s.alias != t.alias {
      assert s in a + b && t in a + b;
    }
  }

  lemma ApartParts(a: multiset<TableSource>, b: multiset<TableSource>, outer: seq<string>)
    requires Apart(a + b, outer)
    ensures Apart(a, outer) && Apart(b, outer)
  {
    forall s | s in a || s in b ensures s.alias !in outer {
      assert s in a + b;
    }
  }

  lemma {:induction false} AliasOfSource(joins: seq<Join>, alias: string)
    ensures alias in JoinAliases(joins) <==> exists s :: s in JoinSources(joins) && s.alias == alias
  {
    if joins != [] {
      var front, last := joins[..|joins| - 1], joins[|joins| - 1];
      AliasOfSource(front, alias);
      assert last.source in JoinSources(joins);
      if s :| s in JoinSources(joins) && s.alias == alias {
        assert s in JoinSources(front) || s == last.source;
      }
    }
  }

  lemma {:induction false} JoinAliasesDistinct(joins: seq<Join>)
    requires Once(JoinSources(joins))
    ensures NoRepeats(JoinAliases(joins))
  {
    if joins != [] {
      var front, last := joins[..|joins| - 1], joins[|joins| - 1];
      OnceParts(JoinSources(front), multiset{last.source});
      JoinAliasesDistinct(front);
      AliasOfSource(front, last.source.alias);
    }
  }

  lemma OwnAliasesDistinct(q: QuerySpec, outer: seq<string>)
    requires Once(OwnSources(q)) && Apart(OwnSources(q), outer) && NoRepeats(outer)
    ensures NoRepeats(OwnAliases(q) + outer)
  {
    OnceParts(multiset{q.from}, JoinSources(q.joins));
    JoinAliasesDistinct(q.joins);
    AliasOfSource(q.joins, q.from.alias);
    assert q.from in multiset{q.from};
    AppendDistinct([q.from.alias], JoinAliases(q.joins));
    forall alias | alias in OwnAliases(q) ensures alias !in outer {
      OwnAlias(q, alias);
    }
    AppendDistinct(OwnAliases(q), outer);
  }

  lemma AppendDistinct(xs: seq<string>, ys: seq<string>)
    requires NoRepeats(xs) && NoRepeats(ys) && forall x :: x in xs ==> x !in ys
    ensures NoRepeats(xs + ys)
  {
    forall i, j | 0 <= i < j < |xs + ys| ensures (xs + ys)[i] != (xs + ys)[j] {
      if i < |xs| <= j {
        assert xs[i] in xs && ys[j - |xs|] in ys;
      }
    }
  }

  lemma OwnAlias(q: QuerySpec, alias: string)
    requires alias in OwnAliases(q)
    ensures exists s :: s in OwnSources(q) && s.alias == alias
  {
    if alias == q.from.alias {
      assert q.from in OwnSources(q);
    } else {
      AliasOfSource(q.joins, alias);
      var s :| s in JoinSources(q.joins) && s.alias == alias;
      assert s in OwnSources(q);
    }
  }

  // ---- references outside subqueries ----

  lemma AliasesAppend(a: Scope, b: Scope)
    ensures Aliases(a + b) == Aliases(a) + Aliases(b)
  {
  }

  lemma OnlyOne(vis: Scope, i: nat)
    requires NoRepeats(Aliases(vis)) && i < |vis|
    ensures OnlyAt(vis, vis[i].alias, i)
  {
    forall j | 0 <= j < |vis| && j != i ensures vis[j].alias != vis[i].alias {
      assert Aliases(vis)[i] == vis[i].alias && Aliases(vis)[j] == vis[j].alias;
    }
  }

  lemma RefClear(part: Scope, vis: Scope, ref: ColumnRef, ty: ColumnType)
    requires Resolves(part, ref, ty) && part <= vis && NoRepeats(Aliases(vis))
    ensures MeansOne(vis, ref, ty)
  {
    var i, j :| 0 <= i < |part| && 0 <= j < |part[i].table.columns|
      && part[i].alias == ref.alias
      && part[i].table.columns[j].name == ref.column && part[i].table.columns[j].colType == ty;
    OnlyOne(vis, i);
    assert HasColumn(vis[i].table, ref.column, ty);
  }

  lemma RefsClear(part: Scope, vis: Scope, refs: seq<ColumnRef>)
    requires (forall r :: r in refs ==> InScope(part, r)) && part <= vis && NoRepeats(Aliases(vis))
    ensures forall r :: r in refs ==> MeansSome(vis, r)
  {
    forall r | r in refs ensures MeansSome(vis, r) {
      var ty :| Resolves(part, r, ty);
      RefClear(part, vis, r, ty);
    }
  }

  lemma {:induction false} FlatClear(e: Expr, part: Scope, vis: Scope)
    requires WfFlat(e, part) && part <= vis && NoRepeats(Aliases(vis))
    ensures Clear(e, vis)
  {
    hide NoRepeats, Aliases, MeansOne, BinaryTyped, CallTyped, UnaryTyped, ClearQuery;
    match e.node
    case Ref(r) => RefClear(part, vis, r, e.ty);
    case Lit(_) =>
    case Unary(_, a) => FlatClear(a, part, vis);
    case Binary(_, l, r) =>
      FlatClear(l, part, vis);
      FlatClear(r, part, vis);
    case Between(a, lo, hi) =>
      FlatClear(a, part, vis);
      FlatClear(lo, part, vis);
      FlatClear(hi, part, vis);
    case InList(a, items, _) =>
      FlatClear(a, part, vis);
      forall i | 0 <= i < |items| ensures Clear(items[i], vis) {
        FlatClear(items[i], part, vis);
      }
    case Call(_, args) =>
      forall i | 0 <= i < |args| ensures Clear(args[i], vis) {
        FlatClear(args[i], part, vis);
      }
    case Case(whens, otherwise) =>
      FlatClear(otherwise.value, part, vis);
      forall i | 0 <= i < |whens| ensures Clear(whens[i].cond, vis) && Clear(whens[i].result, vis) {
        FlatClear(whens[i].cond, part, vis);
        FlatClear(whens[i].result, part, vis);
      }
  }

  lemma AggClear(e: Expr, own: Scope, vis: Scope)
    requires WfAgg(e, own) && own <= vis && NoRepeats(Aliases(vis))
    ensures Clear(e, vis)
  {
    if e.node.aggArg.Some? {
      FlatClear(e.node.aggArg.value, own, vis);
    }
  }

  lemma ItemClear(e: Expr, own: Scope, groupBy: seq<ColumnRef>, vis: Scope)
    requires own <= vis && NoRepeats(Aliases(vis)) && (PlainItem(e, own) || AggItem(e, own, groupBy))
    ensures Clear(e, vis)
  {
    if WfFlat(e, own) {
      FlatClear(e, own, vis);
    } else if WfWindow(e, own) {
      RefsClear(own, vis, e.node.partitionBy);
      RefsClear(own, vis, e.node.over);
      if e.node.winArg.Some? {
        FlatClear(e.node.winArg.value, own, vis);
      }
    } else {
      AggClear(e, own, vis);
    }
  }

  lemma ListClear(q: QuerySpec, own: Scope, vis: Scope)
    requires ItemsFit(q, own) && own <= vis && NoRepeats(Aliases(vis))
    ensures forall i :: 0 <= i < |q.items| ==> Clear(q.items[i].expr, vis)
    ensures forall r :: r in q.groupBy ==> MeansSome(vis, r)
    ensures q.having.Some? ==> Clear(q.having.value, vis)
  {
    forall i | 0 <= i < |q.items| ensures Clear(q.items[i].expr, vis) {
      ItemClear(q.items[i].expr, own, q.groupBy, vis);
    }
    RefsClear(own, vis, q.groupBy);
    if q.having.Some? {
      AggClear(q.having.value.node.lhs, own, vis);
      FlatClear(q.having.value.node.rhs, own, vis);
    }
  }

  lemma OrderClear(q: QuerySpec, vis: Scope)
    requires OrderFits(q) && q.setOpRhs.None? && forall i :: 0 <= i < |q.items| ==> Clear(q.items[i].expr, vis)
    ensures forall i :: 0 <= i < |q.orderBy| ==> Clear(q.orderBy[i].expr, vis)
  {
    forall i | 0 <= i < |q.orderBy| ensures Clear(q.orderBy[i].expr, vis) {
      assert OrderItemFits(q.orderBy[i], q);
    }
  }

  lemma ColumnClear(own: Scope, i: nat, c: Column, vis: Scope)
    requires own <= vis && NoRepeats(Aliases(vis)) && i < |own| && c in own[i].table.columns
    ensures Clear(ColExpr(own[i].alias, c), vis)
  {
    OnlyOne(vis, i);
    assert HasColumn(vis[i].table, c.name, c.colType);
  }

  lemma JoinClear(cond: Expr, own: Scope, i: nat, vis: Scope)
    requires i < |own| && JoinLinks(cond, own, i) && own <= vis && NoRepeats(Aliases(vis))
    ensures Clear(cond, vis)
  {
    var added, k, base :| added in own[i].table.columns && 0 <= k < i && base in own[k].table.columns
      && Joinable(added, own[i].table, base, own[k].table)
      && cond == Equals(ColExpr(own[i].alias, added), ColExpr(own[k].alias, base));
    ColumnClear(own, i, added, vis);
    ColumnClear(own, k, base, vis);
  }

  lemma JoinsClear(q: QuerySpec, own: Scope, vis: Scope)
    requires JoinsFit(q.joins, own) && own <= vis && NoRepeats(Aliases(vis))
    ensures forall i :: 0 <= i < |q.joins| && q.joins[i].condition.Some? ==> Clear(q.joins[i].condition.value, vis)
  {
    forall i | 0 <= i < |q.joins| && q.joins[i].condition.Some? ensures Clear(q.joins[i].condition.value, vis) {
      assert JoinFits(q.joins[i], own, i + 1);
      JoinClear(q.joins[i].condition.value, own, i + 1, vis);
    }
  }

  lemma {:induction false} JoinAliasAt(joins: seq<Join>, i: nat)
    requires i < |joins|
    ensures |JoinAliases(joins)| == |joins| && JoinAliases(joins)[i] == joins[i].source.alias
  {
    if |joins| > 1 {
      JoinAliasAt(joins[..|joins| - 1], if i < |joins| - 1 then i else 0);
    }
  }

  lemma AliasesOwn(q: QuerySpec, own: Scope, ts: seq<Table>, seed: Option<Table>)
    requires SourcesFit(q, own, ts, seed)
    ensures Aliases(own) == OwnAliases(q)
  {
    if q.joins != [] {
      JoinAliasAt(q.joins, 0);
    }
    forall i | 0 <= i < |own| ensures Aliases(own)[i] == OwnAliases(q)[i] {
      if i > 0 {
        JoinAliasAt(q.joins, i - 1);
        assert JoinSourceFits(q.joins[i - 1].source, own[i - 1 + 1], q.ctes, ts);
      }
    }
  }

  // ---- conditions and queries ----

  /** Distinct aliases throughout rule out capture in a condition that is well
      formed over a part of what is in sight ... */
  lemma {:induction false} NoCapture(e: Expr, part: Scope, vis: Scope, ts: seq<Table>)
    requires WfPred(e, part, ts) && part <= vis
    requires Once(Sources(e)) && Apart(Sources(e), Aliases(vis)) && NoRepeats(Aliases(vis))
    ensures Clear(e, vis)
    decreases e, 2
  {
    if WfFlat(e, part) {
      FlatClear(e, part, vis);
    } else {
      NoCaptureBelow(e, part, vis, ts);
    }
  }

  lemma {:induction false} NoCaptureBelow(e: Expr, part: Scope, vis: Scope, ts: seq<Table>)
    requires WithSubquery(e, part, ts) && part <= vis
    requires Once(Sources(e)) && Apart(Sources(e), Aliases(vis)) && NoRepeats(Aliases(vis))
    ensures Clear(e, vis)
    decreases e, 1
  {
    hide Once, Apart, NoRepeats, ClearQuery, WfQuery, QuerySources;
    match e.node
    case Unary(_, a) => NoCapture(a, part, vis, ts);
    case Binary(_, _, _) => NoCaptureBoth(e, part, vis, ts);
    case InSubquery(a, q, _) =>
      FlatClear(a, part, vis);
      NoCaptureNested(q, part, vis, ts);
    case Exists(q, _) => NoCaptureNested(q, part, vis, ts);
  }

  lemma {:induction false} NoCaptureBoth(e: Expr, part: Scope, vis: Scope, ts: seq<Table>)
    requires WithSubquery(e, part, ts) && part <= vis && e.node.Binary?
    requires Once(Sources(e)) && Apart(Sources(e), Aliases(vis)) && NoRepeats(Aliases(vis))
    ensures Clear(e, vis)
    decreases e, 0
  {
    hide Once, Apart, NoRepeats, ClearQuery, WfQuery, QuerySources;
    var l, r := e.node.lhs, e.node.rhs;
    OnceParts(Sources(l), Sources(r));
    ApartParts(Sources(l), Sources(r), Aliases(vis));
    if Logical(e.node.op) {
      NoCapture(l, part, vis, ts);
      NoCapture(r, part, vis, ts);
    } else {
      FlatClear(l, part, vis);
      NoCaptureNested(r.node.sub, part, vis, ts);
    }
  }

  lemma {:induction false} NoCaptureNested(q: QuerySpec, part: Scope, vis: Scope, ts: seq<Table>)
    requires WfQuery(q, part, ts) && part <= vis
    requires Once(QuerySources(q)) && Apart(QuerySources(q), Aliases(vis)) && NoRepeats(Aliases(vis))
    ensures ClearQuery(q, vis)
    decreases q, 1
  {
    var own :| QueryFits(q, own, part, ts, None);
    NoCaptureQuery(q, own, part, vis, ts, None);
  }

  /** ... and in a query. */
  lemma {:induction false} NoCaptureQuery(q: QuerySpec, own: Scope, part: Scope, outer: Scope, ts: seq<Table>,
          seed: Option<Table>)
    requires QueryFits(q, own, part, ts, seed) && part <= outer
    requires Once(QuerySources(q)) && Apart(QuerySources(q), Aliases(outer)) && NoRepeats(Aliases(outer))
    ensures ClearOver(q, own, outer)
    decreases q, 0
  {
    hide Once, Apart, NoRepeats, Clear, ClearQuery, WfQuery, WfPred, ItemsFit, SourcesFit, JoinsFit, OrderFits,
      TailFits, Aliases, OwnAliases, OwnSources, QuerySources, Sources, CteSources, NamedCte, SameShape, MeansSome;
    SplitSources(q, Aliases(outer));
    AliasesOwn(q, own, ts, seed);
    AliasesAppend(own, outer);
    OwnAliasesDistinct(q, Aliases(outer));
    ListClear(q, own, own + outer);
    JoinsClear(q, own, own + outer);
    NoCaptureCtes(q.ctes, ts);
    if q.setOpRhs.None? {
      OrderClear(q, own + outer);
    } else {
      Sightless(QuerySources(q.setOpRhs.value));
      NoCaptureNested(q.setOpRhs.value, [], [], ts);
    }
    if q.filter.Some? {
      NoCapture(q.filter.value, if WfPred(q.filter.value, own, ts) then own else own + part, own + outer, ts);
    }
  }

  /** The sources of a query, part by part. */
  lemma SplitSources(q: QuerySpec, outer: seq<string>)
    requires Once(QuerySources(q)) && Apart(QuerySources(q), outer)
    ensures Once(CteSources(q.ctes)) && Once(OwnSources(q)) && Apart(OwnSources(q), outer)
    ensures q.filter.Some? ==> Once(Sources(q.filter.value)) && Apart(Sources(q.filter.value), OwnAliases(q) + outer)
    ensures q.setOpRhs.Some? ==> Once(QuerySources(q.setOpRhs.value))
  {
    hide Once, Apart, OwnAliases, OwnSources, Sources, CteSources;
    var f := if q.filter.Some? then Sources(q.filter.value) else multiset{};
    var r := if q.setOpRhs.Some? then QuerySources(q.setOpRhs.value) else multiset{};
    var before := CteSources(q.ctes) + OwnSources(q);
    assert QuerySources(q) == before + f + r;
    OnceParts(before + f, r);
    OnceParts(before, f);
    OnceParts(CteSources(q.ctes), OwnSources(q));
    ApartParts(before + f, r, outer);
    ApartParts(before, f, outer);
    ApartParts(CteSources(q.ctes), OwnSources(q), outer);
    forall s, t | s in OwnSources(q) && t in f ensures s.alias != t.alias {
      assert s in before;
    }
    InnerApart(q, f, outer);
  }

  lemma Sightless(m: multiset<TableSource>)
    ensures Apart(m, Aliases([])) && NoRepeats(Aliases([]))
  {
  }

  lemma InnerApart(q: QuerySpec, f: multiset<TableSource>, outer: seq<string>)
    requires Apart(f, outer) && forall s, t :: s in OwnSources(q) && t in f ==> s.alias != t.alias
    ensures Apart(f, OwnAliases(q) + outer)
  {
    forall t | t in f ensures t.alias !in OwnAliases(q) + outer {
      if t.alias in OwnAliases(q) {
        OwnAlias(q, t.alias);
      }
    }
  }

  lemma {:induction false} NoCaptureCtes(ctes: seq<Cte>, ts: seq<Table>)
    requires Once(CteSources(ctes)) && forall i :: 0 <= i < |ctes| ==> WfQuery(ctes[i].query, [], ts)
    ensures forall i :: 0 <= i < |ctes| ==> ClearQuery(ctes[i].query, [])
    decreases ctes
  {
    hide Once, Apart, NoRepeats, Aliases, QuerySources, ClearQuery, WfQuery;
    if ctes != [] {
      OnceParts(QuerySources(ctes[0].query), CteSources(ctes[1..]));
      Sightless(QuerySources(ctes[0].query));
      NoCaptureNested(ctes[0].query, [], [], ts);
      NoCaptureCtes(ctes[1..], ts);
      forall i | 0 < i < |ctes| ensures ClearQuery(ctes[i].query, []) {
        assert ctes[i] == ctes[1..][i - 1];
      }
    }
  }
}
