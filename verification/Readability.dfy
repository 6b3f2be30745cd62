/** What the generator builds has the shapes that read back. */
module Readability {
  import opened Metadata
  import opened Numerals
  import opened QueryIr
  import opened Scopes
  import opened Keywords
  import opened Lexing
  import opened Rendering
  import opened Parsing
  import opened Reading
  import opened QueryParts

  predicate GoodTable(t: Table) {
    GoodName(t.name) && forall i :: 0 <= i < |t.columns| ==> GoodName(t.columns[i].name)
  }

  predicate GoodTables(ts: seq<Table>) { forall t :: t in ts ==> GoodTable(t) }

  predicate GoodScope(vis: Scope) {
    forall i :: 0 <= i < |vis| ==> GoodName(vis[i].alias) && GoodTable(vis[i].table)
  }

  predicate GoodSources(m: multiset<TableSource>) { forall s :: s in m ==> GoodSource(s) }

  /** Generated names are words and no keyword starts with u, w or c. */
  lemma NumberedGood(letter: char, n: nat)
    requires letter in {'u', 'w', 'c'}
    ensures GoodName(Numbered(letter, n))
  {
    var w := Numbered(letter, n);
    forall i | 0 <= i < |w| ensures IsWordChar(w[i]) {
      if i > 0 {
        assert w[i] == Digits(n)[i - 1] && Digits(n)[i - 1] in Digits(n);
      }
    }
    assert w[0] == letter;
  }

  lemma RefGood(vis: Scope, ref: ColumnRef, ty: ColumnType)
    requires GoodScope(vis) && Resolves(vis, ref, ty)
    ensures GoodRef(ref)
  {
  }

  lemma RefsGood(vis: Scope, refs: seq<ColumnRef>)
    requires GoodScope(vis) && forall r :: r in refs ==> InScope(vis, r)
    ensures GoodRefs(refs)
  {
    forall i | 0 <= i < |refs| ensures GoodRef(refs[i]) {
      assert InScope(vis, refs[i]);
      var ty :| Resolves(vis, refs[i], ty);
      RefGood(vis, refs[i], ty);
    }
  }

  lemma {:induction false} FlatShaped(e: Expr, vis: Scope)
    requires WfFlat(e, vis) && GoodScope(vis)
    ensures Shaped(e, true)
  {
    match e.node
    case Ref(r) => RefGood(vis, r, e.ty);
    case Lit(_) =>
    case Unary(_, a) => FlatShaped(a, vis);
    case Binary(_, l, r) =>
      FlatShaped(l, vis);
      FlatShaped(r, vis);
    case Between(a, lo, hi) =>
      FlatShaped(a, vis);
      FlatShaped(lo, vis);
      FlatShaped(hi, vis);
    case InList(a, items, _) =>
      FlatShaped(a, vis);
      forall i | 0 <= i < |items| ensures Shaped(items[i], true) {
        FlatShaped(items[i], vis);
      }
    case Call(_, args) =>
      forall i | 0 <= i < |args| ensures Shaped(args[i], true) {
        FlatShaped(args[i], vis);
      }
    case Case(whens, otherwise) =>
      FlatShaped(otherwise.value, vis);
      forall i | 0 <= i < |whens| ensures Shaped(whens[i].cond, true) && Shaped(whens[i].result, true) {
        FlatShaped(whens[i].cond, vis);
        FlatShaped(whens[i].result, vis);
      }
  }

  lemma AggShaped(e: Expr, own: Scope)
    requires WfAgg(e, own) && GoodScope(own)
    ensures Shaped(e, true)
  {
    if e.node.aggArg.Some? {
      FlatShaped(e.node.aggArg.value, own);
    }
  }

  lemma WindowShaped(e: Expr, own: Scope)
    requires WfWindow(e, own) && GoodScope(own)
    ensures Shaped(e, true)
  {
    RefsGood(own, e.node.partitionBy);
    RefsGood(own, e.node.over);
    if e.node.winArg.Some? {
      FlatShaped(e.node.winArg.value, own);
    }
  }

  lemma ItemShaped(e: Expr, own: Scope, groupBy: seq<ColumnRef>)
    requires GoodScope(own) && (PlainItem(e, own) || AggItem(e, own, groupBy))
    ensures Shaped(e, true)
  {
    if WfFlat(e, own) {
      FlatShaped(e, own);
    } else if WfWindow(e, own) {
      WindowShaped(e, own);
    } else {
      AggShaped(e, own);
    }
  }

  lemma ListShaped(q: QuerySpec, own: Scope)
    requires GoodScope(own) && ItemsFit(q, own)
    ensures GoodRefs(q.groupBy) && (q.having.Some? ==> Shaped(q.having.value, true))
    ensures forall i :: 0 <= i < |q.items| ==> Shaped(q.items[i].expr, true) && GoodName(q.items[i].colAlias)
  {
    forall i | 0 <= i < |q.items| ensures Shaped(q.items[i].expr, true) && GoodName(q.items[i].colAlias) {
      NumberedGood('c', i);
      ItemShaped(q.items[i].expr, own, q.groupBy);
    }
    RefsGood(own, q.groupBy);
    if q.having.Some? {
      AggShaped(q.having.value.node.lhs, own);
      FlatShaped(q.having.value.node.rhs, own);
    }
  }

  lemma OrderShaped(q: QuerySpec)
    requires OrderFits(q)
    requires forall i :: 0 <= i < |q.items| ==> Shaped(q.items[i].expr, true) && GoodName(q.items[i].colAlias)
    ensures forall i :: 0 <= i < |q.orderBy| ==> Shaped(q.orderBy[i].expr, true)
  {
    forall i | 0 <= i < |q.orderBy| ensures Shaped(q.orderBy[i].expr, true) {
      assert OrderItemFits(q.orderBy[i], q);
    }
  }

  lemma {:induction false} JoinSourceIn(joins: seq<Join>, i: nat)
    requires i < |joins|
    ensures joins[i].source in JoinSources(joins)
  {
    if i < |joins| - 1 {
      JoinSourceIn(joins[..|joins| - 1], i);
    }
  }

  lemma CteTableGood(c: Cte)
    requires NamedCte(c) && Labelled(c.query.items)
    ensures GoodName(c.name) && GoodTable(CteTable(c))
  {
    var n: nat :| n > 0 && c.name == Numbered('w', n);
    NumberedGood('w', n);
    forall i | 0 <= i < |c.query.items| ensures GoodName(CteTable(c).columns[i].name) {
      NumberedGood('c', i);
    }
  }

  lemma WfLabelled(q: QuerySpec, outer: Scope, ts: seq<Table>)
    requires WfQuery(q, outer, ts)
    ensures Labelled(q.items)
  {
  }

  lemma TableGood(t: Table, ctes: seq<Cte>, ts: seq<Table>)
    requires TableFits(t, ctes, ts) && GoodTables(ts)
    requires forall i :: 0 <= i < |ctes| ==> NamedCte(ctes[i]) && WfQuery(ctes[i].query, [], ts)
    ensures GoodTable(t)
  {
    hide GoodTable, WfQuery, CteTable, NamedCte;
    if t !in ts {
      var i :| 0 <= i < |ctes| && CteTable(ctes[i]) == t;
      WfLabelled(ctes[i].query, [], ts);
      CteTableGood(ctes[i]);
    }
  }

  /** The scope of a query has good names. */
  lemma OwnGood(q: QuerySpec, own: Scope, outer: Scope, ts: seq<Table>, seed: Option<Table>)
    requires QueryFits(q, own, outer, ts, seed) && GoodTables(ts) && (seed.Some? ==> GoodTable(seed.value))
    requires GoodSources(OwnSources(q))
    ensures GoodScope(own)
  {
    hide GoodTable, GoodTables, WfQuery, WfPred, TableFits, NamedCte, JoinsFit, ItemsFit, OrderFits, TailFits,
      SameShape;
    forall i | 0 <= i < |own| ensures GoodName(own[i].alias) && GoodTable(own[i].table) {
      if i == 0 {
        assert q.from in OwnSources(q);
      } else {
        JoinSourceIn(q.joins, i - 1);
        assert q.joins[i - 1].source in OwnSources(q);
        assert JoinSourceFits(q.joins[i - 1].source, own[i - 1 + 1], q.ctes, ts);
      }
      if TableFits(own[i].table, q.ctes, ts) {
        TableGood(own[i].table, q.ctes, ts);
      }
    }
  }

  lemma JoinsShaped(q: QuerySpec, own: Scope)
    requires JoinsFit(q.joins, own) && GoodScope(own) && GoodSources(OwnSources(q))
    ensures GoodSource(q.from)
    ensures forall i :: 0 <= i < |q.joins| ==>
      GoodSource(q.joins[i].source) && (q.joins[i].kind == Cross <==> q.joins[i].condition.None?)
      && (q.joins[i].condition.Some? ==> Shaped(q.joins[i].condition.value, true))
  {
    assert q.from in OwnSources(q);
    forall i | 0 <= i < |q.joins|
      ensures GoodSource(q.joins[i].source) && (q.joins[i].kind == Cross <==> q.joins[i].condition.None?)
      ensures q.joins[i].condition.Some? ==> Shaped(q.joins[i].condition.value, true)
    {
      JoinSourceIn(q.joins, i);
      assert q.joins[i].source in OwnSources(q);
      assert JoinFits(q.joins[i], own, i + 1);
    }
  }

  lemma GoodParts(a: multiset<TableSource>, b: multiset<TableSource>)
    requires GoodSources(a + b)
    ensures GoodSources(a) && GoodSources(b)
  {
    forall s | s in a || s in b ensures GoodSource(s) {
      assert s in a + b;
    }
  }

  lemma GoodJoin(a: Scope, b: Scope)
    requires GoodScope(a) && GoodScope(b)
    ensures GoodScope(a + b)
  {
  }

  /** A well-formed condition over good names is shaped ... */
  lemma {:induction false} PredShaped(e: Expr, vis: Scope, ts: seq<Table>)
    requires WfPred(e, vis, ts) && GoodScope(vis) && GoodTables(ts) && GoodSources(Sources(e))
    ensures Shaped(e, true)
    decreases e, 2
  {
    if WfFlat(e, vis) {
      FlatShaped(e, vis);
    } else {
      SubqueryShaped(e, vis, ts);
    }
  }

  lemma {:induction false} SubqueryShaped(e: Expr, vis: Scope, ts: seq<Table>)
    requires WithSubquery(e, vis, ts) && GoodScope(vis) && GoodTables(ts) && GoodSources(Sources(e))
    ensures Shaped(e, true)
    decreases e, 1
  {
    hide GoodScope, GoodTables, GoodSources, WfQuery, ShapedQuery, QuerySources;
    match e.node
    case Unary(_, a) => PredShaped(a, vis, ts);
    case Binary(op, _, _) =>
      if Logical(op) {
        LogicalShaped(e, vis, ts);
      } else {
        ComparisonShaped(e, vis, ts);
      }
    case InSubquery(a, q, _) =>
      FlatShaped(a, vis);
      WfShaped(q, vis, ts);
    case Exists(q, _) => WfShaped(q, vis, ts);
  }

  lemma {:induction false} LogicalShaped(e: Expr, vis: Scope, ts: seq<Table>)
    requires e.node.Binary? && Logical(e.node.op) && WithSubquery(e, vis, ts)
    requires GoodScope(vis) && GoodTables(ts) && GoodSources(Sources(e))
    ensures Shaped(e, true)
    decreases e, 0
  {
    hide GoodScope, GoodTables, GoodSources, WfQuery, ShapedQuery, QuerySources;
    GoodParts(Sources(e.node.lhs), Sources(e.node.rhs));
    PredShaped(e.node.lhs, vis, ts);
    PredShaped(e.node.rhs, vis, ts);
  }

  lemma {:induction false} ComparisonShaped(e: Expr, vis: Scope, ts: seq<Table>)
    requires e.node.Binary? && !Logical(e.node.op) && WithSubquery(e, vis, ts)
    requires GoodScope(vis) && GoodTables(ts) && GoodSources(Sources(e))
    ensures Shaped(e, true)
    decreases e, 0
  {
    hide GoodScope, GoodTables, GoodSources, WfQuery, ShapedQuery, QuerySources, BinaryTyped;
    GoodParts(Sources(e.node.lhs), Sources(e.node.rhs));
    FlatShaped(e.node.lhs, vis);
    ScalarShaped(e.node.rhs, vis, ts);
  }

  lemma {:induction false} ScalarShaped(e: Expr, vis: Scope, ts: seq<Table>)
    requires e.node.ScalarSubquery? && Plain(e.node.sub) && WfQuery(e.node.sub, vis, ts)
    requires GoodScope(vis) && GoodTables(ts) && GoodSources(Sources(e))
    ensures Shaped(e, true)
    decreases e, 0
  {
    hide GoodScope, GoodTables, GoodSources, WfQuery, ShapedQuery, QuerySources;
    WfShaped(e.node.sub, vis, ts);
  }

  lemma {:induction false} WfShaped(q: QuerySpec, outer: Scope, ts: seq<Table>)
    requires WfQuery(q, outer, ts) && GoodScope(outer) && GoodTables(ts) && GoodSources(QuerySources(q))
    ensures ShapedQuery(q, true)
    decreases q, 1
  {
    var own :| QueryFits(q, own, outer, ts, None);
    QueryShaped(q, own, outer, ts, None);
  }

  /** ... and so is a well-formed query. */
  lemma {:induction false} QueryShaped(q: QuerySpec, own: Scope, outer: Scope, ts: seq<Table>, seed: Option<Table>)
    requires QueryFits(q, own, outer, ts, seed) && GoodScope(outer) && GoodTables(ts) &&
      (seed.Some? ==> GoodTable(seed.value))
    requires GoodSources(QuerySources(q))
    ensures ShapedQuery(q, true)
    decreases q, 0
  {
    var f := if q.filter.Some? then Sources(q.filter.value) else multiset{};
    var r := if q.setOpRhs.Some? then QuerySources(q.setOpRhs.value) else multiset{};
    GoodParts(CteSources(q.ctes) + OwnSources(q) + f, r);
    GoodParts(CteSources(q.ctes) + OwnSources(q), f);
    GoodParts(CteSources(q.ctes), OwnSources(q));
    OwnGood(q, own, outer, ts, seed);
    JoinsShaped(q, own);
    ListShaped(q, own);
    OrderShaped(q);
    CtesShaped(q.ctes, ts);
    if q.filter.Some? {
      GoodJoin(own, outer);
      PredShaped(q.filter.value, if WfPred(q.filter.value, own, ts) then own else own + outer, ts);
    }
    if q.setOpRhs.Some? {
      WfShaped(q.setOpRhs.value, [], ts);
    }
  }

  lemma {:induction false} CtesShaped(ctes: seq<Cte>, ts: seq<Table>)
    requires GoodTables(ts) && GoodSources(CteSources(ctes))
    requires forall i :: 0 <= i < |ctes| ==> NamedCte(ctes[i]) && WfQuery(ctes[i].query, [], ts)
    ensures forall i :: 0 <= i < |ctes| ==> GoodName(ctes[i].name) && ShapedQuery(ctes[i].query, true)
    decreases ctes
  {
    hide GoodTables, GoodSources, QuerySources, NamedCte, WfQuery, CteTable, ShapedQuery, Labelled;
    if ctes != [] {
      GoodParts(QuerySources(ctes[0].query), CteSources(ctes[1..]));
      WfLabelled(ctes[0].query, [], ts);
      CteTableGood(ctes[0]);
      WfShaped(ctes[0].query, [], ts);
      CtesShaped(ctes[1..], ts);
      forall i | 0 <= i < |ctes| ensures GoodName(ctes[i].name) && ShapedQuery(ctes[i].query, true) {
        assert i > 0 ==> ctes[i] == ctes[1..][i - 1];
      }
    }
  }

  /** Sources under generated aliases have good names if their tables do. */
  lemma OwnedGood(m: multiset<TableSource>, lo: nat, hi: nat, names: set<string>)
    requires Owned(m, lo, hi, names) && forall name :: name in names ==> GoodName(name)
    ensures GoodSources(m)
  {
    forall s | s in m ensures GoodSource(s) {
      var n :| lo <= n < hi && s.alias == Numbered('u', n);
      NumberedGood('u', n);
    }
  }

  /** Over tables with good names, every query the generator returns is shaped,
      floating literals aside. */
  lemma GeneratedShaped(q: QuerySpec, own: Scope, ts: seq<Table>, target: Option<Table>, lo: nat, hi: nat)
    requires QueryFits(q, own, [], ts, target) && Owned(QuerySources(q), lo, hi, Readable(ts, q.ctes, target))
    requires GoodTables(ts) && (target.Some? ==> GoodTable(target.value))
    ensures ShapedQuery(q, true)
  {
    hide WfQuery, WfPred, ShapedQuery, QuerySources, Owned, JoinsFit, ItemsFit, OrderFits, TailFits, SourcesFit,
      SameShape;
    forall c | c in q.ctes ensures GoodName(c.name) {
      var i :| 0 <= i < |q.ctes| && q.ctes[i] == c;
      var n: nat :| c.name == Numbered('w', n);
      NumberedGood('w', n);
    }
    OwnedGood(QuerySources(q), lo, hi, Readable(ts, q.ctes, target));
    QueryShaped(q, own, [], ts, target);
  }

  /** And so is every predicate it returns. */
  lemma PredicateShaped(e: Expr, qualifier: string, target: Table, ts: seq<Table>, lo: nat, hi: nat)
    requires WfPred(e, [Entry(qualifier, target)], ts) && Owned(Sources(e), lo, hi, Names(ts))
    requires GoodTables(ts) && GoodTable(target) && GoodName(qualifier)
    ensures Shaped(e, true)
  {
    OwnedGood(Sources(e), lo, hi, Names(ts));
    PredShaped(e, [Entry(qualifier, target)], ts);
  }

  // ---- without floating literals ----

  /** No literal of e is a floating one, at any depth. */
  predicate FloatFree(e: Expr)
    decreases e
  {
    match e.node
    case Ref(_) => true
    case Lit(v) => !v.RealValue?
    case Unary(_, a) => FloatFree(a)
    case Binary(_, l, r) => FloatFree(l) && FloatFree(r)
    case Between(a, lo, hi) => FloatFree(a) && FloatFree(lo) && FloatFree(hi)
    case InList(a, items, _) => FloatFree(a) && forall i :: 0 <= i < |items| ==> FloatFree(items[i])
    case InSubquery(a, q, _) => FloatFree(a) && FloatFreeQuery(q)
    case Exists(q, _) => FloatFreeQuery(q)
    case ScalarSubquery(q) => FloatFreeQuery(q)
    case Call(_, args) => forall i :: 0 <= i < |args| ==> FloatFree(args[i])
    case Case(whens, otherwise) =>
      (forall i :: 0 <= i < |whens| ==> FloatFree(whens[i].cond) && FloatFree(whens[i].result))
      && (otherwise.Some? ==> FloatFree(otherwise.value))
    case Agg(_, arg, _) => arg.Some? ==> FloatFree(arg.value)
    case Window(_, arg, _, _) => arg.Some? ==> FloatFree(arg.value)
  }

  predicate FloatFreeQuery(q: QuerySpec)
    decreases q
  {
    && (forall i :: 0 <= i < |q.items| ==> FloatFree(q.items[i].expr))
    && (forall i :: 0 <= i < |q.joins| && q.joins[i].condition.Some? ==> FloatFree(q.joins[i].condition.value))
    && (forall i :: 0 <= i < |q.orderBy| ==> FloatFree(q.orderBy[i].expr))
    && (forall i :: 0 <= i < |q.ctes| ==> FloatFreeQuery(q.ctes[i].query))
    && (q.filter.Some? ==> FloatFree(q.filter.value)) && (q.having.Some? ==> FloatFree(q.having.value))
    && (q.setOpRhs.Some? ==> FloatFreeQuery(q.setOpRhs.value))
  }

  lemma {:induction false} FloatFreeShaped(e: Expr)
    requires Shaped(e, true) && FloatFree(e)
    ensures Shaped(e, false)
    decreases e
  {
    hide ShapedQuery, FloatFreeQuery;
    match e.node
    case Ref(_) =>
    case Lit(_) =>
    case Unary(_, a) => FloatFreeShaped(a);
    case Binary(_, l, r) =>
      FloatFreeShaped(l);
      FloatFreeShaped(r);
    case Between(a, lo, hi) =>
      FloatFreeShaped(a);
      FloatFreeShaped(lo);
      FloatFreeShaped(hi);
    case InList(a, items, _) =>
      FloatFreeShaped(a);
      forall i | 0 <= i < |items| ensures Shaped(items[i], false) {
        FloatFreeShaped(items[i]);
      }
    case InSubquery(a, q, _) =>
      FloatFreeShaped(a);
      FloatFreeQueryShaped(q);
    case Exists(q, _) => FloatFreeQueryShaped(q);
    case ScalarSubquery(q) => FloatFreeQueryShaped(q);
    case Call(_, args) =>
      forall i | 0 <= i < |args| ensures Shaped(args[i], false) {
        FloatFreeShaped(args[i]);
      }
    case Case(whens, otherwise) =>
      if otherwise.Some? {
        FloatFreeShaped(otherwise.value);
      }
      forall i | 0 <= i < |whens| ensures Shaped(whens[i].cond, false) && Shaped(whens[i].result, false) {
        FloatFreeShaped(whens[i].cond);
        FloatFreeShaped(whens[i].result);
      }
    case Agg(_, arg, _) =>
      if arg.Some? {
        FloatFreeShaped(arg.value);
      }
    case Window(_, arg, _, _) =>
      if arg.Some? {
        FloatFreeShaped(arg.value);
      }
  }

  lemma {:induction false} FloatFreeQueryShaped(q: QuerySpec)
    requires ShapedQuery(q, true) && FloatFreeQuery(q)
    ensures ShapedQuery(q, false)
    decreases q
  {
    hide Shaped, FloatFree;
    forall i | 0 <= i < |q.items| ensures Shaped(q.items[i].expr, false) {
      FloatFreeShaped(q.items[i].expr);
    }
    forall i | 0 <= i < |q.joins| && q.joins[i].condition.Some? ensures Shaped(q.joins[i].condition.value, false) {
      FloatFreeShaped(q.joins[i].condition.value);
    }
    forall i | 0 <= i < |q.orderBy| ensures Shaped(q.orderBy[i].expr, false) {
      FloatFreeShaped(q.orderBy[i].expr);
    }
    forall i | 0 <= i < |q.ctes| ensures ShapedQuery(q.ctes[i].query, false) {
      FloatFreeQueryShaped(q.ctes[i].query);
    }
    if q.filter.Some? {
      FloatFreeShaped(q.filter.value);
    }
    if q.having.Some? {
      FloatFreeShaped(q.having.value);
    }
    if q.setOpRhs.Some? {
      FloatFreeQueryShaped(q.setOpRhs.value);
    }
  }

  // ---- the round trip of what the generator returns ----

  /** Parsing the text of a generated query without floating literals gives the
      query back. */
  lemma GeneratedRoundTrip(q: QuerySpec, own: Scope, ts: seq<Table>, target: Option<Table>, lo: nat, hi: nat,
          d: Dialect)
    requires QueryFits(q, own, [], ts, target) && Owned(QuerySources(q), lo, hi, Readable(ts, q.ctes, target))
    requires GoodTables(ts) && (target.Some? ==> GoodTable(target.value)) && FloatFreeQuery(q)
    ensures ParseQuery(Lex(RenderQuery(q, d))) == Got(StripQuery(q), Pieces.Nil)
  {
    hide QueryFits, Owned, ShapedQuery, FloatFreeQuery, StripQuery, Readable;
    GeneratedShaped(q, own, ts, target, lo, hi);
    FloatFreeQueryShaped(q);
    QueryRoundTrip(q, d);
  }

  /** And so with a generated predicate. */
  lemma PredicateRoundTrip(e: Expr, qualifier: string, target: Table, ts: seq<Table>, lo: nat, hi: nat, d: Dialect)
    requires WfPred(e, [Entry(qualifier, target)], ts) && Owned(Sources(e), lo, hi, Names(ts))
    requires GoodTables(ts) && GoodTable(target) && GoodName(qualifier) && FloatFree(e)
    ensures ParseExpr(Lex(RenderExpr(e, d))) == Got(Strip(e), Pieces.Nil)
  {
    hide WfPred, Owned, Shaped, FloatFree, Strip, Sources;
    PredicateShaped(e, qualifier, target, ts, lo, hi);
    FloatFreeShaped(e);
    ExprRoundTrip(e, d);
  }
}
