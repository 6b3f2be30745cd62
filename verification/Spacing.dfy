/** Rendered text is spaced out: no word, number or literal runs into the next. */
module Spacing {
  import opened QueryIr
  import opened Metadata
  import opened Keywords
  import opened Lexing
  import opened Rendering

  /** What Spaced says of a piece and the text after it. */
  lemma SpacedParts(x: Piece)
    ensures Spaced(Pieces.Nil, x)
    ensures forall p, r {:trigger Spaced(Cons(p, r), x)} ::
              Spaced(Cons(p, r), x) <==>
              p != x && !p.Other? && (p.Name? ==> GoodName(p.name)) && (NeedsGap(p) ==> GapNext(r)) && Spaced(r, x)
  {
  }

  lemma {:induction false} SpacedRefs(refs: seq<ColumnRef>, k: Pieces, x: Piece)
    requires IsConcat(x) && GoodRefs(refs) && Spaced(k, x) && (refs != [] ==> GapNext(k))
    ensures Spaced(RefList(refs, k), x)
  {
    SpacedParts(x);
    hide Spaced, GoodName;
    if |refs| > 1 {
      assert GoodRef(refs[0]);
      assert GoodRefs(refs[1..]);
      SpacedRefs(refs[1..], k, x);
    } else if |refs| == 1 {
      assert GoodRef(refs[0]);
    }
  }

  lemma SpacedOver(partitionBy: seq<ColumnRef>, over: seq<ColumnRef>, k: Pieces, x: Piece)
    requires IsConcat(x) && GoodRefs(partitionBy) && GoodRefs(over) && Spaced(k, x) && GapNext(k)
    ensures Spaced(OverText(partitionBy, over, k), x)
  {
    SpacedParts(x);
    hide Spaced, GoodName;
    SpacedRefs(over, k, x);
    SpacedRefs(partitionBy, if over == [] then k else Cons(Sp, OrderRefs(over, k)), x);
  }

  lemma {:induction false} SpacedExpr(e: Expr, d: Dialect, k: Pieces)
    requires Shaped(e, false) && Spaced(k, Foreign(d)) && GapNext(k)
    ensures Spaced(E(e, d, k), Foreign(d))
    decreases e, 3, 0
  {
    SpacedParts(Foreign(d));
    hide Spaced, GoodName;
    match e.node
    case Ref(_) =>
    case Lit(_) =>
    case Unary(_, _) => SpacedUnary(e, d, k);
    case Binary(_, _, _) => SpacedBinary(e, d, k);
    case Between(_, _, _) => SpacedBetween(e, d, k);
    case InList(_, _, _) => SpacedIn(e, d, k);
    case InSubquery(_, _, _) => SpacedSubquery(e, d, k);
    case Exists(_, _) => SpacedSubquery(e, d, k);
    case ScalarSubquery(_) => SpacedSubquery(e, d, k);
    case Call(_, _) => SpacedArgs(e, 0, d, Close(k));
    case Case(_, _) => SpacedCase(e, d, k);
    case Agg(_, _, _) => SpacedAgg(e, d, k);
    case Window(_, _, _, _) => SpacedWindow(e, d, k);
  }

  lemma {:induction false} SpacedAgg(e: Expr, d: Dialect, k: Pieces)
    requires Shaped(e, false) && Spaced(k, Foreign(d)) && GapNext(k) && e.node.Agg?
    ensures Spaced(E(e, d, k), Foreign(d))
    decreases e, 1, 0
  {
    SpacedParts(Foreign(d));
    hide Spaced, GoodName;
    if e.node.aggArg.Some? {
      SpacedExpr(e.node.aggArg.value, d, Close(k));
    }
  }

  lemma {:induction false} SpacedWindow(e: Expr, d: Dialect, k: Pieces)
    requires Shaped(e, false) && Spaced(k, Foreign(d)) && GapNext(k) && e.node.Window?
    ensures Spaced(E(e, d, k), Foreign(d))
    decreases e, 1, 0
  {
    SpacedParts(Foreign(d));
    hide Spaced, GoodName, OverText;
    var over := OverText(e.node.partitionBy, e.node.over, Close(k));
    SpacedOver(e.node.partitionBy, e.node.over, Close(k), Foreign(d));
    if e.node.winArg.Some? {
      SpacedExpr(e.node.winArg.value, d, Close(SpKw(OVER, Cons(Sp, Open(over)))));
    }
  }

  lemma {:induction false} SpacedBinary(e: Expr, d: Dialect, k: Pieces)
    requires Shaped(e, false) && Spaced(k, Foreign(d)) && GapNext(k) && e.node.Binary?
    ensures Spaced(E(e, d, k), Foreign(d))
    decreases e, 1, 0
  {
    SpacedParts(Foreign(d));
    hide Spaced, GoodName;
    var l, r := e.node.lhs, e.node.rhs;
    SpacedExpr(r, d, Close(k));
    if e.node.op == Concat && d.concatCall {
      SpacedExpr(l, d, CommaSp(E(r, d, Close(k))));
    } else {
      SpacedExpr(l, d, SpOp(e.node.op, E(r, d, Close(k))));
    }
  }

  lemma {:induction false} SpacedIn(e: Expr, d: Dialect, k: Pieces)
    requires Shaped(e, false) && Spaced(k, Foreign(d)) && GapNext(k) && e.node.InList?
    ensures Spaced(E(e, d, k), Foreign(d))
    decreases e, 2, 0
  {
    SpacedParts(Foreign(d));
    hide Spaced, GoodName;
    SpacedArgs(e, 0, d, Close(Close(k)));
    SpacedExpr(e.node.arg, d, Negation(e.node.negated, SpKw(IN, Cons(Sp, Open(Args(e, 0, d, Close(Close(k))))))));
  }

  lemma {:induction false} SpacedCase(e: Expr, d: Dialect, k: Pieces)
    requires Shaped(e, false) && Spaced(k, Foreign(d)) && GapNext(k) && e.node.Case?
    ensures Spaced(E(e, d, k), Foreign(d))
    decreases e, 2, 0
  {
    SpacedParts(Foreign(d));
    hide Spaced, GoodName;
    var otherwise, end := e.node.otherwise, SpKw(END, k);
    if otherwise.Some? {
      SpacedExpr(otherwise.value, d, end);
    }
    SpacedWhens(e, 0, d, if otherwise.Some? then SpKw(ELSE, Cons(Sp, E(otherwise.value, d, end))) else end);
  }

  lemma {:induction false} SpacedBetween(e: Expr, d: Dialect, k: Pieces)
    requires Shaped(e, false) && Spaced(k, Foreign(d)) && GapNext(k) && e.node.Between?
    ensures Spaced(E(e, d, k), Foreign(d))
    decreases e, 1, 0
  {
    SpacedParts(Foreign(d));
    hide Spaced, GoodName;
    var high := E(e.node.hi, d, Close(k));
    SpacedExpr(e.node.hi, d, Close(k));
    SpacedExpr(e.node.lo, d, SpKw(AND, Cons(Sp, high)));
    SpacedExpr(e.node.arg, d, SpKw(BETWEEN, Cons(Sp, E(e.node.lo, d, SpKw(AND, Cons(Sp, high))))));
  }

  lemma {:induction false} SpacedUnary(e: Expr, d: Dialect, k: Pieces)
    requires Shaped(e, false) && Spaced(k, Foreign(d)) && GapNext(k) && e.node.Unary?
    ensures Spaced(E(e, d, k), Foreign(d))
    decreases e, 1, 0
  {
    SpacedParts(Foreign(d));
    hide Spaced, GoodName;
    SpacedExpr(e.node.arg, d, Close(k));
    SpacedExpr(e.node.arg, d, SpKw(IS, SpKw(NULL, Close(k))));
    SpacedExpr(e.node.arg, d, SpKw(IS, SpKw(NOT, SpKw(NULL, Close(k)))));
  }

  lemma {:induction false} SpacedSubquery(e: Expr, d: Dialect, k: Pieces)
    requires Shaped(e, false) && Spaced(k, Foreign(d)) && GapNext(k) &&
      (e.node.InSubquery? || e.node.Exists? || e.node.ScalarSubquery?)
    ensures Spaced(E(e, d, k), Foreign(d))
    decreases e, 1, 0
  {
    SpacedParts(Foreign(d));
    hide Spaced, GoodName;
    var q := e.node.sub;
    SpacedQuery(q, d, Close(k));
    SpacedQuery(q, d, Close(Close(k)));
    if e.node.InSubquery? {
      SpacedExpr(e.node.arg, d, Negation(e.node.negated, SpKw(IN, Cons(Sp, Open(Q(q, d, Close(Close(k))))))));
    }
  }

  lemma {:induction false} SpacedArgs(e: Expr, i: nat, d: Dialect, k: Pieces)
    requires i <= |ArgsOf(e)| && Spaced(k, Foreign(d)) && GapNext(k)
    requires forall j :: 0 <= j < |ArgsOf(e)| ==> Shaped(ArgsOf(e)[j], false)
    ensures Spaced(Args(e, i, d, k), Foreign(d))
    decreases e, 1, |ArgsOf(e)| - i
  {
    SpacedParts(Foreign(d));
    hide Spaced, GoodName;
    if i < |ArgsOf(e)| {
      SpacedArgs(e, i + 1, d, k);
      SpacedExpr(ArgsOf(e)[i], d, if i + 1 == |ArgsOf(e)| then k else CommaSp(Args(e, i + 1, d, k)));
    }
  }

  lemma {:induction false} SpacedWhens(e: Expr, i: nat, d: Dialect, k: Pieces)
    requires e.node.Case? && i <= |e.node.whens| && Shaped(e, false) && Spaced(k, Foreign(d)) && GapNext(k)
    ensures Spaced(Whens(e, i, d, k), Foreign(d)) && GapNext(Whens(e, i, d, k))
    decreases e, 1, |e.node.whens| - i
  {
    SpacedParts(Foreign(d));
    hide Spaced, GoodName;
    if i < |e.node.whens| {
      var w := e.node.whens[i];
      SpacedWhens(e, i + 1, d, k);
      SpacedExpr(w.result, d, Whens(e, i + 1, d, k));
      SpacedExpr(w.cond, d, SpKw(THEN, Cons(Sp, E(w.result, d, Whens(e, i + 1, d, k)))));
    }
  }

  lemma {:induction false} SpacedItems(q: QuerySpec, i: nat, d: Dialect, k: Pieces)
    requires i <= |q.items| && ShapedQuery(q, false) && Spaced(k, Foreign(d)) && GapNext(k)
    ensures Spaced(Items(q, i, d, k), Foreign(d))
    decreases q, 1, |q.items| - i
  {
    SpacedParts(Foreign(d));
    hide Spaced, GoodName;
    if i < |q.items| {
      SpacedItems(q, i + 1, d, k);
      var r := if i + 1 == |q.items| then k else CommaSp(Items(q, i + 1, d, k));
      SpacedExpr(q.items[i].expr, d, SpKw(AS, SpName(q.items[i].colAlias, r)));
    }
  }

  lemma {:induction false} SpacedJoins(q: QuerySpec, i: nat, d: Dialect, k: Pieces)
    requires i <= |q.joins| && ShapedQuery(q, false) && Spaced(k, Foreign(d)) && GapNext(k)
    ensures Spaced(Joins(q, i, d, k), Foreign(d)) && GapNext(Joins(q, i, d, k))
    decreases q, 1, |q.joins| - i
  {
    SpacedParts(Foreign(d));
    hide Spaced, GoodName;
    if i < |q.joins| {
      var j := q.joins[i];
      SpacedJoins(q, i + 1, d, k);
      if j.condition.Some? {
        SpacedExpr(j.condition.value, d, Joins(q, i + 1, d, k));
      }
    }
  }

  lemma {:induction false} SpacedOrders(q: QuerySpec, i: nat, d: Dialect, k: Pieces)
    requires i <= |q.orderBy| && ShapedQuery(q, false) && Spaced(k, Foreign(d)) && GapNext(k)
    ensures Spaced(Orders(q, i, d, k), Foreign(d))
    decreases q, 1, |q.orderBy| - i
  {
    SpacedParts(Foreign(d));
    hide Spaced, GoodName;
    if i < |q.orderBy| {
      SpacedOrders(q, i + 1, d, k);
      var r := if i + 1 == |q.orderBy| then k else CommaSp(Orders(q, i + 1, d, k));
      SpacedExpr(q.orderBy[i].expr, d, if q.orderBy[i].desc then SpKw(DESC, r) else r);
    }
  }

  lemma CtesText(q: QuerySpec, i: nat, d: Dialect, k: Pieces)
    requires i < |q.ctes|
    ensures
      var rest := if i + 1 == |q.ctes| then k else CommaSp(Ctes(q, i + 1, d, k));
      Ctes(q, i, d, k) == Cons(Name(q.ctes[i].name), SpKw(AS, Cons(Sp, Open(Q(q.ctes[i].query, d, Close(rest))))))
  {
    hide Q;
  }

  lemma CteShaped(q: QuerySpec, i: nat)
    requires i < |q.ctes| && ShapedQuery(q, false)
    ensures GoodName(q.ctes[i].name) && ShapedQuery(q.ctes[i].query, false)
  {
  }

  lemma {:induction false} SpacedCtes(q: QuerySpec, i: nat, d: Dialect, k: Pieces)
    requires i <= |q.ctes| && ShapedQuery(q, false) && Spaced(k, Foreign(d)) && GapNext(k)
    ensures Spaced(Ctes(q, i, d, k), Foreign(d))
    decreases q, 1, |q.ctes| - i
  {
    hide Q, ShapedQuery;
    if i < |q.ctes| {
      SpacedCtes(q, i + 1, d, k);
      SpacedCteAt(q, i, d, k);
    }
  }

  lemma {:induction false} SpacedCteAt(q: QuerySpec, i: nat, d: Dialect, k: Pieces)
    requires i < |q.ctes| && ShapedQuery(q, false) && Spaced(k, Foreign(d)) && GapNext(k)
    requires Spaced(Ctes(q, i + 1, d, k), Foreign(d))
    ensures Spaced(Ctes(q, i, d, k), Foreign(d))
    decreases q, 0, 0
  {
    hide Ctes, Q, ShapedQuery, GoodName, Spaced, GapNext;
    CteShaped(q, i);
    CtesText(q, i, d, k);
    var more := Ctes(q, i + 1, d, k);
    var rest := if i + 1 == |q.ctes| then k else CommaSp(more);
    SpacedEnd(more, Foreign(d));
    SpacedEnd(k, Foreign(d));
    SpacedEnd(rest, Foreign(d));
    SpacedQuery(q.ctes[i].query, d, Close(rest));
    SpacedCte(q.ctes[i].name, Q(q.ctes[i].query, d, Close(rest)), Foreign(d));
  }

  lemma SpacedEnd(r: Pieces, x: Piece)
    requires IsConcat(x) && Spaced(r, x)
    ensures Spaced(CommaSp(r), x) && GapNext(CommaSp(r)) && Spaced(Close(r), x) && GapNext(Close(r))
  {
    SpacedParts(x);
    hide Spaced, GoodName;
  }

  lemma SpacedCte(name: string, t: Pieces, x: Piece)
    requires IsConcat(x) && GoodName(name) && Spaced(t, x)
    ensures Spaced(Cons(Name(name), SpKw(AS, Cons(Sp, Open(t)))), x)
  {
    SpacedParts(x);
    hide Spaced, GoodName;
  }

  lemma {:induction false} SpacedGroup(q: QuerySpec, d: Dialect, k: Pieces)
    requires ShapedQuery(q, false) && Spaced(k, Foreign(d)) && GapNext(k)
    ensures
      var having := if q.having.Some? then SpKw(HAVING, Cons(Sp, E(q.having.value, d, k))) else k;
      var group := if q.groupBy != [] then SpKw(GROUP, SpKw(BY, Cons(Sp, RefList(q.groupBy, having)))) else having;
      Spaced(group, Foreign(d)) && GapNext(group)
    decreases q, 1, 0
  {
    SpacedParts(Foreign(d));
    hide Spaced, GoodName, E, RefList;
    if q.having.Some? {
      SpacedExpr(q.having.value, d, k);
    }
    SpacedRefs(q.groupBy, if q.having.Some? then SpKw(HAVING, Cons(Sp, E(q.having.value, d, k))) else k, Foreign(d));
  }

  lemma {:induction false} SpacedBody(q: QuerySpec, d: Dialect, k: Pieces)
    requires ShapedQuery(q, false) && Spaced(k, Foreign(d)) && GapNext(k)
    ensures Spaced(Body(q, d, k), Foreign(d))
    decreases q, 2, 0
  {
    SpacedParts(Foreign(d));
    hide Spaced, GoodName, E, RefList, Items, Joins;
    SpacedGroup(q, d, k);
    var having := if q.having.Some? then SpKw(HAVING, Cons(Sp, E(q.having.value, d, k))) else k;
    var group := if q.groupBy != [] then SpKw(GROUP, SpKw(BY, Cons(Sp, RefList(q.groupBy, having)))) else having;
    if q.filter.Some? {
      SpacedExpr(q.filter.value, d, group);
    }
    var filter := if q.filter.Some? then SpKw(WHERE, Cons(Sp, E(q.filter.value, d, group))) else group;
    SpacedFrom(q, d, filter);
  }

  lemma {:induction false} SpacedFrom(q: QuerySpec, d: Dialect, k: Pieces)
    requires ShapedQuery(q, false) && Spaced(k, Foreign(d)) && GapNext(k)
    ensures
      var from := SpKw(FROM, SpName(q.from.table, SpName(q.from.alias, Joins(q, 0, d, k))));
      Spaced(Items(q, 0, d, from), Foreign(d))
    decreases q, 1, |q.items| + |q.joins| + 1
  {
    SpacedParts(Foreign(d));
    hide Spaced, GoodName, Items, Joins;
    SpacedJoins(q, 0, d, k);
    SpacedItems(q, 0, d, SpKw(FROM, SpName(q.from.table, SpName(q.from.alias, Joins(q, 0, d, k)))));
  }

  lemma SpacedLimits(q: QuerySpec, k: Pieces, x: Piece)
    requires IsConcat(x) && ShapedQuery(q, false) && Spaced(k, x) && GapNext(k)
    ensures Spaced(Limits(q, k), x) && GapNext(Limits(q, k))
  {
    SpacedParts(x);
    hide Spaced, GoodName;
    assert Spaced(LockText(q.lock, k), x) && GapNext(LockText(q.lock, k));
  }

  lemma {:induction false} SpacedTail(q: QuerySpec, d: Dialect, k: Pieces)
    requires ShapedQuery(q, false) && Spaced(k, Foreign(d)) && GapNext(k)
    ensures Spaced(Tail(q, d, k), Foreign(d)) && GapNext(Tail(q, d, k))
    decreases q, 2, 0
  {
    SpacedParts(Foreign(d));
    hide Spaced, GoodName;
    SpacedLimits(q, k, Foreign(d));
    SpacedOrders(q, 0, d, Limits(q, k));
  }

  lemma {:induction false} SpacedCore(q: QuerySpec, d: Dialect, k: Pieces)
    requires ShapedQuery(q, false) && Spaced(k, Foreign(d)) && GapNext(k)
    ensures Spaced(Core(q, d, k), Foreign(d))
    decreases q, 3, 0
  {
    SpacedParts(Foreign(d));
    hide Spaced, GoodName;
    hide Q, Body, Tail, Shaped;
    SpacedTail(q, d, k);
    if q.setOpRhs.None? {
      SpacedBody(q, d, Tail(q, d, k));
    } else {
      var rhs := Q(q.setOpRhs.value, d, Close(Tail(q, d, k)));
      SpacedQuery(q.setOpRhs.value, d, Close(Tail(q, d, k)));
      assert Spaced(Cons(Sp, Open(rhs)), Foreign(d));
      assert Spaced(Cons(K(ALL), Cons(Sp, Open(rhs))), Foreign(d));
      assert Spaced(SetOpText(q.setOpKind, Cons(Sp, Open(rhs))), Foreign(d));
      SpacedBody(q, d, Close(Cons(Sp, SetOpText(q.setOpKind, Cons(Sp, Open(rhs))))));
    }
  }

  lemma {:induction false} SpacedQuery(q: QuerySpec, d: Dialect, k: Pieces)
    requires ShapedQuery(q, false) && Spaced(k, Foreign(d)) && GapNext(k)
    ensures Spaced(Q(q, d, k), Foreign(d))
    decreases q, 4, 0
  {
    SpacedParts(Foreign(d));
    hide Spaced, GoodName;
    SpacedCore(q, d, k);
    if q.ctes != [] {
      SpacedCtes(q, 0, d, Cons(Sp, Core(q, d, k)));
    }
  }
}
