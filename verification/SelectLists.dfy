/** Select lists, their order and their shape in a set operation. */
module SelectLists {
  import opened Metadata
  import opened Numerals
  import opened QueryIr
  import opened Scopes
  import opened Leaves

  /** Keeps one select item and drops ORDER BY, LIMIT and OFFSET. */
  function TrimToSingleItem(q: QuerySpec, keep: nat): QuerySpec
    requires keep < |q.items|
  {
    q.(items := [q.items[keep].(colAlias := "c0")], orderBy := [], limit := None, offset := None)
  }

  lemma TrimKeepsList(q: QuerySpec, keep: nat, own: Scope)
    requires keep < |q.items| && ItemsFit(q, own)
    ensures ItemsFit(TrimToSingleItem(q, keep), own)
  {
    var t := TrimToSingleItem(q, keep);
    assert t.items[0].expr == q.items[keep].expr;
    assert Numbered('c', 0) == "c0" by {
      assert Digits(0) == "0";
    }
  }

  function AllTypes(): set<ColumnType> { {INT, CHAR, VARCHAR, REAL, BOOL, BYTEA, TEXT} }

  lemma EveryType(t: ColumnType)
    ensures t in AllTypes()
  {
    match t
    case INT | CHAR | VARCHAR | REAL | BOOL | BYTEA | TEXT =>
  }

  const COMPARABLE: set<ColumnType> := {INT, REAL, CHAR, VARCHAR, TEXT}

  method GenAggCall(scope: Scope) returns (e: Expr)
    ensures WfAgg(e, scope) && FamilyOf(e.ty) in {Numeric, Text}
  {
    var numeric := ColumnsIn(scope, TypesOf(Numeric));
    var comparable := ColumnsIn(scope, COMPARABLE);
    var fns := [AggCount];
    if numeric != [] {
      fns := fns + [AggSum, AggAvg];
    }
    if comparable != [] {
      fns := fns + [AggMin, AggMax];
    }
    var k := Draw(0, |fns| - 1);
    var fn := fns[k];
    var star := Roll(50);
    if fn == AggCount && (comparable == [] || star) {
      return Expr(Agg(AggCount, None, false), INT);
    }
    var pool := if fn == AggSum || fn == AggAvg then numeric else comparable;
    var col := PickOf(pool);
    var ty := if fn == AggCount then INT else if fn == AggAvg then REAL else col.ty;
    var distinct := Roll(25);
    e := Expr(Agg(fn, Some(col), distinct), ty);
  }

  lemma ColumnInScope(e: Expr, scope: Scope)
    requires IsColumn(e, scope)
    ensures InScope(scope, e.node.ref)
  {
    assert Resolves(scope, e.node.ref, e.ty);
  }

  /** Perhaps one reference to a column in scope. */
  method GenRefs(scope: Scope, all: seq<Expr>, percent: nat) returns (refs: seq<ColumnRef>)
    requires AreColumns(all, scope, AllTypes())
    ensures forall r :: r in refs ==> InScope(scope, r)
  {
    refs := [];
    var roll := Roll(percent);
    if all != [] && roll {
      var col := PickOf(all);
      ColumnInScope(col, scope);
      refs := [col.node.ref];
    }
  }

  method GenWindowCall(scope: Scope) returns (e: Expr)
    ensures WfWindow(e, scope)
  {
    var numeric := ColumnsIn(scope, TypesOf(Numeric));
    var comparable := ColumnsIn(scope, COMPARABLE);
    var all := ColumnsIn(scope, AllTypes());
    var fns := [RowNumber, Rank, DenseRank, WinCount];
    if numeric != [] {
      fns := fns + [WinSum, WinAvg];
    }
    if comparable != [] {
      fns := fns + [WinMin, WinMax];
    }
    var k := Draw(0, |fns| - 1);
    var fn := fns[k];
    var arg: Option<Expr> := None;
    var ty := INT;
    match fn {
      case RowNumber | Rank | DenseRank =>
      case WinCount =>
        var column := Roll(50);
        if all != [] && column {
          var col := PickOf(all);
          arg := Some(col);
        }
      case WinSum | WinAvg =>
        var col := PickOf(numeric);
        arg := Some(col);
        ty := if fn == WinAvg then REAL else col.ty;
      case WinMin | WinMax =>
        var col := PickOf(comparable);
        arg := Some(col);
        ty := col.ty;
    }
    var partitionBy := GenRefs(scope, all, 50);
    var over := GenRefs(scope, all, 70);
    e := Expr(Window(fn, arg, partitionBy, over), ty);
  }

  /** Numbers the output columns. */
  method Label(items: seq<SelectItem>) returns (r: seq<SelectItem>)
    ensures |r| == |items| && Labelled(r)
    ensures forall i :: 0 <= i < |r| ==> r[i].expr == items[i].expr
  {
    r := items;
    for i := 0 to |items|
      invariant |r| == |items| && forall k :: 0 <= k < |r| ==> r[k].expr == items[k].expr
      invariant forall k :: 0 <= k < i ==> r[k].colAlias == Numbered('c', k)
    {
      r := r[i := r[i].(colAlias := Numbered('c', i))];
    }
  }

  /** An aggregated select list: up to two grouped columns, then aggregates. */
  method GenAggItems(own: Scope, cols: seq<Expr>)
    returns (items: seq<SelectItem>, groupBy: seq<ColumnRef>, having: Option<Expr>)
    requires cols != [] && AreColumns(cols, own, AllTypes())
    ensures items != [] && ListFits(items, groupBy, having, own) && |items| <= 4 && |groupBy| <= 2
  {
    items, groupBy, having := [], [], None;
    var groups := Draw(0, 2);
    for i := 0 to groups
      invariant forall a, b :: 0 <= a < b < |groupBy| ==> groupBy[a] != groupBy[b]
      invariant forall r :: r in groupBy ==> InScope(own, r)
      invariant AggItems(items, own, groupBy) && |items| <= i && |groupBy| <= i
    {
      var col := PickOf(cols);
      if col.node.ref !in groupBy {
        ColumnInScope(col, own);
        items := items + [SelectItem(col, "")];
        groupBy := groupBy + [col.node.ref];
      }
    }
    var aggs := Draw(1, 2);
    for i := 0 to aggs
      invariant AggItems(items, own, groupBy) && i <= |items| <= groups + i
    {
      var agg := GenAggCall(own);
      items := items + [SelectItem(agg, "")];
    }
    var haveHaving := Roll(50);
    if haveHaving {
      var agg := GenAggCall(own);
      var lit := GenLiteral(Representative(FamilyOf(agg.ty)), 0);
      var greater := Flip();
      having := Some(Expr(Node.Binary(if greater then Gt else Le, agg, lit), BOOL));
      assert HavingFits(having.value, own);
    }
  }

  /** ORDER BY repeats one or two of the selected plain columns. */
  method GenOrder(items: seq<SelectItem>) returns (orderBy: seq<OrderItem>)
    ensures forall o :: o in orderBy ==> o.expr.node.Ref? && exists i :: 0 <= i < |items| && o.expr == items[i].expr
    ensures |orderBy| <= 2
  {
    orderBy := [];
    var refs: seq<Expr> := [];
    for i := 0 to |items|
      invariant forall e :: e in refs ==> e.node.Ref? && exists k :: 0 <= k < |items| && e == items[k].expr
    {
      if items[i].expr.node.Ref? {
        refs := refs + [items[i].expr];
      }
    }
    if refs != [] {
      var n := Draw(1, if |refs| < 2 then |refs| else 2);
      for i := 0 to n
        invariant |orderBy| == i && forall o :: o in orderBy ==> o.expr in refs
      {
        var e := PickOf(refs);
        var desc := Flip();
        orderBy := orderBy + [OrderItem(e, desc)];
      }
    }
  }

  /** Forces the right side's select list into the left side's shape: extra
      items go, missing ones and ones of another family become literals. */
  method Reshape(lhs: seq<SelectItem>, rhs: QuerySpec) returns (r: QuerySpec)
    requires Labelled(lhs)
    ensures r == rhs.(items := r.items, orderBy := [], offset := None)
    ensures |r.items| == |lhs|
    ensures forall i :: 0 <= i < |lhs| ==>
      r.items[i].colAlias == lhs[i].colAlias && FamilyOf(r.items[i].expr.ty) == FamilyOf(lhs[i].expr.ty)
      && (SmallLiteral(r.items[i].expr) || (i < |rhs.items| && r.items[i].expr == rhs.items[i].expr))
  {
    var items := if |rhs.items| > |lhs| then rhs.items[..|lhs|] else rhs.items;
    for i := 0 to |lhs|
      invariant |items| <= |lhs| && |items| >= i && (|items| == i || |items| <= |rhs.items|)
      invariant forall k :: i <= k < |items| ==> items[k] == rhs.items[k]
      invariant |items| < |rhs.items| ==> |items| == |lhs|
      invariant forall k :: 0 <= k < i ==>
        items[k].colAlias == lhs[k].colAlias && FamilyOf(items[k].expr.ty) == FamilyOf(lhs[k].expr.ty)
        && (SmallLiteral(items[k].expr) || (k < |rhs.items| && items[k].expr == rhs.items[k].expr))
    {
      var fam := FamilyOf(lhs[i].expr.ty);
      if i >= |items| {
        var lit := GenLiteral(Representative(fam), 0);
        items := items + [SelectItem(lit, "")];
      } else if FamilyOf(items[i].expr.ty) != fam {
        var lit := GenLiteral(Representative(fam), 0);
        items := items[i := items[i].(expr := lit)];
      }
      items := items[i := items[i].(colAlias := Numbered('c', i))];
    }
    r := rhs.(items := items, orderBy := [], offset := None);
  }

  lemma ReshapedListFits(lhs: seq<SelectItem>, rhs: QuerySpec, r: QuerySpec, own: Scope)
    requires Labelled(lhs) && lhs != [] && |r.items| == |lhs| && ItemsFit(rhs, own)
    requires r.groupBy == rhs.groupBy && r.having == rhs.having && r.distinct == rhs.distinct
    requires forall i :: 0 <= i < |lhs| ==>
      r.items[i].colAlias == lhs[i].colAlias
      && (SmallLiteral(r.items[i].expr) || (i < |rhs.items| && r.items[i].expr == rhs.items[i].expr))
    ensures ItemsFit(r, own)
  {
    if PlainList(rhs.items, rhs.groupBy, rhs.having, own) {
      assert PlainItems(r.items, own);
    } else {
      assert AggItems(r.items, own, r.groupBy);
    }
  }

  lemma ZeroLabel()
    ensures Numbered('c', 0) == "c0"
  {
    assert Digits(0) == "0";
  }

  lemma HasColumns(own: Scope)
    requires |own| > 0 && own[0].table.columns != []
    ensures Offers(own, AllTypes())
  {
    EveryType(own[0].table.columns[0].colType);
  }

  lemma FirstResolves(own: Scope)
    requires |own| > 0 && own[0].table.columns != []
    ensures IsColumn(ColExpr(own[0].alias, own[0].table.columns[0]), own)
  {
  }

  lemma LabelFits(items: seq<SelectItem>, labelled: seq<SelectItem>, groupBy: seq<ColumnRef>,
          having: Option<Expr>, own: Scope)
    requires ListFits(items, groupBy, having, own) && |labelled| == |items|
    requires forall i :: 0 <= i < |items| ==> labelled[i].expr == items[i].expr
    ensures ListFits(labelled, groupBy, having, own)
    ensures PlainList(items, groupBy, having, own) ==> PlainList(labelled, groupBy, having, own)
  {
    if PlainList(items, groupBy, having, own) {
      assert PlainItems(labelled, own);
    } else {
      assert AggItems(labelled, own, groupBy);
    }
  }

  method Matching(items: seq<SelectItem>, fam: Family) returns (matching: seq<nat>)
    ensures forall i: nat :: i in matching <==> i < |items| && FamilyOf(items[i].expr.ty) == fam
  {
    matching := [];
    for i := 0 to |items|
      invariant forall k: nat :: k in matching <==> k < i && FamilyOf(items[k].expr.ty) == fam
    {
      if FamilyOf(items[i].expr.ty) == fam {
        matching := matching + [i];
      }
    }
  }
}
