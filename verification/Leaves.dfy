/** Random draws, and the columns and literals they pick. Every draw may return
    any value in its range. */
module Leaves {
  import opened Metadata
  import opened QueryIr
  import opened Scopes
  import opened Magnitudes

  method Draw(lo: int, hi: int) returns (r: int)
    requires lo <= hi
    ensures lo <= r <= hi
  {
    r :| lo <= r <= hi;
  }

  method DrawReal(lo: real, hi: real) returns (r: real)
    requires lo <= hi
    ensures lo <= r <= hi
  {
    r := *;
    if r < lo || hi < r {
      r := lo;
    }
  }

  method Roll(percent: nat) returns (b: bool)
    ensures percent == 0 ==> !b
    ensures percent >= 100 ==> b
  {
    var r := Draw(1, 100);
    b := r <= percent;
  }

  method Flip() returns (b: bool) {
    var r := Draw(0, 1);
    b := r == 1;
  }

  method RandomString(maxLen: nat) returns (s: string)
    ensures |s| <= maxLen
  {
    assert |""| <= maxLen;
    s :| |s| <= maxLen;
  }

  function TypesOf(f: Family): (types: set<ColumnType>)
    ensures forall t :: t in types <==> FamilyOf(t) == f
  {
    match f
    case Numeric => {INT, REAL}
    case Text => {CHAR, VARCHAR, TEXT}
    case Boolean => {BOOL}
    case Binary8 => {BYTEA}
  }

  /** Some column in scope has one of these types. */
  predicate Offers(scope: Scope, types: set<ColumnType>) {
    exists i, j :: 0 <= i < |scope| && 0 <= j < |scope[i].table.columns| && scope[i].table.columns[j].colType in types
  }

  predicate IsColumn(e: Expr, scope: Scope) { e.node.Ref? && WfFlat(e, scope) }

  predicate AreColumns(es: seq<Expr>, scope: Scope, types: set<ColumnType>) {
    forall e :: e in es ==> IsColumn(e, scope) && e.ty in types
  }

  /** Every column of these types of the first n tables in scope is there. */
  predicate Lists(cands: seq<Expr>, scope: Scope, types: set<ColumnType>) {
    forall i :: 0 <= i < |scope| ==> ListsTable(cands, scope[i], |scope[i].table.columns|, types)
  }

  predicate ListsTable(cands: seq<Expr>, e: Entry, n: nat, types: set<ColumnType>)
    requires n <= |e.table.columns|
  {
    forall j :: 0 <= j < n && e.table.columns[j].colType in types ==> ColExpr(e.alias, e.table.columns[j]) in cands
  }

  /** All the columns in scope of the given types, in order. */
  method ColumnsIn(scope: Scope, types: set<ColumnType>) returns (cands: seq<Expr>)
    ensures AreColumns(cands, scope, types) && Lists(cands, scope, types)
    ensures cands == [] <==> !Offers(scope, types)
  {
    cands := [];
    for i := 0 to |scope|
      invariant AreColumns(cands, scope, types) && Lists(cands, scope[..i], types)
      invariant cands == [] <==> !Offers(scope[..i], types)
    {
      for j := 0 to |scope[i].table.columns|
        invariant AreColumns(cands, scope, types) && Lists(cands, scope[..i], types)
        invariant ListsTable(cands, scope[i], j, types)
        invariant cands == [] <==> !Offers(scope[..i], types)
                                   && forall k :: 0 <= k < j ==> scope[i].table.columns[k].colType !in types
      {
        if scope[i].table.columns[j].colType in types {
          cands := cands + [ColExpr(scope[i].alias, scope[i].table.columns[j])];
        }
      }
      OffersNext(scope, i, types);
    }
    assert scope[..|scope|] == scope;
  }

  lemma OffersNext(scope: Scope, i: nat, types: set<ColumnType>)
    requires i < |scope|
    ensures Offers(scope[..i + 1], types) <==>
            Offers(scope[..i], types) ||
              exists k :: 0 <= k < |scope[i].table.columns| && scope[i].table.columns[k].colType in types
  {
    var less, more := scope[..i], scope[..i + 1];
    if Offers(less, types) {
      var a, b :| 0 <= a < |less| && 0 <= b < |less[a].table.columns| && less[a].table.columns[b].colType in types;
      assert more[a] == less[a];
    }
    if k :| 0 <= k < |scope[i].table.columns| && scope[i].table.columns[k].colType in types {
      assert more[i].table.columns[k].colType in types;
    }
    if Offers(more, types) {
      var a, b :| 0 <= a < |more| && 0 <= b < |more[a].table.columns| && more[a].table.columns[b].colType in types;
      assert a < i ==> less[a] == more[a];
    }
  }

  method PickOf(cands: seq<Expr>) returns (e: Expr)
    requires cands != []
    ensures e in cands
  {
    var i := Draw(0, |cands| - 1);
    e := cands[i];
  }

  method PickColumn(scope: Scope, family: ColumnType) returns (r: Option<Expr>)
    ensures r.Some? <==> Offers(scope, TypesOf(FamilyOf(family)))
    ensures r.Some? ==> IsColumn(r.value, scope) && FamilyOf(r.value.ty) == FamilyOf(family)
  {
    var cands := ColumnsIn(scope, TypesOf(FamilyOf(family)));
    if cands == [] {
      return None;
    }
    var e := PickOf(cands);
    r := Some(e);
  }

  predicate SmallLiteral(e: Expr) {
    e.node.Lit? && LitFits(e.node.value, e.ty) && e.node.value != NullValue
    && (e.ty == INT ==> 1 <= e.node.value.n <= MAX_COLUMN)
    && (e.ty == REAL ==> 1.0 <= e.node.value.x <= 1000000.0)
    && (e.node.value.TextValue? ==> |e.node.value.s| <= 16)
  }

  method GenLiteral(ty: ColumnType, length: nat) returns (e: Expr)
    ensures e.ty == ty && SmallLiteral(e)
    ensures e.node.value.TextValue? && length > 0 ==> |e.node.value.s| <= length
  {
    match ty {
      case INT =>
        var n := Draw(1, 1000000);
        e := Expr(Lit(IntValue(n)), ty);
      case REAL =>
        var x := DrawReal(1.0, 1000000.0);
        e := Expr(Lit(RealValue(x)), ty);
      case BOOL =>
        var b := Draw(0, 1);
        e := Expr(Lit(BoolValue(b == 1)), ty);
      case _ =>
        var maxLen := if length == 0 then 16 else if length < 16 then length else 16;
        var s := RandomString(maxLen);
        e := Expr(Lit(TextValue(s)), ty);
    }
  }

  /** A column or a literal, of the asked family. */
  predicate IsLeaf(e: Expr, scope: Scope, f: Family) {
    (IsColumn(e, scope) || SmallLiteral(e)) && FamilyOf(e.ty) == f
  }

  method GenLeaf(family: ColumnType, scope: Scope) returns (e: Expr)
    ensures IsLeaf(e, scope, FamilyOf(family))
  {
    var column := Roll(70);
    if column {
      var r := PickColumn(scope, family);
      if r.Some? {
        return r.value;
      }
    }
    e := GenLiteral(family, 0);
  }

  method IntLeaf(scope: Scope) returns (e: Expr)
    ensures IsLeaf(e, scope, Numeric) && e.ty == INT
  {
    var column := Roll(70);
    if column {
      var ints := ColumnsIn(scope, {INT});
      if ints != [] {
        e := PickOf(ints);
        return;
      }
    }
    e := GenLiteral(INT, 0);
  }

  function WrapNullifZero(rhs: Expr): Expr {
    Expr(Call(Nullif, [rhs, ZeroLit()]), rhs.ty)
  }
}
