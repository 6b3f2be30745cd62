/** What generated scalars and conditions satisfy, one operator at a time. */
module Conditions {
  import opened Metadata
  import opened QueryIr
  import opened Scopes
  import opened Magnitudes
  import opened Leaves

  /** A flat expression of family f that stays within the cap of its depth. */
  predicate ScalarOk(e: Expr, scope: Scope, f: Family, depth: nat) {
    FamilyOf(e.ty) == f && WfFlat(e, scope) && Within(e, Cap(depth))
  }

  lemma LeafOk(e: Expr, scope: Scope, f: Family, depth: nat)
    requires IsLeaf(e, scope, f)
    ensures ScalarOk(e, scope, f, depth) && Mag(e) <= MAX_COLUMN
  {
    if depth > 0 {
      CapDoubles(depth);
    }
  }

  lemma GrowOk(e: Expr, scope: Scope, f: Family, depth: nat)
    requires depth > 0 && ScalarOk(e, scope, f, depth - 1)
    ensures ScalarOk(e, scope, f, depth)
  {
    CapDoubles(depth);
    WithinGrows(e, Cap(depth - 1), Cap(depth));
  }

  lemma NullifZeroOk(e: Expr, scope: Scope, depth: nat)
    requires ScalarOk(e, scope, Numeric, depth)
    ensures ScalarOk(WrapNullifZero(e), scope, Numeric, depth) && NullifZero(WrapNullifZero(e))
    ensures Mag(WrapNullifZero(e)) == Mag(e)
  {
    var w := WrapNullifZero(e);
    assert w.node.args[0] == e && w.node.args[1] == ZeroLit();
  }

  lemma MulOk(l: Expr, r: Expr, scope: Scope, family: ColumnType, depth: nat)
    requires depth > 0 && FamilyOf(family) == Numeric && IsLeaf(l, scope, Numeric)
    requires r.ty == INT && r.node.Lit? && r.node.value.IntValue? && 1 <= r.node.value.n <= 10
    ensures ScalarOk(Expr(Node.Binary(Mul, l, r), family), scope, Numeric, depth)
  {
    CapDoubles(depth);
    LeafOk(l, scope, Numeric, depth);
    MulMono(Mag(l), Mag(r), MAX_COLUMN, 10);
  }

  lemma SumOk(op: BinOp, l: Expr, r: Expr, scope: Scope, family: ColumnType, depth: nat)
    requires depth > 0 && FamilyOf(family) == Numeric && op in {Add, Sub, Div}
    requires ScalarOk(l, scope, Numeric, depth - 1) && ScalarOk(r, scope, Numeric, depth - 1)
    requires op == Div ==> NullifZero(r)
    ensures ScalarOk(Expr(Node.Binary(op, l, r), family), scope, Numeric, depth)
  {
    CapDoubles(depth);
    WithinGrows(l, Cap(depth - 1), Cap(depth));
    WithinGrows(r, Cap(depth - 1), Cap(depth));
  }

  lemma ModOk(l: Expr, r: Expr, scope: Scope, depth: nat)
    requires ScalarOk(l, scope, Numeric, depth) && ScalarOk(r, scope, Numeric, depth)
    requires l.ty == r.ty == INT && NullifZero(r)
    ensures ScalarOk(Expr(Node.Binary(Mod, l, r), INT), scope, Numeric, depth)
  {
  }

  lemma ConcatOk(l: Expr, r: Expr, scope: Scope, family: ColumnType, depth: nat)
    requires FamilyOf(family) == Text
    requires ScalarOk(l, scope, Text, depth) && ScalarOk(r, scope, Text, depth)
    ensures ScalarOk(Expr(Node.Binary(Concat, l, r), family), scope, Text, depth)
  {
  }

  lemma CallOneOk(fn: Func, a: Expr, scope: Scope, family: ColumnType, depth: nat)
    requires fn in {Lower, Upper, Abs, Length}
    requires ScalarOk(a, scope, if fn == Abs then Numeric else Text, depth)
    requires FamilyOf(family) == if fn in {Lower, Upper} then Text else Numeric
    requires fn == Length ==> family == INT && Mag(a) <= Cap(depth)
    ensures ScalarOk(Expr(Call(fn, [a]), family), scope, FamilyOf(family), depth)
  {
    var e := Expr(Call(fn, [a]), family);
    assert e.node.args[0] == a;
  }

  lemma CallTwoOk(fn: Func, a: Expr, b: Expr, scope: Scope, family: ColumnType, depth: nat)
    requires fn in {Coalesce, Nullif}
    requires IsLeaf(a, scope, FamilyOf(family)) && IsLeaf(b, scope, FamilyOf(family))
    ensures ScalarOk(Expr(Call(fn, [a, b]), family), scope, FamilyOf(family), depth)
  {
    var e := Expr(Call(fn, [a, b]), family);
    LeafOk(a, scope, FamilyOf(family), depth);
    LeafOk(b, scope, FamilyOf(family), depth);
    assert e.node.args[0] == a && e.node.args[1] == b;
    if depth > 0 {
      CapDoubles(depth);
    }
  }

  predicate WhenOk(w: When, scope: Scope, f: Family, depth: nat) {
    w.cond.ty == BOOL && WfFlat(w.cond, scope) && Within(w.cond, Cap(depth)) && ScalarOk(w.result, scope, f, depth)
  }

  lemma CaseOk(whens: seq<When>, otherwise: Expr, scope: Scope, family: ColumnType, depth: nat)
    requires 1 <= |whens| <= 2 && ScalarOk(otherwise, scope, FamilyOf(family), depth)
    requires forall i :: 0 <= i < |whens| ==> WhenOk(whens[i], scope, FamilyOf(family), depth)
    ensures ScalarOk(Expr(Node.Case(whens, Some(otherwise)), family), scope, FamilyOf(family), depth)
  {
    var e := Expr(Node.Case(whens, Some(otherwise)), family);
    if FamilyOf(family) == Numeric {
      MagCaseCap(e, 0, Cap(depth));
    }
  }

  lemma {:induction false} MagCaseCap(e: Expr, i: nat, b: nat)
    requires e.node.Case? && i <= |e.node.whens|
    requires e.node.otherwise.Some? ==> Mag(e.node.otherwise.value) <= b
    requires forall k :: 0 <= k < |e.node.whens| ==> Mag(e.node.whens[k].result) <= b
    ensures MagCase(e, i) <= b
    decreases |e.node.whens| - i
  {
    if i < |e.node.whens| {
      MagCaseCap(e, i + 1, b);
    }
  }

  /** A generated condition over scope: well formed, its aliases numbered from
      lo to hi, subqueries nested within the budget, and flat and within its cap
      if that is zero. */
  ghost predicate BoolFits(e: Expr, scope: Scope, ts: seq<Table>, depth: nat, budget: nat, lo: nat, hi: nat) {
    && lo <= hi
    && WfPred(e, scope, ts)
    && Owned(Sources(e), lo, hi, Names(ts))
    && Nesting(e) <= budget
    && (budget == 0 ==> FlatBoolOk(e, scope, depth))
  }

  lemma FlatFits(e: Expr, scope: Scope, ts: seq<Table>, depth: nat, budget: nat, lo: nat, hi: nat)
    requires lo <= hi && FlatBoolOk(e, scope, depth)
    ensures BoolFits(e, scope, ts, depth, budget, lo, hi)
  {
    FlatPred(e, scope, ts);
  }

  lemma LogicalFits(op: BinOp, l: Expr, r: Expr, scope: Scope, ts: seq<Table>, depth: nat, budget: nat, lo: nat,
          mid: nat, hi: nat)
    requires Logical(op) && depth > 0
    requires BoolFits(l, scope, ts, depth - 1, budget, lo, mid) && BoolFits(r, scope, ts, depth - 1, budget, mid, hi)
    ensures BoolFits(Expr(Node.Binary(op, l, r), BOOL), scope, ts, depth, budget, lo, hi)
  {
    LogicalOk(op, l, r, scope, ts);
    LogicalOwned(op, l, r, lo, mid, hi, Names(ts));
    if budget == 0 {
      LogicalFlat(op, l, r, scope, depth);
    }
  }

  lemma NotFits(a: Expr, scope: Scope, ts: seq<Table>, depth: nat, budget: nat, lo: nat, hi: nat)
    requires depth > 0 && BoolFits(a, scope, ts, depth - 1, budget, lo, hi)
    ensures BoolFits(Expr(Unary(Not, a), BOOL), scope, ts, depth, budget, lo, hi)
  {
    NotOk(a, scope, ts);
    if budget == 0 {
      CapDoubles(depth);
      WithinGrows(a, Cap(depth - 1), Cap(depth));
    }
  }

  lemma FlatPred(e: Expr, scope: Scope, ts: seq<Table>)
    requires e.ty == BOOL && WfFlat(e, scope)
    ensures WfPred(e, scope, ts) && Sources(e) == multiset{} && Nesting(e) == 0
  {
    FlatReadsNothing(e, scope);
  }

  /** The families of the columns in scope, without repeats. */
  method FamiliesIn(scope: Scope) returns (families: seq<Family>)
    ensures forall f :: f in families <==> Offers(scope, TypesOf(f))
  {
    families := [];
    for i := 0 to |scope|
      invariant forall f :: f in families <==> Offers(scope[..i], TypesOf(f))
    {
      for j := 0 to |scope[i].table.columns|
        invariant forall f :: f in families <==>
          Offers(scope[..i], TypesOf(f))
          || exists k :: 0 <= k < j && scope[i].table.columns[k].colType in TypesOf(f)
      {
        var fam := FamilyOf(scope[i].table.columns[j].colType);
        if fam !in families {
          families := families + [fam];
        }
      }
      forall f: Family {
        OffersNext(scope, i, TypesOf(f));
      }
    }
    assert scope[..|scope|] == scope;
  }

  /** pick = families[draw], or numeric when there is none. */
  method PickFamily(families: seq<Family>) returns (f: Family)
    ensures f in families || (families == [] && f == Numeric)
  {
    if families == [] {
      return Numeric;
    }
    var i := Draw(0, |families| - 1);
    f := families[i];
  }

  /** A condition of the given kind with no subquery, within the cap. */
  predicate FlatBoolOk(e: Expr, scope: Scope, depth: nat) {
    e.ty == BOOL && WfFlat(e, scope) && Within(e, Cap(depth))
  }

  lemma BoolLeafOk(e: Expr, scope: Scope, depth: nat)
    requires IsLeaf(e, scope, Boolean)
    ensures FlatBoolOk(e, scope, depth)
  {
    LeafOk(e, scope, Boolean, depth);
  }

  method GenIsNull(scope: Scope, families: seq<Family>, depth: nat) returns (e: Expr)
    ensures FlatBoolOk(e, scope, depth)
    ensures IsLeaf(e, scope, Boolean) ||
      (e.node.Unary? && e.node.unOp in {IsNull, IsNotNull} && IsColumn(e.node.arg, scope))
  {
    var arg := PickColumn(scope, Representative(if families == [] then Numeric else families[0]));
    if |families| > 1 {
      var fam := PickFamily(families);
      var c := PickColumn(scope, Representative(fam));
      if c.Some? {
        arg := c;
      }
    }
    if arg.None? {
      e := GenLeaf(BOOL, scope);
      BoolLeafOk(e, scope, depth);
      return;
    }
    var isNull := Flip();
    LeafOk(arg.value, scope, FamilyOf(arg.value.ty), depth);
    e := Expr(Unary(if isNull then IsNull else IsNotNull, arg.value), BOOL);
  }

  method GenBetween(scope: Scope, depth: nat) returns (e: Expr)
    ensures FlatBoolOk(e, scope, depth)
    ensures if !Offers(scope, TypesOf(Numeric)) then IsLeaf(e, scope, Boolean)
            else e.node.Between? && IsColumn(e.node.arg, scope) && SmallLiteral(e.node.lo) && SmallLiteral(e.node.hi)
  {
    var col := PickColumn(scope, INT);
    if col.None? {
      e := GenLeaf(BOOL, scope);
      BoolLeafOk(e, scope, depth);
      return;
    }
    var lo := GenLiteral(col.value.ty, 0);
    var hi := GenLiteral(col.value.ty, 0);
    LeafOk(col.value, scope, Numeric, depth);
    LeafOk(lo, scope, Numeric, depth);
    LeafOk(hi, scope, Numeric, depth);
    e := Expr(Between(col.value, lo, hi), BOOL);
  }

  method GenInList(scope: Scope, families: seq<Family>, depth: nat) returns (e: Expr)
    ensures FlatBoolOk(e, scope, depth)
    ensures IsLeaf(e, scope, Boolean) ||
      (e.node.InList? && IsColumn(e.node.arg, scope) && forall i :: i in e.node.items ==> SmallLiteral(i))
  {
    var fam := PickFamily(families);
    var col := PickColumn(scope, Representative(fam));
    if col.None? {
      e := GenLeaf(BOOL, scope);
      BoolLeafOk(e, scope, depth);
      return;
    }
    var negated := Flip();
    var count := Draw(1, 5);
    var items: seq<Expr> := [];
    for i := 0 to count
      invariant |items| == i
      invariant forall k :: 0 <= k < i ==>
        ScalarOk(items[k], scope, FamilyOf(col.value.ty), depth) && SmallLiteral(items[k])
    {
      var lit := GenLiteral(col.value.ty, 0);
      LeafOk(lit, scope, FamilyOf(col.value.ty), depth);
      items := items + [lit];
    }
    LeafOk(col.value, scope, FamilyOf(col.value.ty), depth);
    e := Expr(InList(col.value, items, negated), BOOL);
  }

  const PATTERN_ALPHABET := "abcdefghijklmnopqrstuvwxyz0123456789%_"

  /** No quote and no backslash: a pattern never needs escaping. */
  predicate IsPattern(e: Expr) {
    && e.node.Lit? && e.node.value.TextValue? && 1 <= |e.node.value.s| <= 8
    && forall c :: c in e.node.value.s ==> c in PATTERN_ALPHABET
  }

  method GenLike(scope: Scope, depth: nat) returns (e: Expr)
    ensures FlatBoolOk(e, scope, depth)
    ensures if !Offers(scope, TypesOf(Text)) then IsLeaf(e, scope, Boolean)
            else e.node.Binary? && e.node.op == Like && IsColumn(e.node.lhs, scope) && IsPattern(e.node.rhs)
  {
    var col := PickColumn(scope, VARCHAR);
    if col.None? {
      e := GenLeaf(BOOL, scope);
      BoolLeafOk(e, scope, depth);
      return;
    }
    var pattern := "";
    var len := Draw(1, 8);
    for i := 0 to len
      invariant |pattern| == i && forall c :: c in pattern ==> c in PATTERN_ALPHABET
    {
      var k := Draw(0, |PATTERN_ALPHABET| - 1);
      pattern := pattern + [PATTERN_ALPHABET[k]];
    }
    LeafOk(col.value, scope, Text, depth);
    e := Expr(Node.Binary(Like, col.value, Expr(Lit(TextValue(pattern)), VARCHAR)), BOOL);
  }

  method GenCmpOp(leafOnly: bool) returns (op: BinOp)
    ensures Comparison(op) && (leafOnly ==> op == Eq || op == Ne)
  {
    if leafOnly {
      var eq := Flip();
      return if eq then Eq else Ne;
    }
    var ops := [Eq, Ne, Lt, Le, Gt, Ge];
    var i := Draw(0, 5);
    op := ops[i];
  }

  lemma CmpFlatOk(op: BinOp, l: Expr, r: Expr, scope: Scope, f: Family, depth: nat)
    requires Comparison(op) && ScalarOk(l, scope, f, depth) && ScalarOk(r, scope, f, depth)
    requires f == Boolean || f == Binary8 ==> op == Eq || op == Ne
    ensures FlatBoolOk(Expr(Node.Binary(op, l, r), BOOL), scope, depth)
  {
  }

  lemma CmpSubqueryOk(op: BinOp, l: Expr, q: QuerySpec, scope: Scope, f: Family, ts: seq<Table>)
    requires Comparison(op) && WfFlat(l, scope) && FamilyOf(l.ty) == f && f in {Numeric, Text}
    requires q.limit == Some(1) && Single(q, f) && WfQuery(q, scope, ts)
    ensures
      var r := Expr(ScalarSubquery(q), Representative(f));
      var e := Expr(Node.Binary(op, l, r), BOOL);
      WfPred(e, scope, ts) && Sources(e) == QuerySources(q) && Nesting(e) == 1 + FilterNesting(q)
  {
    var r := Expr(ScalarSubquery(q), Representative(f));
    var e := Expr(Node.Binary(op, l, r), BOOL);
    FlatReadsNothing(l, scope);
    assert WithSubquery(e, scope, ts);
    assert Sources(r) == QuerySources(q);
  }

  lemma LogicalOk(op: BinOp, l: Expr, r: Expr, scope: Scope, ts: seq<Table>)
    requires Logical(op) && WfPred(l, scope, ts) && WfPred(r, scope, ts)
    ensures WfPred(Expr(Node.Binary(op, l, r), BOOL), scope, ts)
  {
    assert WithSubquery(Expr(Node.Binary(op, l, r), BOOL), scope, ts);
  }

  lemma LogicalOwned(op: BinOp, l: Expr, r: Expr, lo: nat, mid: nat, hi: nat, names: set<string>)
    requires Owned(Sources(l), lo, mid, names) && Owned(Sources(r), mid, hi, names) && lo <= mid <= hi
    ensures Owned(Sources(Expr(Node.Binary(op, l, r), BOOL)), lo, hi, names)
  {
    OwnedJoin(Sources(l), Sources(r), lo, mid, hi, names);
  }

  lemma LogicalFlat(op: BinOp, l: Expr, r: Expr, scope: Scope, depth: nat)
    requires Logical(op) && depth > 0 && FlatBoolOk(l, scope, depth - 1) && FlatBoolOk(r, scope, depth - 1)
    ensures FlatBoolOk(Expr(Node.Binary(op, l, r), BOOL), scope, depth)
  {
    CapDoubles(depth);
    WithinGrows(l, Cap(depth - 1), Cap(depth));
    WithinGrows(r, Cap(depth - 1), Cap(depth));
  }

  lemma NotOk(a: Expr, scope: Scope, ts: seq<Table>)
    requires WfPred(a, scope, ts)
    ensures WfPred(Expr(Unary(Not, a), BOOL), scope, ts)
  {
    assert WithSubquery(Expr(Unary(Not, a), BOOL), scope, ts);
  }
}
