/** The random query generator (core/src/querygen/generator.cpp). Every random
    draw may return any value in its range. */
module Generators {
  import opened Metadata
  import opened Numerals
  import opened QueryIr
  import opened Scopes
  import opened Capture
  import opened Magnitudes
  import opened Leaves
  import opened Conditions
  import opened Joins
  import opened SelectLists
  import opened QueryParts

  datatype QueryGenConfig = QueryGenConfig(
    maxJoins: nat,
    maxExprDepth: nat,
    maxSubqueryDepth: nat,
    joinProb: nat,
    subqueryProb: nat,
    aggregateProb: nat,
    cteProb: nat,
    setOpProb: nat,
    windowProb: nat,
    orderByProb: nat,
    limitProb: nat,
    correlationProb: nat)

  datatype ScalarPick =
    | LeafPick | LiteralPick | ArithPick | ModPick | AbsPick | LengthPick
    | CoalescePick | NullifPick | CasePick | LowerUpperPick | ConcatPick

  datatype BoolPick =
    | CmpPick | AndOrPick | NotPick | IsNullPick | BetweenPick | InListPick | LikePick | SubqueryPick | BoolLeafPick

  /** The weighted choices of genScalar. */
  function ScalarChoices(f: Family): (choices: seq<ScalarPick>)
    ensures choices != []
    ensures forall p :: p in choices <==>
      match p
      case ArithPick | ModPick | AbsPick | LengthPick => f == Numeric
      case LowerUpperPick | ConcatPick => f == Text
      case _ => true
  {
    [LeafPick, LeafPick, LiteralPick, CoalescePick, NullifPick, CasePick]
    + (if f == Numeric then [ArithPick, ArithPick, ModPick, AbsPick, LengthPick] else [])
    + (if f == Text then [LowerUpperPick, ConcatPick] else [])
  }

  function BoolChoices(deep: bool, numeric: bool, text: bool, subquery: bool): (choices: seq<BoolPick>)
    ensures choices != []
    ensures forall p :: p in choices <==>
      match p
      case AndOrPick | NotPick => deep
      case BetweenPick => numeric
      case LikePick => text
      case SubqueryPick => subquery
      case _ => true
  {
    [CmpPick, CmpPick, CmpPick, CmpPick, IsNullPick, InListPick, BoolLeafPick]
    + (if deep then [AndOrPick, AndOrPick, AndOrPick, NotPick] else [])
    + (if numeric then [BetweenPick] else [])
    + (if text then [LikePick] else [])
    + (if subquery then [SubqueryPick, SubqueryPick] else [])
  }

  /** The tables other than the one with that id. */
  function Without(ts: seq<Table>, id: ObjectId): seq<Table> {
    if ts == [] then []
    else Without(ts[..|ts| - 1], id) + (if ts[|ts| - 1].id == id then [] else [ts[|ts| - 1]])
  }

  lemma {:induction false} WithoutHas(ts: seq<Table>, id: ObjectId, t: Table)
    ensures t in Without(ts, id) <==> t in ts && t.id != id
  {
    if ts != [] {
      WithoutHas(ts[..|ts| - 1], id, t);
      assert ts == ts[..|ts| - 1] + [ts[|ts| - 1]];
    }
  }

  lemma EraseKeeps(ts: seq<Table>, id: ObjectId)
    requires HaveColumns(ts)
    ensures HaveColumns(Without(ts, id))
  {
    forall t | t in Without(ts, id) ensures t.columns != [] {
      WithoutHas(ts, id, t);
    }
  }

  method GenSetOpKind(supportsIntersect: bool) returns (kind: SetOpKind)
    ensures kind in {Intersect, Except} ==> supportsIntersect
  {
    var r := Draw(1, 100);
    if r <= 40 {
      kind := UnionAll;
    } else if r <= 70 || !supportsIntersect {
      kind := if r % 2 == 0 then UnionAll else UnionDistinct;
    } else {
      kind := if r <= 85 then Intersect else Except;
    }
  }

  /** With distinct table names, a predicate over the tables without the target
      never reads the target's name. */
  lemma NeverReadsTarget(e: Expr, ts: seq<Table>, target: Table, lo: nat, hi: nat)
    requires Owned(Sources(e), lo, hi, Names(Without(ts, target.id)))
    requires forall t :: t in ts && t.name == target.name ==> t.id == target.id
    ensures forall s :: s in Sources(e) ==> s.table != target.name
  {
    forall s | s in Sources(e) ensures s.table != target.name {
      var t :| t in Without(ts, target.id) && t.name == s.table;
      WithoutHas(ts, target.id, t);
    }
  }

  /** A generated scalar of depth at most eight never leaves the range of a
      signed 32-bit integer, whatever small row it is evaluated on. */
  lemma GeneratedStaysSmall(e: Expr, scope: Scope, f: Family, depth: nat, row: Row, truth: Truth)
    requires ScalarOk(e, scope, f, depth) && depth <= 8 && SmallRow(row)
    ensures EveryValueWithin(e, row, truth, 0x7fff_ffff)
  {
    CapFits(depth);
    WithinGrows(e, Cap(depth), 0x7fff_ffff);
    WithinSound(e, row, truth, 0x7fff_ffff);
  }

  /** Foreign keys from t to u have the family of the key they reference. */
  ghost predicate KeysTyped(t: Table, u: Table) {
    forall c, p :: KeyOf(c, t, p, u) ==> FamilyOf(c.colType) == FamilyOf(p.colType)
  }

  ghost predicate KeysTypedIn(own: Scope) {
    forall i, k :: 0 <= k < i < |own| ==> KeysTyped(own[i].table, own[k].table) && KeysTyped(own[k].table, own[i].table)
  }

  /** An ON condition is a well-formed comparison over the aliases joined so far
      exactly when the two columns are of one family. */
  lemma OnTypedExact(cond: Expr, own: Scope, i: nat)
    requires i < |own| && JoinLinks(cond, own, i)
    ensures cond.ty == BOOL && cond.node.Binary?
    ensures WfFlat(cond, own[..i + 1]) <==> FamilyOf(cond.node.lhs.ty) == FamilyOf(cond.node.rhs.ty)
  {
    hide PkColumn, Joinable;
    var added, k, base :| added in own[i].table.columns && 0 <= k < i && base in own[k].table.columns
      && Joinable(added, own[i].table, base, own[k].table)
      && cond == Equals(ColExpr(own[i].alias, added), ColExpr(own[k].alias, base));
    ColumnResolves(own[..i + 1], i, added);
    ColumnResolves(own[..i + 1], k, base);
    EqualsTyped(ColExpr(own[i].alias, added), ColExpr(own[k].alias, base), own[..i + 1]);
  }

  /** Every ON condition the joins may carry is well formed if and only if every
      foreign key between the joined tables has the family of its target. */
  lemma OnIsTyped(own: Scope)
    ensures KeysTypedIn(own) <==>
            forall cond, i {:trigger JoinLinks(cond, own, i)} ::
              0 <= i < |own| && JoinLinks(cond, own, i) ==> WfFlat(cond, own[..i + 1])
  {
    hide WfFlat, KeyOf;
    if KeysTypedIn(own) {
      forall cond, i | 0 <= i < |own| && JoinLinks(cond, own, i) ensures WfFlat(cond, own[..i + 1]) {
        OnTypedExact(cond, own, i);
        LinkedAlike(cond, own, i);
      }
    } else {
      var i, k :| 0 <= k < i < |own|
        && !(KeysTyped(own[i].table, own[k].table) && KeysTyped(own[k].table, own[i].table));
      var cond := OtherFamily(own, i, k);
      OnTypedExact(cond, own, i);
    }
  }

  lemma LinkedAlike(cond: Expr, own: Scope, i: nat)
    requires i < |own| && JoinLinks(cond, own, i) && KeysTypedIn(own)
    ensures cond.node.Binary? && FamilyOf(cond.node.lhs.ty) == FamilyOf(cond.node.rhs.ty)
  {
    hide KeyOf;
    var added, k, base :| added in own[i].table.columns && 0 <= k < i && base in own[k].table.columns
      && Joinable(added, own[i].table, base, own[k].table)
      && cond == Equals(ColExpr(own[i].alias, added), ColExpr(own[k].alias, base));
    assert KeysTyped(own[i].table, own[k].table) && KeysTyped(own[k].table, own[i].table);
  }

  /** A failing input: any foreign key of another family than the key it
      references, joined in either direction. CREATE TABLE makes both columns
      INT and ALTER skips keys and references, so such a key comes with tables
      read from an existing database. */
  lemma OtherFamily(own: Scope, i: nat, k: nat) returns (cond: Expr)
    requires k < i < |own| && !(KeysTyped(own[i].table, own[k].table) && KeysTyped(own[k].table, own[i].table))
    ensures JoinLinks(cond, own, i) && cond.node.Binary?
    ensures FamilyOf(cond.node.lhs.ty) != FamilyOf(cond.node.rhs.ty)
  {
    hide PkColumn;
    var t, u := own[i].table, own[k].table;
    if !KeysTyped(t, u) {
      var c, p :| KeyOf(c, t, p, u) && FamilyOf(c.colType) != FamilyOf(p.colType);
      cond := Equals(ColExpr(own[i].alias, c), ColExpr(own[k].alias, p));
      assert Joinable(c, t, p, u);
    } else {
      var c, p :| KeyOf(c, u, p, t) && FamilyOf(c.colType) != FamilyOf(p.colType);
      cond := Equals(ColExpr(own[i].alias, p), ColExpr(own[k].alias, c));
      assert Joinable(p, t, c, u);
    }
  }

  lemma EqualsTyped(l: Expr, r: Expr, vis: Scope)
    requires WfFlat(l, vis) && WfFlat(r, vis)
    ensures Equals(l, r).ty == BOOL && (WfFlat(Equals(l, r), vis) <==> FamilyOf(l.ty) == FamilyOf(r.ty))
  {
  }

  lemma ColumnResolves(vis: Scope, i: nat, c: Column)
    requires i < |vis| && c in vis[i].table.columns
    ensures WfFlat(ColExpr(vis[i].alias, c), vis)
  {
    var j :| 0 <= j < |vis[i].table.columns| && vis[i].table.columns[j] == c;
    assert vis[i].table.columns[j].name == c.name;
  }

  class Generator {
    var tables: seq<Table>
    var aliasCounter: nat
    const cfg: QueryGenConfig
    const supportsIntersect: bool

    constructor (snapshot: seq<Table>, cfg: QueryGenConfig, supportsIntersect: bool)
      ensures tables == snapshot && aliasCounter == 0 && this.cfg == cfg
    {
      tables, aliasCounter := snapshot, 0;
      this.cfg, this.supportsIntersect := cfg, supportsIntersect;
    }

    /** Subquery nesting still allowed at this depth. */
    function Budget(subqDepth: nat): nat {
      if subqDepth < cfg.maxSubqueryDepth then cfg.maxSubqueryDepth - subqDepth else 0
    }

    method FreshAlias() returns (alias: string)
      modifies this`aliasCounter
      ensures alias == Numbered('u', old(aliasCounter)) && aliasCounter == old(aliasCounter) + 1
    {
      alias := Numbered('u', aliasCounter);
      aliasCounter := aliasCounter + 1;
    }

    method GenArith(family: ColumnType, scope: Scope, depth: nat) returns (e: Expr)
      requires depth > 0 && FamilyOf(family) == Numeric
      modifies this`aliasCounter
      ensures aliasCounter >= old(aliasCounter)
      ensures ScalarOk(e, scope, Numeric, depth)
      decreases 0, 0, 0, depth, 1
    {
      var ops := [Add, Sub, Mul, Div];
      var k := Draw(0, 3);
      var op := ops[k];
      if op == Mul {
        var lhs := GenLeaf(family, scope);
        var n := Draw(1, 10);
        var rhs := Expr(Lit(IntValue(n)), INT);
        MulOk(lhs, rhs, scope, family, depth);
        return Expr(Node.Binary(Mul, lhs, rhs), family);
      }
      var lhs := GenScalar(family, scope, depth - 1);
      var rhs := GenScalar(family, scope, depth - 1);
      if op == Div {
        NullifZeroOk(rhs, scope, depth - 1);
        rhs := WrapNullifZero(rhs);
      }
      SumOk(op, lhs, rhs, scope, family, depth);
      e := Expr(Node.Binary(op, lhs, rhs), family);
    }

    method GenMod(scope: Scope, depth: nat) returns (e: Expr)
      ensures ScalarOk(e, scope, Numeric, depth) && e.ty == INT
    {
      var lhs := IntLeaf(scope);
      var rhs := IntLeaf(scope);
      LeafOk(lhs, scope, Numeric, depth);
      LeafOk(rhs, scope, Numeric, depth);
      NullifZeroOk(rhs, scope, depth);
      rhs := WrapNullifZero(rhs);
      ModOk(lhs, rhs, scope, depth);
      e := Expr(Node.Binary(Mod, lhs, rhs), INT);
    }

    /** ABS, LOWER or UPPER of a scalar, or LENGTH of a leaf. */
    method GenCallOne(fn: Func, family: ColumnType, scope: Scope, depth: nat) returns (e: Expr)
      requires depth > 0 && fn in {Abs, Lower, Upper, Length}
      requires FamilyOf(family) == if fn in {Lower, Upper} then Text else Numeric
      modifies this`aliasCounter
      ensures aliasCounter >= old(aliasCounter)
      ensures ScalarOk(e, scope, FamilyOf(family), depth)
      decreases 0, 0, 0, depth, 1
    {
      if fn == Length {
        var arg := GenLeaf(VARCHAR, scope);
        LeafOk(arg, scope, Text, depth);
        CapDoubles(depth);
        CallOneOk(fn, arg, scope, INT, depth);
        return Expr(Call(fn, [arg]), INT);
      }
      var arg := GenScalar(family, scope, depth - 1);
      GrowOk(arg, scope, FamilyOf(family), depth);
      CallOneOk(fn, arg, scope, family, depth);
      e := Expr(Call(fn, [arg]), family);
    }

    method GenCallTwo(fn: Func, family: ColumnType, scope: Scope, depth: nat) returns (e: Expr)
      requires fn in {Coalesce, Nullif}
      ensures ScalarOk(e, scope, FamilyOf(family), depth)
    {
      var a := GenLeaf(family, scope);
      var b := GenLiteral(family, 0);
      CallTwoOk(fn, a, b, scope, family, depth);
      e := Expr(Call(fn, [a, b]), family);
    }

    /** CASE: its conditions get no subquery budget. */
    method GenCase(family: ColumnType, scope: Scope, depth: nat) returns (e: Expr)
      requires depth > 0
      modifies this`aliasCounter
      ensures aliasCounter >= old(aliasCounter)
      ensures ScalarOk(e, scope, FamilyOf(family), depth)
      decreases 0, 0, 0, depth, 1
    {
      var n := Draw(1, 2);
      var whens: seq<When> := [];
      for i := 0 to n
        invariant |whens| == i && aliasCounter >= old(aliasCounter)
        invariant forall k :: 0 <= k < i ==> WhenOk(whens[k], scope, FamilyOf(family), depth - 1)
      {
        var cond := GenBool(scope, depth - 1, cfg.maxSubqueryDepth);
        var result := GenScalar(family, scope, depth - 1);
        whens := whens + [When(cond, result)];
      }
      var otherwise := GenScalar(family, scope, depth - 1);
      CaseOk(whens, otherwise, scope, family, depth - 1);
      e := Expr(Node.Case(whens, Some(otherwise)), family);
      GrowOk(e, scope, FamilyOf(family), depth);
    }

    method GenConcat(family: ColumnType, scope: Scope, depth: nat) returns (e: Expr)
      requires depth > 0 && FamilyOf(family) == Text
      modifies this`aliasCounter
      ensures aliasCounter >= old(aliasCounter)
      ensures ScalarOk(e, scope, Text, depth)
      decreases 0, 0, 0, depth, 1
    {
      var lhs := GenScalar(family, scope, depth - 1);
      var rhs := GenScalar(family, scope, depth - 1);
      GrowOk(lhs, scope, Text, depth);
      GrowOk(rhs, scope, Text, depth);
      ConcatOk(lhs, rhs, scope, family, depth);
      e := Expr(Node.Binary(Concat, lhs, rhs), family);
    }

    method GenScalar(family: ColumnType, scope: Scope, depth: nat) returns (e: Expr)
      modifies this`aliasCounter
      ensures aliasCounter >= old(aliasCounter)
      ensures ScalarOk(e, scope, FamilyOf(family), depth)
      decreases 0, 0, 0, depth, 2
    {
      var fam := FamilyOf(family);
      var pick := LeafPick;
      if depth > 0 && fam != Boolean && fam != Binary8 {
        var choices := ScalarChoices(fam);
        var k := Draw(0, |choices| - 1);
        pick := choices[k];
        assert pick in choices;
      }
      match pick {
        case LeafPick =>
          e := GenLeaf(family, scope);
          LeafOk(e, scope, fam, depth);
        case LiteralPick =>
          e := GenLiteral(family, 0);
          LeafOk(e, scope, fam, depth);
        case ArithPick => e := GenArith(family, scope, depth);
        case ModPick => e := GenMod(scope, depth);
        case AbsPick => e := GenCallOne(Abs, family, scope, depth);
        case LengthPick => e := GenCallOne(Length, family, scope, depth);
        case CoalescePick => e := GenCallTwo(Coalesce, family, scope, depth);
        case NullifPick => e := GenCallTwo(Nullif, family, scope, depth);
        case CasePick => e := GenCase(family, scope, depth);
        case LowerUpperPick =>
          var lower := Flip();
          e := GenCallOne(if lower then Lower else Upper, family, scope, depth);
        case ConcatPick => e := GenConcat(family, scope, depth);
      }
    }

    /** A plain query over outer, nested one level deeper. */
    method GenNested(outer: Scope, subqDepth: nat) returns (q: QuerySpec, ghost own: Scope)
      requires HaveColumns(tables) && tables != []
      modifies this`aliasCounter
      ensures NestedFits(q, own, outer, tables, Budget(subqDepth), old(aliasCounter), aliasCounter)
      ensures old(aliasCounter) <= aliasCounter
      decreases 0, Budget(subqDepth), 3, 0, 0
    {
      q, own := GenQuery(Standalone, None, outer, subqDepth, false);
      assert Readable(tables, [], None) == Names(tables);
    }

    method GenBool(scope: Scope, depth: nat, subqDepth: nat) returns (e: Expr)
      requires subqDepth < cfg.maxSubqueryDepth ==> HaveColumns(tables)
      modifies this`aliasCounter
      ensures BoolFits(e, scope, tables, depth, Budget(subqDepth), old(aliasCounter), aliasCounter)
      decreases 0, Budget(subqDepth), 0, depth, 4
    {
      var families := FamiliesIn(scope);
      var roll := Roll(cfg.subqueryProb);
      var nested := tables != [] && subqDepth < cfg.maxSubqueryDepth && roll;
      var choices := BoolChoices(depth > 0, Numeric in families, Text in families, nested);
      var k := Draw(0, |choices| - 1);
      var pick := choices[k];
      assert pick in choices;
      match pick {
        case CmpPick => e := GenCmp(scope, families, depth, subqDepth);
        case AndOrPick =>
          var conj := Flip();
          e := GenLogical(if conj then And else Or, scope, depth, subqDepth);
        case NotPick => e := GenNot(scope, depth, subqDepth);
        case SubqueryPick => e := GenSubqueryBool(scope, depth, subqDepth);
        case _ =>
          match pick {
            case IsNullPick => e := GenIsNull(scope, families, depth);
            case BetweenPick => e := GenBetween(scope, depth);
            case InListPick => e := GenInList(scope, families, depth);
            case LikePick => e := GenLike(scope, depth);
            case _ =>
              e := GenLeaf(BOOL, scope);
              BoolLeafOk(e, scope, depth);
          }
          FlatFits(e, scope, tables, depth, Budget(subqDepth), old(aliasCounter), aliasCounter);
      }
    }

    method GenNot(scope: Scope, depth: nat, subqDepth: nat) returns (e: Expr)
      requires depth > 0 && (subqDepth < cfg.maxSubqueryDepth ==> HaveColumns(tables))
      modifies this`aliasCounter
      ensures BoolFits(e, scope, tables, depth, Budget(subqDepth), old(aliasCounter), aliasCounter)
      decreases 0, Budget(subqDepth), 0, depth, 3
    {
      var arg := GenBool(scope, depth - 1, subqDepth);
      e := Expr(Unary(Not, arg), BOOL);
      NotFits(arg, scope, tables, depth, Budget(subqDepth), old(aliasCounter), aliasCounter);
    }

    method GenLogical(op: BinOp, scope: Scope, depth: nat, subqDepth: nat) returns (e: Expr)
      requires depth > 0 && Logical(op) && (subqDepth < cfg.maxSubqueryDepth ==> HaveColumns(tables))
      modifies this`aliasCounter
      ensures BoolFits(e, scope, tables, depth, Budget(subqDepth), old(aliasCounter), aliasCounter)
      decreases 0, Budget(subqDepth), 0, depth, 3
    {
      hide BoolFits;
      var lhs := GenBool(scope, depth - 1, subqDepth);
      ghost var mid := aliasCounter;
      var rhs := GenBool(scope, depth - 1, subqDepth);
      e := Expr(Node.Binary(op, lhs, rhs), BOOL);
      LogicalFits(op, lhs, rhs, scope, tables, depth, Budget(subqDepth), old(aliasCounter), mid, aliasCounter);
    }

    /** A comparison. Its right side may be a scalar subquery that selects one
        item of the compared family. */
    method GenCmp(scope: Scope, families: seq<Family>, depth: nat, subqDepth: nat) returns (e: Expr)
      requires subqDepth < cfg.maxSubqueryDepth ==> HaveColumns(tables)
      modifies this`aliasCounter
      ensures BoolFits(e, scope, tables, depth, Budget(subqDepth), old(aliasCounter), aliasCounter)
      decreases 0, Budget(subqDepth), 0, depth, 3
    {
      var fam := PickFamily(families);
      var leafOnly := fam == Boolean || fam == Binary8;
      var op := GenCmpOp(leafOnly);
      var childDepth := if depth > 0 then depth - 1 else 0;
      var lhs := GenScalar(Representative(fam), scope, childDepth);
      ghost var mid := aliasCounter;
      var subquery := Roll(cfg.subqueryProb);
      if !leafOnly && tables != [] && subqDepth < cfg.maxSubqueryDepth && subquery {
        var sub := GenScalarSubquery(scope, fam, subqDepth);
        if sub.Some? {
          e := Expr(Node.Binary(op, lhs, Expr(ScalarSubquery(sub.value), Representative(fam))), BOOL);
          CmpFits(op, lhs, sub.value, scope, fam, tables, depth, Budget(subqDepth + 1), mid, aliasCounter);
          BoolWiden(e, scope, tables, depth, Budget(subqDepth), old(aliasCounter), mid, aliasCounter);
          return;
        }
      }
      var rhs := GenScalar(Representative(fam), scope, childDepth);
      e := Expr(Node.Binary(op, lhs, rhs), BOOL);
      if depth > 0 {
        GrowOk(lhs, scope, fam, depth);
        GrowOk(rhs, scope, fam, depth);
      }
      CmpFlatOk(op, lhs, rhs, scope, fam, depth);
      FlatFits(e, scope, tables, depth, Budget(subqDepth), old(aliasCounter), aliasCounter);
    }

    method GenScalarSubquery(scope: Scope, fam: Family, subqDepth: nat) returns (r: Option<QuerySpec>)
      requires HaveColumns(tables) && tables != [] && subqDepth < cfg.maxSubqueryDepth
      modifies this`aliasCounter
      ensures old(aliasCounter) <= aliasCounter
      ensures r.Some? ==>
        OperandFits(r.value, Some(1), scope, fam, tables, Budget(subqDepth + 1), old(aliasCounter), aliasCounter)
      decreases 0, Budget(subqDepth), 0, 0, 2
    {
      hide NestedFits, OperandFits;
      var sub, own := GenNested(scope, subqDepth + 1);
      var matching := Matching(sub.items, fam);
      if matching == [] {
        return None;
      }
      var k := Draw(0, |matching| - 1);
      assert matching[k] in matching;
      TrimOperand(sub, matching[k], Some(1), own, scope, tables, Budget(subqDepth + 1), old(aliasCounter),
        aliasCounter);
      r := Some(TrimToSingleItem(sub, matching[k]).(limit := Some(1)));
    }

    method GenSubqueryBool(scope: Scope, depth: nat, subqDepth: nat) returns (e: Expr)
      requires HaveColumns(tables) && tables != [] && subqDepth < cfg.maxSubqueryDepth
      modifies this`aliasCounter
      ensures BoolFits(e, scope, tables, depth, Budget(subqDepth), old(aliasCounter), aliasCounter)
      decreases 0, Budget(subqDepth), 0, 0, 3
    {
      var sub, own := GenNested(scope, subqDepth + 1);
      var negated := Flip();
      var anyRow := Flip();
      if anyRow {
        e := Expr(Exists(sub, negated), BOOL);
        ExistsFits(sub, negated, own, scope, tables, depth, Budget(subqDepth + 1), old(aliasCounter), aliasCounter);
        return;
      }
      NestedHasItems(sub, own, scope, tables, Budget(subqDepth + 1), old(aliasCounter), aliasCounter);
      var keep := Draw(0, |sub.items| - 1);
      TrimOperand(sub, keep, None, own, scope, tables, Budget(subqDepth + 1), old(aliasCounter), aliasCounter);
      var trimmed := TrimToSingleItem(sub, keep);
      var arg := GenLeaf(trimmed.items[0].expr.ty, scope);
      e := Expr(InSubquery(arg, trimmed, negated), BOOL);
      InFits(arg, trimmed, negated, scope, tables, depth, Budget(subqDepth + 1), old(aliasCounter), aliasCounter);
    }

    /** A query over outer. Extras are a CTE, a window call and a set operation. */
    method GenQuery(purpose: Purpose, target: Option<Table>, outer: Scope, subqDepth: nat, extras: bool)
      returns (q: QuerySpec, ghost own: Scope)
      requires HaveColumns(tables) && tables != [] && (target.None? ==> purpose != PkSelect)
      requires target.Some? ==> target.value.columns != []
      requires purpose == PkSelect ==> !extras
      modifies this`aliasCounter
      ensures QueryOk(q, own, outer, tables, target, old(aliasCounter), aliasCounter)
      ensures !extras ==> Plain(q)
      ensures purpose == PkSelect ==> PkShape(q, own, target)
      ensures q.setOpKind in {Intersect, Except} ==> supportsIntersect
      ensures |q.joins| <= cfg.maxJoins && FilterNesting(q) <= Budget(subqDepth)
      decreases if extras then 1 else 0, Budget(subqDepth), 2, 0, 0
    {
      NoCtesOk(tables, aliasCounter);
      hide QueryOk, Owned, Names, CteOk, CteSources, Nesting, PlainList;
      var ctes: seq<Cte> := [];
      var cte := Roll(cfg.cteProb);
      if extras && cte {
        ctes := GenCtes(subqDepth);
      }
      var scope, isAgg;
      q, scope, isAgg := GenCore(purpose, target, outer, ctes, extras, old(aliasCounter));
      own := scope;
      var filtered := Roll(75);
      if filtered {
        q := AddFilter(q, scope, outer, target, subqDepth, old(aliasCounter));
      }
      q := AddTail(q, scope, outer, target, purpose, isAgg, old(aliasCounter));
      var setOp := Roll(cfg.setOpProb);
      if extras && setOp {
        q := AddSetOp(q, scope, outer, target, subqDepth, old(aliasCounter));
      }
    }

    /** FROM, the joins and the select list. */
    method GenCore(purpose: Purpose, target: Option<Table>, outer: Scope, ctes: seq<Cte>, extras: bool,
            ghost before: nat)
      returns (q: QuerySpec, own: Scope, isAgg: bool)
      requires HaveColumns(tables) && tables != [] && (target.None? ==> purpose != PkSelect)
      requires target.Some? ==> target.value.columns != []
      requires purpose == PkSelect ==> !extras
      requires before <= aliasCounter && CteOk(ctes, tables) &&
        Owned(CteSources(ctes), before, aliasCounter, Names(tables))
      modifies this`aliasCounter
      ensures QueryOk(q, own, outer, tables, target, before, aliasCounter)
      ensures q == Bare(ctes, q.from, q.joins, q.items, q.groupBy, q.having) && |q.joins| <= cfg.maxJoins
      ensures purpose == PkSelect ==> PkItems(q, own, target) && !isAgg
      ensures !isAgg ==> PlainList(q.items, q.groupBy, q.having, own)
      decreases if extras then 1 else 0, 0, 1, 0, 0
    {
      hide QueryOk, ListFits, Owned, QueryFits, CteTable;
      var cands := tables + (if ctes == [] then [] else [CteTable(ctes[0])]);
      CandsHaveColumns(tables, ctes, cands);
      ghost var c1 := aliasCounter;
      var from, joins;
      from, joins, own := GenFrom(purpose, cands, target);
      ghost var c2 := aliasCounter;
      var items, groupBy, having;
      isAgg, items, groupBy, having := GenItems(purpose, own, extras);
      q := Bare(ctes, from, joins, items, groupBy, having);
      CoreFits(q, own, outer, tables, cands, target, before, c1, c2, aliasCounter);
    }

    /** WHERE over the query's scope, or over the outer one too. */
    method AddFilter(q: QuerySpec, own: Scope, outer: Scope, target: Option<Table>, subqDepth: nat, ghost before: nat)
      returns (r: QuerySpec)
      requires HaveColumns(tables) && q.filter.None? && q.setOpRhs.None?
      requires QueryOk(q, own, outer, tables, target, before, aliasCounter)
      modifies this`aliasCounter
      ensures QueryOk(r, own, outer, tables, target, before, aliasCounter) && r == q.(filter := r.filter)
      ensures FilterNesting(r) <= Budget(subqDepth)
      decreases 0, Budget(subqDepth), 1, 0, 0
    {
      ghost var mid := aliasCounter;
      var correlate := Roll(cfg.correlationProb);
      var scope := if outer != [] && correlate then own + outer else own;
      var e := GenBool(scope, cfg.maxExprDepth, subqDepth);
      r := q.(filter := Some(e));
      FilterFits(q, e, own, outer, tables, target, before, mid, aliasCounter);
    }

    method AddTail(q: QuerySpec, own: Scope, outer: Scope, target: Option<Table>, purpose: Purpose, isAgg: bool,
            ghost before: nat)
      returns (r: QuerySpec)
      requires QueryOk(q, own, outer, tables, target, before, aliasCounter) && q.setOpRhs.None? && q.limit.None? &&
        q.offset.None? && !q.distinct
      requires !isAgg ==> PlainList(q.items, q.groupBy, q.having, own)
      requires purpose == PkSelect ==> !isAgg
      ensures QueryOk(r, own, outer, tables, target, before, aliasCounter)
      ensures r == q.(orderBy := r.orderBy, limit := r.limit, offset := r.offset, distinct := r.distinct)
      ensures purpose == PkSelect ==> r.limit.None? && r.offset.None? && (r.distinct <==> r.joins != [])
    {
      var distinct := purpose == PkSelect && q.joins != [];
      var orderBy: seq<OrderItem> := [];
      var ordered := Roll(cfg.orderByProb);
      if ordered {
        orderBy := GenOrder(q.items);
      }
      var limit: Option<nat>, offset: Option<nat> := None, None;
      var limited := Roll(cfg.limitProb);
      if purpose != PkSelect && limited {
        var n := Draw(1, 1000);
        limit := Some(n);
        var skip := Roll(25);
        if skip {
          var m := Draw(0, 100);
          offset := Some(m);
        }
      }
      var dedup := Roll(15);
      if purpose != PkSelect && !isAgg && dedup {
        distinct := true;
      }
      r := q.(orderBy := orderBy, limit := limit, offset := offset, distinct := distinct);
      TailOk(q, r, own, outer, tables, target, before, aliasCounter);
    }

    method AddSetOp(q: QuerySpec, own: Scope, outer: Scope, target: Option<Table>, subqDepth: nat, ghost before: nat)
      returns (r: QuerySpec)
      requires HaveColumns(tables) && tables != [] && q.setOpRhs.None?
      requires QueryOk(q, own, outer, tables, target, before, aliasCounter)
      modifies this`aliasCounter
      ensures QueryOk(r, own, outer, tables, target, before, aliasCounter)
      ensures r.joins == q.joins && r.filter == q.filter && (r.setOpKind in {Intersect, Except} ==> supportsIntersect)
      decreases 1, Budget(subqDepth), 1, 0, 0
    {
      hide QueryOk, NestedFits, SideFits;
      ghost var mid := aliasCounter;
      var body, bodyOwn := GenNested([], subqDepth + 1);
      OkLabelled(q, own, outer, tables, target, before, mid);
      var rhs := Reshape(q.items, body);
      ReshapedNested(q.items, body, rhs, bodyOwn, tables, Budget(subqDepth + 1), mid, aliasCounter);
      var kind := GenSetOpKind(supportsIntersect);
      var orderBy: seq<OrderItem> := [];
      var ordered := Roll(cfg.orderByProb);
      if ordered {
        var idx := Draw(0, |q.items| - 1);
        var desc := Flip();
        orderBy := [OrderItem(Expr(Ref(ColumnRef("", Numbered('c', idx))), q.items[idx].expr.ty), desc)];
        assert NumberedItem(orderBy[0], q.items);
      }
      r := q.(setOpRhs := Some(rhs), setOpKind := kind, orderBy := orderBy);
      SetOpOk(q, rhs, kind, orderBy, own, outer, tables, target, before, mid, aliasCounter);
    }

    /** A CTE: a plain closed query under a fresh name. */
    method GenCtes(subqDepth: nat) returns (ctes: seq<Cte>)
      requires HaveColumns(tables) && tables != []
      modifies this`aliasCounter
      ensures old(aliasCounter) <= aliasCounter && CteOk(ctes, tables)
      ensures Owned(CteSources(ctes), old(aliasCounter), aliasCounter, Names(tables))
      decreases 1, Budget(subqDepth), 1, 0, 0
    {
      var body, own := GenNested([], subqDepth + 1);
      ctes := [Cte(Numbered('w', aliasCounter), body)];
      CteFits(body, own, tables, Budget(subqDepth + 1), old(aliasCounter), aliasCounter);
      aliasCounter := aliasCounter + 1;
    }

    /** FROM and the chained joins, each under a fresh alias. */
    method GenFrom(purpose: Purpose, cands: seq<Table>, target: Option<Table>)
      returns (from: TableSource, joins: seq<Join>, own: Scope)
      requires HaveColumns(cands) && cands != [] && (target.Some? ==> target.value.columns != [])
      modifies this`aliasCounter
      ensures FromOk(purpose, joins, own, cands, old(aliasCounter) + 1, aliasCounter)
      ensures from == TableSource(own[0].table.name, own[0].alias) && own[0].alias == Numbered('u', old(aliasCounter))
      ensures if target.Some? then own[0].table == target.value else own[0].table in cands
      ensures |joins| <= cfg.maxJoins
    {
      hide FromOk, Numbered;
      var seed;
      if target.Some? {
        seed := target.value;
      } else {
        var k := Draw(0, |cands| - 1);
        seed := cands[k];
      }
      var seedAlias := FreshAlias();
      own, joins := [Entry(seedAlias, seed)], [];
      from := TableSource(seed.name, seedAlias);
      var haveCross := false;
      FromStart(purpose, own, cands, aliasCounter);
      hide HaveColumns;
      while |joins| < cfg.maxJoins
        invariant |joins| <= cfg.maxJoins && old(aliasCounter) < aliasCounter
        invariant FromOk(purpose, joins, own, cands, old(aliasCounter) + 1, aliasCounter) &&
          (haveCross || NoCross(joins))
        invariant own != [] && own[0] == Entry(seedAlias, seed)
        decreases cfg.maxJoins - |joins|
      {
        var more := Roll(cfg.joinProb);
        if !more {
          break;
        }
        var j, e := GenNextJoin(purpose, cands, joins, own, haveCross, old(aliasCounter) + 1);
        if j.None? {
          break;
        }
        haveCross := haveCross || j.value.kind == Cross;
        joins := joins + [j.value];
        own := own + [e];
      }
    }

    /** One more join, unless it would be a second cross join. */
    method GenNextJoin(purpose: Purpose, cands: seq<Table>, joins: seq<Join>, own: Scope, haveCross: bool,
            ghost lo: nat)
      returns (j: Option<Join>, e: Entry)
      requires HaveColumns(cands) && cands != []
      requires FromOk(purpose, joins, own, cands, lo, aliasCounter) && (haveCross || NoCross(joins))
      modifies this`aliasCounter
      ensures aliasCounter == old(aliasCounter) + 1
      ensures j.None? ==> FromOk(purpose, joins, own, cands, lo, aliasCounter)
      ensures j.Some? ==> FromOk(purpose, joins + [j.value], own + [e], cands, lo, aliasCounter)
      ensures j.Some? && j.value.kind == Cross ==> !haveCross
    {
      FromColumns(purpose, joins, own, cands, lo, aliasCounter);
      hide FromOk, JoinLinks, NoCross, HaveColumns, Alike, Numbered;
      ghost var from := aliasCounter;
      var b := Draw(0, |own| - 1);
      var alias := FreshAlias();
      var joined, cond := GenJoin(cands, own, alias, haveCross, b);
      e := Entry(alias, joined);
      if cond.None? && haveCross {
        j := None;
        FromWiden(purpose, joins, own, cands, lo, from);
        return;
      }
      var kind := Cross;
      if cond.Some? {
        kind := GenJoinKind(purpose);
      }
      j := Some(Join(kind, TableSource(joined.name, alias), cond));
      FromPush(purpose, joins, own, cands, lo, from, kind, cond, joined);
    }

    method GenItems(purpose: Purpose, own: Scope, extras: bool)
      returns (isAgg: bool, items: seq<SelectItem>, groupBy: seq<ColumnRef>, having: Option<Expr>)
      requires |own| > 0 && own[0].table.columns != []
      requires purpose == PkSelect ==> !extras
      modifies this`aliasCounter
      ensures old(aliasCounter) <= aliasCounter
      ensures items != [] && Labelled(items) && ListFits(items, groupBy, having, own)
      ensures |items| <= 6 && |groupBy| <= 2
      ensures !isAgg ==> PlainList(items, groupBy, having, own)
      ensures purpose == PkSelect ==>
        items == [SelectItem(ColExpr(own[0].alias, own[0].table.columns[0]), "c0")] && groupBy == [] &&
          having.None? && !isAgg
      decreases 0, 0, 0, cfg.maxExprDepth, 4
    {
      isAgg, groupBy, having := false, [], None;
      var cols := ColumnsIn(own, AllTypes());
      HasColumns(own);
      if purpose == PkSelect {
        items := [SelectItem(ColExpr(own[0].alias, own[0].table.columns[0]), "")];
        FirstResolves(own);
      } else {
        isAgg := Roll(cfg.aggregateProb);
        if isAgg {
          items, groupBy, having := GenAggItems(own, cols);
        } else {
          items := GenPlainItems(own, cols);
        }
      }
      var window := Roll(cfg.windowProb);
      if extras && !isAgg && window {
        var w := GenWindowCall(own);
        items := items + [SelectItem(w, "")];
      }
      ghost var unlabelled := items;
      items := Label(items);
      LabelFits(unlabelled, items, groupBy, having, own);
      if purpose == PkSelect {
        ZeroLabel();
        assert items == [SelectItem(ColExpr(own[0].alias, own[0].table.columns[0]), "c0")];
      }
    }

    method GenPlainItems(own: Scope, cols: seq<Expr>) returns (items: seq<SelectItem>)
      requires cols != [] && AreColumns(cols, own, AllTypes())
      modifies this`aliasCounter
      ensures old(aliasCounter) <= aliasCounter
      ensures 1 <= |items| <= 5 && PlainItems(items, own)
      decreases 0, 0, 0, cfg.maxExprDepth, 3
    {
      items := [];
      var n := Draw(1, 4);
      for i := 0 to n
        invariant |items| == i && PlainItems(items, own) && aliasCounter == old(aliasCounter)
      {
        var col := PickOf(cols);
        items := items + [SelectItem(col, "")];
      }
      var computed := Roll(25);
      if computed {
        var col := PickOf(cols);
        var e := GenScalar(col.ty, own, cfg.maxExprDepth);
        items := items + [SelectItem(e, "")];
      }
    }

    /** A standalone query or a predicate query, if there is a table to read. */
    method Generate(purpose: Purpose, target: Option<Table>) returns (r: Option<QuerySpec>, ghost own: Scope)
      requires HaveColumns(tables)
      requires purpose != PkSelect && target.Some? ==> target.value.columns != []
      modifies this`aliasCounter
      ensures r.None? <==> tables == [] || (purpose == PkSelect && (target.None? || target.value.columns == []))
      ensures r.Some? ==> QueryOk(r.value, own, [], tables, target, old(aliasCounter), aliasCounter)
      ensures r.Some? ==> ClearOver(r.value, own, [])
      ensures r.Some? && (NoCteName(tables, target) || NamesApart(r.value.ctes, tables, target)) ==>
        NamesMean(r.value, own)
      ensures r.Some? && purpose != Standalone ==> Plain(r.value)
      ensures r.Some? ==> |r.value.joins| <= cfg.maxJoins && FilterNesting(r.value) <= cfg.maxSubqueryDepth
      ensures r.Some? && r.value.setOpKind in {Intersect, Except} ==> supportsIntersect
    {
      hide QueryFits, Owned, ClearOver, NamesMean, NamesApart, NoCteName, Names, InnerSources, QuerySources, PkItems;
      own := [];
      if purpose == PkSelect {
        r, own := GeneratePkSelect(target, 0, NoLock);
        return;
      }
      if tables == [] {
        return None, own;
      }
      var q;
      q, own := GenQuery(purpose, target, [], 0, purpose == Standalone);
      QueryReadsClearly(q, own, tables, target, old(aliasCounter), aliasCounter);
      if NamesApart(q.ctes, tables, target) {
        ApartMeans(q, own, [], tables, target, old(aliasCounter), aliasCounter);
      } else if NoCteName(tables, target) {
        NoCteNameMeans(q, own, [], tables, target, old(aliasCounter), aliasCounter);
      }
      r := Some(q);
    }

    /** A select of the target's primary key, perhaps limited and locked. */
    method GeneratePkSelect(target: Option<Table>, limit: nat, lock: LockClause) returns (r: Option<QuerySpec>,
            ghost own: Scope)
      requires HaveColumns(tables)
      modifies this`aliasCounter
      ensures r.None? <==> tables == [] || target.None? || target.value.columns == []
      ensures r.Some? ==> QueryFits(r.value, own, [], tables, target) && PkItems(r.value, own, target) && Plain(r.value)
      ensures r.Some? && limit <= 1000 ==> Sized(r.value)
      ensures r.Some? ==> r.value.limit == (if limit > 0 then Some(limit) else None) && r.value.offset.None?
      ensures r.Some? ==>
        r.value.lock == (if lock == NoLock then LockSpec(NoLock, "") else LockSpec(lock, r.value.from.alias))
      ensures r.Some? ==> (r.value.distinct <==> lock == NoLock && r.value.joins != [])
      ensures r.Some? ==> Owned(QuerySources(r.value), old(aliasCounter), aliasCounter, Readable(tables, [], target))
      ensures r.Some? ==> NamesMean(r.value, own) && forall s :: s in InnerSources(r.value) ==> s.table in Names(tables)
      ensures r.Some? && r.value.setOpKind in {Intersect, Except} ==> supportsIntersect
      ensures old(aliasCounter) <= aliasCounter
      ensures r.Some? ==> ClearOver(r.value, own, [])
      ensures r.Some? ==> |r.value.joins| <= cfg.maxJoins && FilterNesting(r.value) <= cfg.maxSubqueryDepth
    {
      own := [];
      if tables == [] || target.None? || target.value.columns == [] {
        return None, own;
      }
      hide QueryFits, Owned, ClearOver, NamesMean, Names, PkItems, InnerSources, Nesting;
      var q;
      q, own := GenQuery(PkSelect, target, [], 0, false);
      QueryReadsClearly(q, own, tables, target, old(aliasCounter), aliasCounter);
      var l := if limit > 0 then Some(limit) else None;
      var spec := if lock == NoLock then q.lock else LockSpec(lock, q.from.alias);
      var distinct := q.distinct && lock == NoLock;
      LockOk(q, l, spec, distinct, own, tables, target, old(aliasCounter), aliasCounter);
      r := Some(q.(limit := l, lock := spec, distinct := distinct));
      ClearlyLocked(q, r.value, own);
      PlainMeans(r.value, own);
    }

    /** A condition for UPDATE or DELETE on the target: no subquery in it, at
        any depth, reads the target. */
    method GeneratePredicate(target: Table, qualifier: string) returns (e: Expr)
      requires HaveColumns(tables)
      modifies this
      ensures tables == Without(old(tables), target.id)
      ensures WfPred(e, [Entry(qualifier, target)], tables)
      ensures Owned(Sources(e), old(aliasCounter), aliasCounter, Names(tables))
      ensures !AliasFrom(qualifier, old(aliasCounter), aliasCounter) ==> Clear(e, [Entry(qualifier, target)])
      ensures Nesting(e) <= cfg.maxSubqueryDepth
    {
      EraseTable(target.id);
      EraseKeeps(old(tables), target.id);
      e := GenBool([Entry(qualifier, target)], cfg.maxExprDepth, 0);
      if !AliasFrom(qualifier, old(aliasCounter), aliasCounter) {
        PredicateReadsClearly(e, qualifier, target, tables, old(aliasCounter), aliasCounter);
      }
    }

    method EraseTable(id: ObjectId)
      modifies this`tables
      ensures tables == Without(old(tables), id)
    {
      var kept: seq<Table> := [];
      for i := 0 to |tables|
        invariant tables == old(tables) && kept == Without(tables[..i], id)
      {
        assert tables[..i + 1][..i] == tables[..i];
        if tables[i].id != id {
          kept := kept + [tables[i]];
        }
      }
      assert tables[..|tables|] == tables;
      tables := kept;
    }
  }
}
