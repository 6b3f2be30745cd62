/** Rendering expressions and queries as SQL text
    (core/src/querygen/render.cpp). E(e, d, k) is the text of e followed by k. */
module Rendering {
  import opened Metadata
  import opened QueryIr
  import opened Keywords
  import opened Lexing

  /** Whether || is written as a call of CONCAT, and how a double is printed. */
  datatype Dialect = Dialect(concatCall: bool, realText: real -> string)

  /** How the other dialect writes a concatenation. */
  function Foreign(d: Dialect): (x: Piece)
    ensures IsConcat(x)
  {
    if d.concatCall then Y(Bars) else K(CONCAT)
  }

  predicate IsConcat(x: Piece) { x == Y(Bars) || x == K(CONCAT) }

  // ---- format strings ----

  /** " KEYWORD" */
  function SpKw(k: Keyword, r: Pieces): Pieces { Cons(Sp, Cons(K(k), r)) }

  /** "KEYWORD " */
  function KwSp(k: Keyword, r: Pieces): Pieces { Cons(K(k), Cons(Sp, r)) }

  /** " name" */
  function SpName(w: string, r: Pieces): Pieces { Cons(Sp, Cons(Name(w), r)) }

  /** " 42" */
  function SpNum(n: nat, r: Pieces): Pieces { Cons(Sp, Cons(Num(n), r)) }

  function Open(r: Pieces): Pieces { Cons(Y(LPar), r) }

  function Close(r: Pieces): Pieces { Cons(Y(RPar), r) }

  /** ", " */
  function CommaSp(r: Pieces): Pieces { Cons(Y(Comma), Cons(Sp, r)) }

  /** "alias.column", or the column alone */
  function RefText(c: ColumnRef, k: Pieces): Pieces {
    if c.alias == "" then Cons(Name(c.column), k)
    else Cons(Name(c.alias), Cons(Y(Dot), Cons(Name(c.column), k)))
  }

  function RefList(refs: seq<ColumnRef>, k: Pieces): Pieces {
    if refs == [] then k
    else if |refs| == 1 then RefText(refs[0], k)
    else RefText(refs[0], CommaSp(RefList(refs[1..], k)))
  }

  function LitText(v: Value, d: Dialect, k: Pieces): Pieces {
    match v
    case NullValue => Cons(K(NULL), k)
    case IntValue(n) => if n >= 0 then Cons(Num(n), k) else Cons(Y(Sign.Minus), Cons(Num(-n), k))
    case RealValue(x) => Cons(Name(d.realText(x)), k)
    case TextValue(s) => Cons(Quoted(s), k)
    case BoolValue(b) => Cons(K(if b then TRUE else FALSE), k)
  }

  function OpText(op: BinOp): Piece {
    match op
    case Eq => Y(Equal)
    case Ne => Y(Differ)
    case Lt => Y(Less)
    case Le => Y(AtMost)
    case Gt => Y(More)
    case Ge => Y(AtLeast)
    case Add => Y(Plus)
    case Sub => Y(Minus)
    case Mul => Y(Star)
    case Div => Y(Slash)
    case Mod => Y(Percent)
    case And => K(AND)
    case Or => K(OR)
    case Like => K(LIKE)
    case Concat => Y(Bars)
  }

  /** " op " */
  function SpOp(op: BinOp, r: Pieces): Pieces { Cons(Sp, Cons(OpText(op), Cons(Sp, r))) }

  function FuncWord(fn: Func): Keyword {
    match fn
    case Lower => LOWER
    case Upper => UPPER
    case Length => LENGTH
    case Abs => ABS
    case Coalesce => COALESCE
    case Nullif => NULLIF
  }

  function AggWord(fn: AggFunc): Keyword {
    match fn
    case AggCount => COUNT
    case AggSum => SUM
    case AggMin => MIN
    case AggMax => MAX
    case AggAvg => AVG
  }

  function WinWord(fn: WinFunc): Keyword {
    match fn
    case RowNumber => ROW_NUMBER
    case Rank => RANK
    case DenseRank => DENSE_RANK
    case WinCount => COUNT
    case WinSum => SUM
    case WinMin => MIN
    case WinMax => MAX
    case WinAvg => AVG
  }

  predicate Ranking(fn: WinFunc) { fn == RowNumber || fn == Rank || fn == DenseRank }

  function JoinText(kind: JoinKind, k: Pieces): Pieces {
    match kind
    case Inner => Cons(K(JOIN), k)
    case Left => KwSp(LEFT, Cons(K(JOIN), k))
    case Right => KwSp(RIGHT, Cons(K(JOIN), k))
    case Cross => KwSp(CROSS, Cons(K(JOIN), k))
  }

  function SetOpText(kind: SetOpKind, k: Pieces): Pieces {
    match kind
    case UnionAll => KwSp(UNION, Cons(K(ALL), k))
    case UnionDistinct => Cons(K(UNION), k)
    case Intersect => Cons(K(INTERSECT), k)
    case Except => Cons(K(EXCEPT), k)
  }

  function OrderRefs(refs: seq<ColumnRef>, k: Pieces): Pieces {
    KwSp(ORDER, KwSp(BY, RefList(refs, k)))
  }

  /** What stands inside OVER (...) */
  function OverText(partitionBy: seq<ColumnRef>, over: seq<ColumnRef>, k: Pieces): Pieces {
    if partitionBy == [] then if over == [] then k else OrderRefs(over, k)
    else KwSp(PARTITION, KwSp(BY, RefList(partitionBy, if over == [] then k else Cons(Sp, OrderRefs(over, k)))))
  }

  function Negation(negated: bool, k: Pieces): Pieces { if negated then SpKw(NOT, k) else k }

  // ---- expressions ----

  function ArgsOf(e: Expr): seq<Expr> {
    match e.node
    case InList(_, items, _) => items
    case Call(_, args) => args
    case _ => []
  }

  function E(e: Expr, d: Dialect, k: Pieces): Pieces
    decreases e, 2, 0
  {
    match e.node
    case Ref(c) => RefText(c, k)
    case Lit(v) => LitText(v, d, k)
    case Unary(op, a) =>
      (match op
       case Not => Open(KwSp(NOT, E(a, d, Close(k))))
       case IsNull => Open(E(a, d, SpKw(IS, SpKw(NULL, Close(k)))))
       case IsNotNull => Open(E(a, d, SpKw(IS, SpKw(NOT, SpKw(NULL, Close(k))))))
       case Neg => Open(Cons(Y(Minus), E(a, d, Close(k)))))
    case Binary(op, l, r) =>
      if op == Concat && d.concatCall then Cons(K(CONCAT), Open(E(l, d, CommaSp(E(r, d, Close(k))))))
      else Open(E(l, d, SpOp(op, E(r, d, Close(k)))))
    case Between(a, lo, hi) =>
      Open(E(a, d, SpKw(BETWEEN, Cons(Sp, E(lo, d, SpKw(AND, Cons(Sp, E(hi, d, Close(k)))))))))
    case InList(a, _, negated) =>
      Open(E(a, d, Negation(negated, SpKw(IN, Cons(Sp, Open(Args(e, 0, d, Close(Close(k)))))))))
    case InSubquery(a, q, negated) =>
      Open(E(a, d, Negation(negated, SpKw(IN, Cons(Sp, Open(Q(q, d, Close(Close(k)))))))))
    case Exists(q, negated) =>
      var r := KwSp(EXISTS, Open(Q(q, d, Close(Close(k)))));
      Open(if negated then KwSp(NOT, r) else r)
    case ScalarSubquery(q) => Open(Q(q, d, Close(k)))
    case Call(fn, _) => Cons(K(FuncWord(fn)), Open(Args(e, 0, d, Close(k))))
    case Case(_, otherwise) =>
      var end := SpKw(END, k);
      Cons(K(CASE), Whens(e, 0, d, if otherwise.Some? then SpKw(ELSE, Cons(Sp, E(otherwise.value, d, end))) else end))
    case Agg(fn, arg, distinct) =>
      if arg.None? then Cons(K(COUNT), Open(Cons(Y(Star), Close(k))))
      else
        var r := E(arg.value, d, Close(k));
        Cons(K(AggWord(fn)), Open(if distinct then KwSp(DISTINCT, r) else r))
    case Window(fn, arg, partitionBy, over) =>
      var r := Close(SpKw(OVER, Cons(Sp, Open(OverText(partitionBy, over, Close(k))))));
      Cons(K(WinWord(fn)), Open(
        if Ranking(fn) then r else if arg.Some? then E(arg.value, d, r) else Cons(Y(Star), r)))
  }

  function Args(e: Expr, i: nat, d: Dialect, k: Pieces): Pieces
    requires i <= |ArgsOf(e)|
    decreases e, 1, |ArgsOf(e)| - i
  {
    if i == |ArgsOf(e)| then k
    else E(ArgsOf(e)[i], d, if i + 1 == |ArgsOf(e)| then k else CommaSp(Args(e, i + 1, d, k)))
  }

  function Whens(e: Expr, i: nat, d: Dialect, k: Pieces): Pieces
    requires e.node.Case? && i <= |e.node.whens|
    decreases e, 1, |e.node.whens| - i
  {
    if i == |e.node.whens| then k
    else
      var w := e.node.whens[i];
      SpKw(WHEN, Cons(Sp, E(w.cond, d, SpKw(THEN, Cons(Sp, E(w.result, d, Whens(e, i + 1, d, k)))))))
  }

  // ---- queries ----

  function Items(q: QuerySpec, i: nat, d: Dialect, k: Pieces): Pieces
    requires i <= |q.items|
    decreases q, 1, |q.items| - i
  {
    if i == |q.items| then k
    else
      E(q.items[i].expr, d, SpKw(AS, SpName(q.items[i].colAlias,
        if i + 1 == |q.items| then k else CommaSp(Items(q, i + 1, d, k)))))
  }

  function Joins(q: QuerySpec, i: nat, d: Dialect, k: Pieces): Pieces
    requires i <= |q.joins|
    decreases q, 1, |q.joins| - i
  {
    if i == |q.joins| then k
    else
      var j := q.joins[i];
      var r := Joins(q, i + 1, d, k);
      Cons(Sp, JoinText(j.kind, SpName(j.source.table, SpName(j.source.alias,
        if j.condition.Some? then SpKw(ON, Cons(Sp, E(j.condition.value, d, r))) else r))))
  }

  function Orders(q: QuerySpec, i: nat, d: Dialect, k: Pieces): Pieces
    requires i <= |q.orderBy|
    decreases q, 1, |q.orderBy| - i
  {
    if i == |q.orderBy| then k
    else
      var r := if i + 1 == |q.orderBy| then k else CommaSp(Orders(q, i + 1, d, k));
      E(q.orderBy[i].expr, d, if q.orderBy[i].desc then SpKw(DESC, r) else r)
  }

  function Ctes(q: QuerySpec, i: nat, d: Dialect, k: Pieces): Pieces
    requires i <= |q.ctes|
    decreases q, 1, |q.ctes| - i
  {
    if i == |q.ctes| then k
    else
      Cons(Name(q.ctes[i].name), SpKw(AS, Cons(Sp, Open(Q(q.ctes[i].query, d, Close(
        if i + 1 == |q.ctes| then k else CommaSp(Ctes(q, i + 1, d, k))))))))
  }

  /** SELECT up to HAVING. */
  function Body(q: QuerySpec, d: Dialect, k: Pieces): Pieces
    decreases q, 2, 0
  {
    var having := if q.having.Some? then SpKw(HAVING, Cons(Sp, E(q.having.value, d, k))) else k;
    var group := if q.groupBy != [] then SpKw(GROUP, SpKw(BY, Cons(Sp, RefList(q.groupBy, having)))) else having;
    var filter := if q.filter.Some? then SpKw(WHERE, Cons(Sp, E(q.filter.value, d, group))) else group;
    var from := SpKw(FROM, SpName(q.from.table, SpName(q.from.alias, Joins(q, 0, d, filter))));
    KwSp(SELECT, if q.distinct then KwSp(DISTINCT, Items(q, 0, d, from)) else Items(q, 0, d, from))
  }

  function LockText(lock: LockSpec, k: Pieces): Pieces {
    if lock.clause == NoLock then k
    else
      var r := if lock.ofAlias == "" then k else SpKw(OF, SpName(lock.ofAlias, k));
      SpKw(FOR, SpKw(if lock.clause == ForUpdate then UPDATE else SHARE, r))
  }

  function Limits(q: QuerySpec, k: Pieces): Pieces {
    var lock := LockText(q.lock, k);
    var offset := if q.offset.Some? then SpKw(OFFSET, SpNum(q.offset.value, lock)) else lock;
    if q.limit.Some? then SpKw(LIMIT, SpNum(q.limit.value, offset)) else offset
  }

  /** ORDER BY up to the lock. */
  function Tail(q: QuerySpec, d: Dialect, k: Pieces): Pieces
    decreases q, 2, 0
  {
    if q.orderBy == [] then Limits(q, k) else SpKw(ORDER, SpKw(BY, Cons(Sp, Orders(q, 0, d, Limits(q, k)))))
  }

  /** The body, alone or as the left side of a set operation, and the tail. */
  function Core(q: QuerySpec, d: Dialect, k: Pieces): Pieces
    decreases q, 3, 0
  {
    if q.setOpRhs.None? then Body(q, d, Tail(q, d, k))
    else
      Open(Body(q, d,
        Close(Cons(Sp, SetOpText(q.setOpKind, Cons(Sp, Open(Q(q.setOpRhs.value, d, Close(Tail(q, d, k))))))))))
  }

  function Q(q: QuerySpec, d: Dialect, k: Pieces): Pieces
    decreases q, 4, 0
  {
    if q.ctes == [] then Core(q, d, k) else KwSp(WITH, Ctes(q, 0, d, Cons(Sp, Core(q, d, k))))
  }

  /** The text of an expression, and of a query. */
  function RenderExpr(e: Expr, d: Dialect): string { Lexing.Text(E(e, d, Pieces.Nil)) }

  function RenderQuery(q: QuerySpec, d: Dialect): string { Lexing.Text(Q(q, d, Pieces.Nil)) }

  /** String literals are written character by character. */
  method EscapeStringLiteral(s: string) returns (out: string)
    ensures out == Written(Quoted(s))
  {
    out := "'";
    for i := 0 to |s|
      invariant out == "'" + Doubled(s[..i])
    {
      DoubledSnoc(s[..i], s[i]);
      assert s[..i + 1] == s[..i] + [s[i]];
      if s[i] == '\'' {
        out := out + "''";
      } else {
        out := out + [s[i]];
      }
    }
    assert s[..|s|] == s;
    out := out + "'";
  }

  lemma {:induction false} DoubledSnoc(s: string, c: char)
    ensures Doubled(s + [c]) == Doubled(s) + if c == '\'' then "''" else [c]
  {
    if s == "" {
      assert Doubled([c][1..]) == "";
    } else {
      assert (s + [c])[1..] == s[1..] + [c];
      DoubledSnoc(s[1..], c);
    }
  }

  // ---- what the generator builds ----

  predicate GoodRef(c: ColumnRef) { (c.alias == "" || GoodName(c.alias)) && GoodName(c.column) }

  predicate GoodRefs(refs: seq<ColumnRef>) { forall i :: 0 <= i < |refs| ==> GoodRef(refs[i]) }

  predicate GoodSource(s: TableSource) { GoodName(s.table) && GoodName(s.alias) }

  /** An expression of the shapes the generator builds: names that spell no
      keyword, no negative literal, plain subqueries, and nothing stored that the
      text does not show; floating literals only if allowed. */
  predicate Shaped(e: Expr, floats: bool)
    decreases e
  {
    match e.node
    case Ref(c) => GoodRef(c)
    case Lit(v) => (v.RealValue? ==> floats) && (v.IntValue? ==> v.n >= 0)
    case Unary(_, a) => Shaped(a, floats)
    case Binary(_, l, r) => Shaped(l, floats) && Shaped(r, floats)
    case Between(a, lo, hi) => Shaped(a, floats) && Shaped(lo, floats) && Shaped(hi, floats)
    case InList(a, items, _) => Shaped(a, floats) && forall i :: 0 <= i < |items| ==> Shaped(items[i], floats)
    case InSubquery(a, q, _) => Shaped(a, floats) && Plain(q) && ShapedQuery(q, floats)
    case Exists(q, _) => Plain(q) && ShapedQuery(q, floats)
    case ScalarSubquery(q) => Plain(q) && ShapedQuery(q, floats)
    case Call(_, args) => forall i :: 0 <= i < |args| ==> Shaped(args[i], floats)
    case Case(whens, otherwise) =>
      (forall i :: 0 <= i < |whens| ==> Shaped(whens[i].cond, floats) && Shaped(whens[i].result, floats))
      && (otherwise.Some? ==> Shaped(otherwise.value, floats))
    case Agg(fn, arg, distinct) =>
      if arg.Some? then Shaped(arg.value, floats) else fn == AggCount && !distinct
    case Window(fn, arg, partitionBy, over) =>
      GoodRefs(partitionBy) && GoodRefs(over) && (arg.Some? ==> !Ranking(fn) && Shaped(arg.value, floats))
  }

  predicate ShapedQuery(q: QuerySpec, floats: bool)
    decreases q
  {
    && GoodSource(q.from) && q.items != [] && GoodRefs(q.groupBy)
    && (forall i :: 0 <= i < |q.items| ==> Shaped(q.items[i].expr, floats) && GoodName(q.items[i].colAlias))
    && (forall i :: 0 <= i < |q.joins| ==>
          GoodSource(q.joins[i].source) && (q.joins[i].kind == Cross <==> q.joins[i].condition.None?)
          && (q.joins[i].condition.Some? ==> Shaped(q.joins[i].condition.value, floats)))
    && (forall i :: 0 <= i < |q.orderBy| ==> Shaped(q.orderBy[i].expr, floats))
    && (forall i :: 0 <= i < |q.ctes| ==> GoodName(q.ctes[i].name) && ShapedQuery(q.ctes[i].query, floats))
    && (q.filter.Some? ==> Shaped(q.filter.value, floats)) && (q.having.Some? ==> Shaped(q.having.value, floats))
    && (q.lock.ofAlias != "" ==> q.lock.clause != NoLock && GoodName(q.lock.ofAlias))
    && (if q.setOpRhs.Some? then ShapedQuery(q.setOpRhs.value, floats) else q.setOpKind == UnionAll)
  }
}
