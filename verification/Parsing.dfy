/** A parser for rendered SQL. It reads either form of concatenation and leaves
    every type annotation at INT. */
module Parsing {
  import opened Metadata
  import opened QueryIr
  import opened Keywords
  import opened Lexing
  import opened Rendering

  datatype Parsed<+T> = Fail | Got(value: T, rest: Pieces)
  {
    predicate IsFailure() { Fail? }

    function PropagateFailure<U>(): Parsed<U>
      requires Fail?
    {
      Parsed<U>.Fail
    }

    function Extract(): (T, Pieces)
      requires Got?
    {
      (value, rest)
    }
  }

  function Len(ps: Pieces): nat { if ps.Nil? then 0 else 1 + Len(ps.tail) }

  function Untyped(n: Node): Expr { Expr(n, INT) }

  // ---- format strings ----

  predicate Starts(p: Piece, ps: Pieces) { ps.Cons? && ps.head == p }

  predicate StartsSp(p: Piece, ps: Pieces) { ps.Cons? && ps.head == Sp && Starts(p, ps.tail) }

  function After(p: Piece, ps: Pieces): (r: Pieces)
    requires Starts(p, ps)
    ensures Len(r) < Len(ps)
  {
    ps.tail
  }

  function AfterSp(p: Piece, ps: Pieces): (r: Pieces)
    requires StartsSp(p, ps)
    ensures Len(r) < Len(ps)
  {
    ps.tail.tail
  }

  function Eat(p: Piece, ps: Pieces): (r: Parsed<Piece>)
    ensures r.Got? ==> Len(r.rest) < Len(ps)
  {
    if Starts(p, ps) then Got(p, ps.tail) else Fail
  }

  /** " piece" */
  function EatSp(p: Piece, ps: Pieces): (r: Parsed<Piece>)
    ensures r.Got? ==> Len(r.rest) < Len(ps)
  {
    if StartsSp(p, ps) then Got(p, ps.tail.tail) else Fail
  }

  /** "piece " */
  function EatThenSp(p: Piece, ps: Pieces): (r: Parsed<Piece>)
    ensures r.Got? ==> Len(r.rest) < Len(ps)
  {
    if Starts(p, ps) && Starts(Sp, ps.tail) then Got(p, ps.tail.tail) else Fail
  }

  function EatName(ps: Pieces): (r: Parsed<string>)
    ensures r.Got? ==> Len(r.rest) < Len(ps)
  {
    if ps.Cons? && ps.head.Name? then Got(ps.head.name, ps.tail) else Fail
  }

  /** " name" */
  function EatSpName(ps: Pieces): (r: Parsed<string>)
    ensures r.Got? ==> Len(r.rest) < Len(ps)
  {
    if ps.Cons? && ps.head == Sp && ps.tail.Cons? && ps.tail.head.Name?
    then Got(ps.tail.head.name, ps.tail.tail)
    else Fail
  }

  function EatSpNum(ps: Pieces): (r: Parsed<nat>)
    ensures r.Got? ==> Len(r.rest) < Len(ps)
  {
    if ps.Cons? && ps.head == Sp && ps.tail.Cons? && ps.tail.head.Num? then Got(ps.tail.head.n, ps.tail.tail) else Fail
  }

  function ParseRef(ps: Pieces): (r: Parsed<ColumnRef>)
    ensures r.Got? ==> Len(r.rest) < Len(ps)
  {
    var (a, r1) :- EatName(ps);
    if Starts(Y(Dot), r1) then
      var r2 := After(Y(Dot), r1);
      var (c, r3) :- EatName(r2);
      Got(ColumnRef(a, c), r3)
    else Got(ColumnRef("", a), r1)
  }

  function ParseRefs(ps: Pieces): (r: Parsed<seq<ColumnRef>>)
    ensures r.Got? ==> Len(r.rest) < Len(ps)
    decreases Len(ps)
  {
    var (c, r1) :- ParseRef(ps);
    if Starts(Y(Comma), r1) then
      var (_, r2) :- EatThenSp(Y(Comma), r1);
      var (cs, r3) :- ParseRefs(r2);
      Got([c] + cs, r3)
    else Got([c], r1)
  }

  /** PARTITION BY ..., ORDER BY ..., both or neither. */
  function ParseOver(ps: Pieces): (r: Parsed<(seq<ColumnRef>, seq<ColumnRef>)>)
    ensures r.Got? ==> Len(r.rest) <= Len(ps)
  {
    if Starts(K(PARTITION), ps) then
      var (_, r1) :- EatThenSp(K(PARTITION), ps);
      var (_, r2) :- EatThenSp(K(BY), r1);
      var (parts, r3) :- ParseRefs(r2);
      if Starts(Sp, r3) then
        var r4 := After(Sp, r3);
        var (over, r5) :- ParseOrderRefs(r4);
        Got((parts, over), r5)
      else Got((parts, []), r3)
    else if Starts(K(ORDER), ps) then
      var (over, r1) :- ParseOrderRefs(ps);
      Got(([], over), r1)
    else Got(([], []), ps)
  }

  function ParseOrderRefs(ps: Pieces): (r: Parsed<seq<ColumnRef>>)
    ensures r.Got? ==> Len(r.rest) < Len(ps)
  {
    var (_, r1) :- EatThenSp(K(ORDER), ps);
    var (_, r2) :- EatThenSp(K(BY), r1);
    ParseRefs(r2)
  }

  /** " OVER (...)" */
  function ParseOverClause(ps: Pieces): (r: Parsed<(seq<ColumnRef>, seq<ColumnRef>)>)
    ensures r.Got? ==> Len(r.rest) < Len(ps)
  {
    var (_, r1) :- EatSp(K(OVER), ps);
    var (_, r2) :- EatSp(Y(LPar), r1);
    var (w, r3) :- ParseOver(r2);
    var (_, r4) :- Eat(Y(RPar), r3);
    Got(w, r4)
  }

  function FuncOf(k: Keyword): Option<Func> {
    match k
    case LOWER => Some(Lower)
    case UPPER => Some(Upper)
    case LENGTH => Some(Length)
    case ABS => Some(Abs)
    case COALESCE => Some(Coalesce)
    case NULLIF => Some(Nullif)
    case _ => None
  }

  function AggOf(k: Keyword): Option<AggFunc> {
    match k
    case COUNT => Some(AggCount)
    case SUM => Some(AggSum)
    case MIN => Some(AggMin)
    case MAX => Some(AggMax)
    case AVG => Some(AggAvg)
    case _ => None
  }

  function WinOf(k: Keyword): Option<WinFunc> {
    match k
    case ROW_NUMBER => Some(RowNumber)
    case RANK => Some(WinFunc.Rank)
    case DENSE_RANK => Some(DenseRank)
    case COUNT => Some(WinCount)
    case SUM => Some(WinSum)
    case MIN => Some(WinMin)
    case MAX => Some(WinMax)
    case AVG => Some(WinAvg)
    case _ => None
  }

  function OpOf(p: Piece): Option<BinOp> {
    match p
    case Y(Equal) => Some(Eq)
    case Y(Differ) => Some(Ne)
    case Y(Less) => Some(Lt)
    case Y(AtMost) => Some(Le)
    case Y(More) => Some(Gt)
    case Y(AtLeast) => Some(Ge)
    case Y(Plus) => Some(Add)
    case Y(Minus) => Some(Sub)
    case Y(Star) => Some(Mul)
    case Y(Slash) => Some(Div)
    case Y(Percent) => Some(Mod)
    case K(AND) => Some(And)
    case K(OR) => Some(Or)
    case K(LIKE) => Some(Like)
    case Y(Bars) => Some(Concat)
    case _ => None
  }

  // ---- expressions ----

  function ParseExpr(ps: Pieces): (r: Parsed<Expr>)
    ensures r.Got? ==> Len(r.rest) < Len(ps)
    decreases Len(ps), 0
  {
    if ps.Nil? then Fail
    else
      match ps.head
      case Sp | Other(_) => Fail
      case Num(n) => Got(Untyped(Lit(IntValue(n))), ps.tail)
      case Quoted(t) => Got(Untyped(Lit(TextValue(t))), ps.tail)
      case Name(_) =>
        var (c, r1) :- ParseRef(ps);
        Got(Untyped(Ref(c)), r1)
      case Y(y) => if y == LPar then ParseParen(ps.tail) else Fail
      case K(k) => ParseWord(k, ps.tail)
  }

  /** What follows a keyword an expression starts with. */
  function ParseWord(k: Keyword, ps: Pieces): (r: Parsed<Expr>)
    ensures r.Got? ==> Len(r.rest) <= Len(ps)
    decreases Len(ps), 2
  {
    match k
    case NULL => Got(Untyped(Lit(NullValue)), ps)
    case TRUE => Got(Untyped(Lit(BoolValue(true))), ps)
    case FALSE => Got(Untyped(Lit(BoolValue(false))), ps)
    case CASE => ParseCase(ps)
    case CONCAT => ParseConcat(ps)
    case _ => ParseInvocation(k, ps)
  }

  /** The parenthesis after a function's name, and its arguments. */
  function ParseInvocation(k: Keyword, ps: Pieces): (r: Parsed<Expr>)
    ensures r.Got? ==> Len(r.rest) < Len(ps)
    decreases Len(ps), 1
  {
    var (_, r1) :- Eat(Y(LPar), ps);
    if FuncOf(k).Some? then ParseCall(FuncOf(k).value, r1)
    else if WinOf(k).Some? then ParseAggregate(k, r1)
    else Fail
  }

  function ParseConcat(ps: Pieces): (r: Parsed<Expr>)
    ensures r.Got? ==> Len(r.rest) < Len(ps)
    decreases Len(ps), 1
  {
    var (_, r1) :- Eat(Y(LPar), ps);
    var (a, r2) :- ParseExpr(r1);
    var (_, r3) :- EatThenSp(Y(Comma), r2);
    var (b, r4) :- ParseExpr(r3);
    var (_, r5) :- Eat(Y(RPar), r4);
    Got(Untyped(Node.Binary(Concat, a, b)), r5)
  }

  function ParseCall(fn: Func, ps: Pieces): (r: Parsed<Expr>)
    ensures r.Got? ==> Len(r.rest) < Len(ps)
    decreases Len(ps), 3
  {
    var (args, r1) :- ParseArgs(ps);
    var (_, r2) :- Eat(Y(RPar), r1);
    Got(Untyped(Call(fn, args)), r2)
  }

  /** The rest of an aggregate or window call, after its opening parenthesis. */
  function ParseAggregate(k: Keyword, ps: Pieces): (r: Parsed<Expr>)
    requires WinOf(k).Some?
    ensures r.Got? ==> Len(r.rest) < Len(ps)
    decreases Len(ps), 1
  {
    var win := WinOf(k).value;
    if Ranking(win) then
      var (_, r1) :- Eat(Y(RPar), ps);
      var (w, r2) :- ParseOverClause(r1);
      Got(Untyped(Window(win, None, w.0, w.1)), r2)
    else if Starts(K(DISTINCT), ps) then
      var (_, r1) :- EatThenSp(K(DISTINCT), ps);
      var (a, r2) :- ParseExpr(r1);
      var (_, r3) :- Eat(Y(RPar), r2);
      if AggOf(k).Some? then Got(Untyped(Agg(AggOf(k).value, Some(a), true)), r3) else Fail
    else if Starts(Y(Star), ps) then
      var r1 := After(Y(Star), ps);
      FinishAggregate(k, None, r1)
    else
      var (a, r1) :- ParseExpr(ps);
      FinishAggregate(k, Some(a), r1)
  }

  function FinishAggregate(k: Keyword, arg: Option<Expr>, ps: Pieces): (r: Parsed<Expr>)
    requires WinOf(k).Some?
    ensures r.Got? ==> Len(r.rest) < Len(ps)
  {
    var (_, r1) :- Eat(Y(RPar), ps);
    if StartsSp(K(OVER), r1) then
      var (w, r2) :- ParseOverClause(r1);
      Got(Untyped(Window(WinOf(k).value, arg, w.0, w.1)), r2)
    else if AggOf(k).Some? then Got(Untyped(Agg(AggOf(k).value, arg, false)), r1)
    else Fail
  }

  function ParseArgs(ps: Pieces): (r: Parsed<seq<Expr>>)
    ensures r.Got? ==> Len(r.rest) <= Len(ps)
    decreases Len(ps), 2
  {
    if Starts(Y(RPar), ps) then Got([], ps) else ParseMoreArgs(ps)
  }

  /** One argument at least. */
  function ParseMoreArgs(ps: Pieces): (r: Parsed<seq<Expr>>)
    ensures r.Got? ==> Len(r.rest) < Len(ps)
    decreases Len(ps), 1
  {
    var (e, r1) :- ParseExpr(ps);
    if Starts(Y(Comma), r1) then
      var (_, r2) :- EatThenSp(Y(Comma), r1);
      var (es, r3) :- ParseMoreArgs(r2);
      Got([e] + es, r3)
    else Got([e], r1)
  }

  function ParseCase(ps: Pieces): (r: Parsed<Expr>)
    ensures r.Got? ==> Len(r.rest) < Len(ps)
    decreases Len(ps), 1
  {
    var (whens, r1) :- ParseWhens(ps);
    if StartsSp(K(ELSE), r1) then
      var r2 := AfterSp(K(ELSE), r1);
      var (_, r3) :- Eat(Sp, r2);
      var (e, r4) :- ParseExpr(r3);
      var (_, r5) :- EatSp(K(END), r4);
      Got(Untyped(Node.Case(whens, Some(e))), r5)
    else
      var (_, r2) :- EatSp(K(END), r1);
      Got(Untyped(Node.Case(whens, None)), r2)
  }

  function ParseWhens(ps: Pieces): (r: Parsed<seq<When>>)
    ensures r.Got? ==> Len(r.rest) <= Len(ps)
    decreases Len(ps), 0
  {
    if !StartsSp(K(WHEN), ps) then Got([], ps)
    else
      var r1 := AfterSp(K(WHEN), ps);
      var (_, r2) :- Eat(Sp, r1);
      var (cond, r3) :- ParseExpr(r2);
      var (_, r4) :- EatSp(K(THEN), r3);
      var (_, r5) :- Eat(Sp, r4);
      var (result, r6) :- ParseExpr(r5);
      var (whens, r7) :- ParseWhens(r6);
      Got([When(cond, result)] + whens, r7)
  }

  /** What follows an opening parenthesis. */
  function ParseParen(ps: Pieces): (r: Parsed<Expr>)
    ensures r.Got? ==> Len(r.rest) < Len(ps)
    decreases Len(ps), 5
  {
    if Starts(K(NOT), ps) then
      var (_, r1) :- EatThenSp(K(NOT), ps);
      if Starts(K(EXISTS), r1) then ParseExists(true, r1)
      else
        var (a, r2) :- ParseExpr(r1);
        var (_, r3) :- Eat(Y(RPar), r2);
        Got(Untyped(Unary(Not, a)), r3)
    else if Starts(Y(Minus), ps) then
      var r1 := After(Y(Minus), ps);
      var (a, r2) :- ParseExpr(r1);
      var (_, r3) :- Eat(Y(RPar), r2);
      Got(Untyped(Unary(Neg, a)), r3)
    else if Starts(K(EXISTS), ps) then ParseExists(false, ps)
    else if Starts(K(SELECT), ps) then
      var (q, r1) :- ParseQuery(ps);
      var (_, r2) :- Eat(Y(RPar), r1);
      Got(Untyped(ScalarSubquery(q)), r2)
    else
      var (l, r1) :- ParseExpr(ps);
      ParseSuffix(l, r1)
  }

  function ParseExists(negated: bool, ps: Pieces): (r: Parsed<Expr>)
    ensures r.Got? ==> Len(r.rest) < Len(ps)
    decreases Len(ps), 0
  {
    var (_, r1) :- EatThenSp(K(EXISTS), ps);
    var (_, r2) :- Eat(Y(LPar), r1);
    var (q, r3) :- ParseQuery(r2);
    var (_, r4) :- Eat(Y(RPar), r3);
    var (_, r5) :- Eat(Y(RPar), r4);
    Got(Untyped(Exists(q, negated)), r5)
  }

  /** What follows the first operand in a parenthesis. */
  function ParseSuffix(l: Expr, ps: Pieces): (r: Parsed<Expr>)
    ensures r.Got? ==> Len(r.rest) < Len(ps)
    decreases Len(ps), 2
  {
    var (_, r0) :- Eat(Sp, ps);
    if Starts(K(IS), r0) then
      var r1 := After(K(IS), r0);
      if StartsSp(K(NOT), r1) then
        var r2 := AfterSp(K(NOT), r1);
        var (_, r3) :- EatSp(K(NULL), r2);
        var (_, r4) :- Eat(Y(RPar), r3);
        Got(Untyped(Unary(IsNotNull, l)), r4)
      else
        var (_, r2) :- EatSp(K(NULL), r1);
        var (_, r3) :- Eat(Y(RPar), r2);
        Got(Untyped(Unary(IsNull, l)), r3)
    else if Starts(K(BETWEEN), r0) then ParseBetween(l, r0)
    else if Starts(K(NOT), r0) then
      var (_, r1) :- EatThenSp(K(NOT), r0);
      ParseIn(l, true, r1)
    else if Starts(K(IN), r0) then ParseIn(l, false, r0)
    else if r0.Nil? then Fail
    else
      var op := OpOf(r0.head);
      if op.None? then Fail
      else
        var (_, r1) :- Eat(Sp, r0.tail);
        var (b, r2) :- ParseExpr(r1);
        var (_, r3) :- Eat(Y(RPar), r2);
        Got(Untyped(Node.Binary(op.value, l, b)), r3)
  }

  function ParseBetween(l: Expr, ps: Pieces): (r: Parsed<Expr>)
    ensures r.Got? ==> Len(r.rest) < Len(ps)
    decreases Len(ps), 1
  {
    var (_, r1) :- EatThenSp(K(BETWEEN), ps);
    var (lo, r2) :- ParseExpr(r1);
    var (_, r3) :- EatSp(K(AND), r2);
    var (_, r4) :- Eat(Sp, r3);
    var (hi, r5) :- ParseExpr(r4);
    var (_, r6) :- Eat(Y(RPar), r5);
    Got(Untyped(Between(l, lo, hi)), r6)
  }

  function ParseIn(l: Expr, negated: bool, ps: Pieces): (r: Parsed<Expr>)
    ensures r.Got? ==> Len(r.rest) < Len(ps)
    decreases Len(ps), 1
  {
    var (_, r1) :- Eat(K(IN), ps);
    var (_, r2) :- EatSp(Y(LPar), r1);
    if Starts(K(SELECT), r2) then
      var (q, r3) :- ParseQuery(r2);
      var (_, r4) :- Eat(Y(RPar), r3);
      var (_, r5) :- Eat(Y(RPar), r4);
      Got(Untyped(InSubquery(l, q, negated)), r5)
    else
      var (items, r3) :- ParseArgs(r2);
      var (_, r4) :- Eat(Y(RPar), r3);
      var (_, r5) :- Eat(Y(RPar), r4);
      Got(Untyped(InList(l, items, negated)), r5)
  }

  // ---- queries ----

  function ParseItems(ps: Pieces): (r: Parsed<seq<SelectItem>>)
    ensures r.Got? ==> Len(r.rest) < Len(ps)
    decreases Len(ps), 1
  {
    var (e, r1) :- ParseExpr(ps);
    var (_, r2) :- EatSp(K(AS), r1);
    var (name, r3) :- EatSpName(r2);
    if Starts(Y(Comma), r3) then
      var (_, r4) :- EatThenSp(Y(Comma), r3);
      var (items, r5) :- ParseItems(r4);
      Got([SelectItem(e, name)] + items, r5)
    else Got([SelectItem(e, name)], r3)
  }

  predicate StartsJoin(ps: Pieces) {
    StartsSp(K(JOIN), ps) || StartsSp(K(LEFT), ps) || StartsSp(K(RIGHT), ps) || StartsSp(K(CROSS), ps)
  }

  function ParseJoinKind(ps: Pieces): (r: Parsed<JoinKind>)
    ensures r.Got? ==> Len(r.rest) < Len(ps)
  {
    if StartsSp(K(JOIN), ps) then
      var r1 := AfterSp(K(JOIN), ps);
      Got(Inner, r1)
    else if StartsSp(K(LEFT), ps) then ParseSideJoin(LEFT, JoinKind.Left, ps)
    else if StartsSp(K(RIGHT), ps) then ParseSideJoin(RIGHT, JoinKind.Right, ps)
    else ParseSideJoin(CROSS, JoinKind.Cross, ps)
  }

  /** " KEYWORD JOIN" */
  function ParseSideJoin(k: Keyword, kind: JoinKind, ps: Pieces): (r: Parsed<JoinKind>)
    ensures r.Got? ==> Len(r.rest) < Len(ps)
  {
    var (_, r1) :- EatSp(K(k), ps);
    var (_, r2) :- EatSp(K(JOIN), r1);
    Got(kind, r2)
  }

  function ParseJoins(ps: Pieces): (r: Parsed<seq<Join>>)
    ensures r.Got? ==> Len(r.rest) <= Len(ps)
    decreases Len(ps), 1
  {
    if !StartsJoin(ps) then Got([], ps)
    else
      var (kind, r1) :- ParseJoinKind(ps);
      var (table, r2) :- EatSpName(r1);
      var (alias, r3) :- EatSpName(r2);
      var (cond, r4) :- ParseOptional(ON, r3);
      var (joins, r5) :- ParseJoins(r4);
      Got([Join(kind, TableSource(table, alias), cond)] + joins, r5)
  }

  /** " KEYWORD expr", if it is there. */
  function ParseOptional(k: Keyword, ps: Pieces): (r: Parsed<Option<Expr>>)
    ensures r.Got? ==> Len(r.rest) <= Len(ps)
    decreases Len(ps), 1
  {
    if StartsSp(K(k), ps) then
      var r1 := AfterSp(K(k), ps);
      var (_, r2) :- Eat(Sp, r1);
      var (e, r3) :- ParseExpr(r2);
      Got(Some(e), r3)
    else Got(None, ps)
  }

  /** " GROUP BY refs", if it is there. */
  function ParseGroup(ps: Pieces): (r: Parsed<seq<ColumnRef>>)
    ensures r.Got? ==> Len(r.rest) <= Len(ps)
  {
    if StartsSp(K(GROUP), ps) then
      var r1 := AfterSp(K(GROUP), ps);
      var (_, r2) :- EatSp(K(BY), r1);
      var (_, r3) :- Eat(Sp, r2);
      ParseRefs(r3)
    else Got([], ps)
  }

  function ParseBody(ps: Pieces): (r: Parsed<QuerySpec>)
    ensures r.Got? ==> Len(r.rest) < Len(ps)
    decreases Len(ps), 2
  {
    var (_, r1) :- EatThenSp(K(SELECT), ps);
    var distinct := Starts(K(DISTINCT), r1);
    var (_, r2) :- if distinct then EatThenSp(K(DISTINCT), r1) else Got(Sp, r1);
    var (items, r3) :- ParseItems(r2);
    var (_, r4) :- EatSp(K(FROM), r3);
    var (table, r5) :- EatSpName(r4);
    var (alias, r6) :- EatSpName(r5);
    var (joins, r7) :- ParseJoins(r6);
    var (filter, r8) :- ParseOptional(WHERE, r7);
    var (groupBy, r9) :- ParseGroup(r8);
    var (having, r10) :- ParseOptional(HAVING, r9);
    Got(QuerySpec([], TableSource(table, alias), joins, distinct, items, filter, groupBy, having, [], None, None,
                  LockSpec(NoLock, ""), None, UnionAll), r10)
  }

  function ParseOrders(ps: Pieces): (r: Parsed<seq<OrderItem>>)
    ensures r.Got? ==> Len(r.rest) < Len(ps)
    decreases Len(ps), 1
  {
    var (e, r1) :- ParseExpr(ps);
    var desc := StartsSp(K(DESC), r1);
    var r2 := if desc then AfterSp(K(DESC), r1) else r1;
    if Starts(Y(Comma), r2) then
      var (_, r3) :- EatThenSp(Y(Comma), r2);
      var (orders, r4) :- ParseOrders(r3);
      Got([OrderItem(e, desc)] + orders, r4)
    else Got([OrderItem(e, desc)], r2)
  }

  /** " ORDER BY ...", if it is there. */
  function ParseOrder(ps: Pieces): (r: Parsed<seq<OrderItem>>)
    ensures r.Got? ==> Len(r.rest) <= Len(ps)
    decreases Len(ps), 2
  {
    if StartsSp(K(ORDER), ps) then
      var r1 := AfterSp(K(ORDER), ps);
      var (_, r2) :- EatSp(K(BY), r1);
      var (_, r3) :- Eat(Sp, r2);
      ParseOrders(r3)
    else Got([], ps)
  }

  function ParseNumber(k: Keyword, ps: Pieces): (r: Parsed<Option<nat>>)
    ensures r.Got? ==> Len(r.rest) <= Len(ps)
  {
    if StartsSp(K(k), ps) then
      var r1 := AfterSp(K(k), ps);
      var (n, r2) :- EatSpNum(r1);
      Got(Some(n), r2)
    else Got(None, ps)
  }

  function ParseLock(ps: Pieces): (r: Parsed<LockSpec>)
    ensures r.Got? ==> Len(r.rest) <= Len(ps)
  {
    if StartsSp(K(FOR), ps) then
      var r1 := AfterSp(K(FOR), ps);
      var update := StartsSp(K(UPDATE), r1);
      var (_, r2) :- EatSp(K(if update then UPDATE else SHARE), r1);
      var clause := if update then ForUpdate else ForShare;
      if StartsSp(K(OF), r2) then
        var r3 := AfterSp(K(OF), r2);
        var (alias, r4) :- EatSpName(r3);
        Got(LockSpec(clause, alias), r4)
      else Got(LockSpec(clause, ""), r2)
    else Got(LockSpec(NoLock, ""), ps)
  }

  /** The tail of q: ORDER BY, LIMIT, OFFSET and the lock. */
  function ParseTail(q: QuerySpec, ps: Pieces): (r: Parsed<QuerySpec>)
    ensures r.Got? ==> Len(r.rest) <= Len(ps)
    decreases Len(ps), 3
  {
    var (orderBy, r1) :- ParseOrder(ps);
    var (limit, r2) :- ParseNumber(LIMIT, r1);
    var (offset, r3) :- ParseNumber(OFFSET, r2);
    var (lock, r4) :- ParseLock(r3);
    Got(q.(orderBy := orderBy, limit := limit, offset := offset, lock := lock), r4)
  }

  function ParseSetOp(ps: Pieces): (r: Parsed<SetOpKind>)
    ensures r.Got? ==> Len(r.rest) < Len(ps)
  {
    if StartsSp(K(UNION), ps) then
      var r1 := AfterSp(K(UNION), ps);
      if StartsSp(K(ALL), r1) then
        var r2 := AfterSp(K(ALL), r1);
        Got(UnionAll, r2)
      else Got(UnionDistinct, r1)
    else if StartsSp(K(INTERSECT), ps) then
      var r1 := AfterSp(K(INTERSECT), ps);
      Got(Intersect, r1)
    else
      var (_, r1) :- EatSp(K(EXCEPT), ps);
      Got(Except, r1)
  }

  function ParseCore(ps: Pieces): (r: Parsed<QuerySpec>)
    ensures r.Got? ==> Len(r.rest) < Len(ps)
    decreases Len(ps), 3
  {
    if Starts(Y(LPar), ps) then
      var r1 := After(Y(LPar), ps);
      var (q, r2) :- ParseBody(r1);
      var (_, r3) :- Eat(Y(RPar), r2);
      var (kind, r4) :- ParseSetOp(r3);
      var (_, r5) :- EatSp(Y(LPar), r4);
      var (rhs, r6) :- ParseQuery(r5);
      var (_, r7) :- Eat(Y(RPar), r6);
      ParseTail(q.(setOpRhs := Some(rhs), setOpKind := kind), r7)
    else
      var (q, r1) :- ParseBody(ps);
      ParseTail(q, r1)
  }

  function ParseCtes(ps: Pieces): (r: Parsed<seq<Cte>>)
    ensures r.Got? ==> Len(r.rest) < Len(ps)
    decreases Len(ps), 1
  {
    var (name, r0) :- EatName(ps);
    var (_, r1) :- EatSp(K(AS), r0);
    var (_, r2) :- EatSp(Y(LPar), r1);
    var (q, r3) :- ParseQuery(r2);
    var (_, r4) :- Eat(Y(RPar), r3);
    if Starts(Y(Comma), r4) then
      var (_, r5) :- EatThenSp(Y(Comma), r4);
      var (ctes, r6) :- ParseCtes(r5);
      Got([Cte(name, q)] + ctes, r6)
    else Got([Cte(name, q)], r4)
  }

  function ParseQuery(ps: Pieces): (r: Parsed<QuerySpec>)
    ensures r.Got? ==> Len(r.rest) < Len(ps)
    decreases Len(ps), 4
  {
    if Starts(K(WITH), ps) then
      var (_, r1) :- EatThenSp(K(WITH), ps);
      var (ctes, r2) :- ParseCtes(r1);
      var (_, r3) :- Eat(Sp, r2);
      var (q, r4) :- ParseCore(r3);
      Got(q.(ctes := ctes), r4)
    else ParseCore(ps)
  }

  // ---- forgetting type annotations ----

  function Strip(e: Expr): Expr
    decreases e
  {
    match e.node
    case Ref(_) => Untyped(e.node)
    case Lit(_) => Untyped(e.node)
    case Unary(op, a) => Untyped(Unary(op, Strip(a)))
    case Binary(op, l, r) => Untyped(Node.Binary(op, Strip(l), Strip(r)))
    case Between(a, lo, hi) => Untyped(Between(Strip(a), Strip(lo), Strip(hi)))
    case InList(a, items, negated) =>
      Untyped(InList(Strip(a), seq(|items|, i requires 0 <= i < |items| => Strip(items[i])), negated))
    case InSubquery(a, q, negated) => Untyped(InSubquery(Strip(a), StripQuery(q), negated))
    case Exists(q, negated) => Untyped(Exists(StripQuery(q), negated))
    case ScalarSubquery(q) => Untyped(ScalarSubquery(StripQuery(q)))
    case Call(fn, args) => Untyped(Call(fn, seq(|args|, i requires 0 <= i < |args| => Strip(args[i]))))
    case Case(whens, otherwise) =>
      Untyped(Node.Case(
        seq(|whens|, i requires 0 <= i < |whens| => When(Strip(whens[i].cond), Strip(whens[i].result))),
        if otherwise.Some? then Some(Strip(otherwise.value)) else None))
    case Agg(fn, arg, distinct) => Untyped(Agg(fn, if arg.Some? then Some(Strip(arg.value)) else None, distinct))
    case Window(fn, arg, partitionBy, over) =>
      Untyped(Window(fn, if arg.Some? then Some(Strip(arg.value)) else None, partitionBy, over))
  }

  function StripQuery(q: QuerySpec): QuerySpec
    decreases q
  {
    q.(
      ctes := seq(|q.ctes|, i requires 0 <= i < |q.ctes| => Cte(q.ctes[i].name, StripQuery(q.ctes[i].query))),
      joins := seq(|q.joins|, i requires 0 <= i < |q.joins| =>
                     var c := q.joins[i].condition;
                     q.joins[i].(condition := if c.Some? then Some(Strip(c.value)) else None)),
      items := seq(|q.items|, i requires 0 <= i < |q.items| => SelectItem(Strip(q.items[i].expr), q.items[i].colAlias)),
      filter := if q.filter.Some? then Some(Strip(q.filter.value)) else None,
      having := if q.having.Some? then Some(Strip(q.having.value)) else None,
      orderBy := seq(|q.orderBy|,
        i requires 0 <= i < |q.orderBy| => OrderItem(Strip(q.orderBy[i].expr), q.orderBy[i].desc)),
      setOpRhs := if q.setOpRhs.Some? then Some(StripQuery(q.setOpRhs.value)) else None)
  }
}
