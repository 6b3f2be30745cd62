/** Decimal numerals, as fmt prints them. */
module Numerals {

  predicate IsDigit(c: char) { '0' <= c <= '9' }

  function Digit(n: nat): char
    requires n < 10
  {
    '0' + n as char
  }

  function DigitValue(c: char): nat
    requires IsDigit(c)
  {
    c as nat - '0' as nat
  }

  function Digits(n: nat): (s: string)
    ensures s != "" && (forall c :: c in s ==> IsDigit(c)) && (s[0] == '0' ==> n == 0)
  {
    if n < 10 then [Digit(n)] else Digits(n / 10) + [Digit(n % 10)]
  }

  /** The number a string of digits stands for. */
  function Number(s: string): nat
    requires forall c :: c in s ==> IsDigit(c)
  {
    if s == "" then 0 else 10 * Number(s[..|s| - 1]) + DigitValue(s[|s| - 1])
  }

  lemma {:induction false} NumberOfDigits(n: nat)
    ensures Number(Digits(n)) == n
  {
    if n >= 10 {
      NumberOfDigits(n / 10);
      var s := Digits(n);
      assert s[..|s| - 1] == Digits(n / 10);
    }
  }

  /** The names the generator hands out: a letter and a number. */
  function Numbered(letter: char, n: nat): string { [letter] + Digits(n) }

  lemma NumberedInjective(letter: char, m: nat, n: nat)
    requires Numbered(letter, m) == Numbered(letter, n)
    ensures m == n
  {
    assert Digits(m) == Numbered(letter, m)[1..] == Numbered(letter, n)[1..] == Digits(n);
    NumberOfDigits(m);
    NumberOfDigits(n);
  }
}

/** The intermediate form of generated queries
    (core/include/querygen/ir.hpp). */
module QueryIr {
  import opened Metadata

  datatype BinOp = Eq | Ne | Lt | Le | Gt | Ge | Add | Sub | Mul | Div | Mod | And | Or | Like | Concat

  datatype UnOp = Not | IsNull | IsNotNull | Neg

  datatype Func = Lower | Upper | Length | Abs | Coalesce | Nullif

  datatype AggFunc = AggCount | AggSum | AggMin | AggMax | AggAvg

  datatype WinFunc = RowNumber | Rank | DenseRank | WinCount | WinSum | WinMin | WinMax | WinAvg

  datatype SetOpKind = UnionAll | UnionDistinct | Intersect | Except

  datatype JoinKind = Inner | Left | Right | Cross

  datatype LockClause = NoLock | ForUpdate | ForShare

  datatype Value = NullValue | IntValue(n: int) | RealValue(x: real) | TextValue(s: string) | BoolValue(b: bool)

  datatype ColumnRef = ColumnRef(alias: string, column: string)

  datatype When = When(cond: Expr, result: Expr)

  datatype Node =
    | Ref(ref: ColumnRef)
    | Lit(value: Value)
    | Unary(unOp: UnOp, arg: Expr)
    | Binary(op: BinOp, lhs: Expr, rhs: Expr)
    | Between(arg: Expr, lo: Expr, hi: Expr)
    | InList(arg: Expr, items: seq<Expr>, negated: bool)
    | InSubquery(arg: Expr, sub: QuerySpec, negated: bool)
    | Exists(sub: QuerySpec, negated: bool)
    | ScalarSubquery(sub: QuerySpec)
    | Call(fn: Func, args: seq<Expr>)
    | Case(whens: seq<When>, otherwise: Option<Expr>)
    | Agg(agg: AggFunc, aggArg: Option<Expr>, aggDistinct: bool)
    | Window(win: WinFunc, winArg: Option<Expr>, partitionBy: seq<ColumnRef>, over: seq<ColumnRef>)

  datatype Expr = Expr(node: Node, ty: ColumnType)

  datatype TableSource = TableSource(table: string, alias: string)

  datatype Join = Join(kind: JoinKind, source: TableSource, condition: Option<Expr>)

  datatype SelectItem = SelectItem(expr: Expr, colAlias: string)

  datatype OrderItem = OrderItem(expr: Expr, desc: bool)

  datatype Cte = Cte(name: string, query: QuerySpec)

  datatype LockSpec = LockSpec(clause: LockClause, ofAlias: string)

  datatype QuerySpec = QuerySpec(
    ctes: seq<Cte>,
    from: TableSource,
    joins: seq<Join>,
    distinct: bool,
    items: seq<SelectItem>,
    filter: Option<Expr>,
    groupBy: seq<ColumnRef>,
    having: Option<Expr>,
    orderBy: seq<OrderItem>,
    limit: Option<nat>,
    offset: Option<nat>,
    lock: LockSpec,
    setOpRhs: Option<QuerySpec>,
    setOpKind: SetOpKind)

  /** A query without the parts only a top-level query has. */
  predicate Plain(q: QuerySpec) { q.ctes == [] && q.setOpRhs.None? }

  function Max(a: nat, b: nat): nat { if a < b then b else a }

  datatype Family = Numeric | Text | Boolean | Binary8

  function FamilyOf(t: ColumnType): Family {
    match t
    case INT => Numeric
    case REAL => Numeric
    case CHAR => Text
    case VARCHAR => Text
    case TEXT => Text
    case BOOL => Boolean
    case BYTEA => Binary8
  }

  function Representative(f: Family): (t: ColumnType)
    ensures FamilyOf(t) == f
  {
    match f
    case Numeric => INT
    case Text => VARCHAR
    case Boolean => BOOL
    case Binary8 => BYTEA
  }
}
