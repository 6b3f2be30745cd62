/** Integer evaluation of flat expressions, and a static bound on every value
    met on the way. */
module Magnitudes {
  import opened Metadata
  import opened QueryIr
  import opened Scopes

  /** A value of a column or an expression; of a string only the length counts. */
  datatype Cell = Null | Int(n: int) | Str(length: nat) | Other

  type Row = ColumnRef -> Cell

  /** Which conditions hold. The bound is proved for every such choice. */
  type Truth = Expr -> bool

  const MAX_COLUMN: nat := 1_000_000

  function AbsInt(n: int): nat { if n < 0 then -n else n }

  /** SQL division and remainder truncate toward zero. */
  function TruncDiv(a: int, b: int): int
    requires b != 0
  {
    var m := AbsInt(a) / AbsInt(b);
    if (a < 0) == (b < 0) then m else -m
  }

  function TruncMod(a: int, b: int): int
    requires b != 0
  {
    var m := AbsInt(a) % AbsInt(b);
    if a < 0 then -m else m
  }

  function EvalBinary(op: BinOp, l: Cell, r: Cell): Cell {
    if l.Int? && r.Int? then
      match op
      case Add => Int(l.n + r.n)
      case Sub => Int(l.n - r.n)
      case Mul => Int(l.n * r.n)
      case Div => if r.n == 0 then Null else Int(TruncDiv(l.n, r.n))
      case Mod => if r.n == 0 then Null else Int(TruncMod(l.n, r.n))
      case _ => Other
    else if l.Str? && r.Str? && op == Concat then Str(l.length + r.length)
    else if l == Null || r == Null then Null
    else Other
  }

  function EvalCall(fn: Func, cells: seq<Cell>): Cell {
    match fn
    case Lower | Upper => if |cells| == 1 then cells[0] else Other
    case Length =>
      if |cells| == 1 && cells[0].Str? then Int(cells[0].length)
      else if |cells| == 1 && cells[0] == Null then Null else Other
    case Abs =>
      if |cells| == 1 && cells[0].Int? then Int(AbsInt(cells[0].n))
      else if |cells| == 1 && cells[0] == Null then Null else Other
    case Coalesce => if |cells| == 2 then (if cells[0] == Null then cells[1] else cells[0]) else Other
    case Nullif => if |cells| == 2 then (if cells[0] == cells[1] then Null else cells[0]) else Other
  }

  function Eval(e: Expr, row: Row, truth: Truth): Cell
    decreases e, 1, 0
  {
    match e.node
    case Ref(r) => row(r)
    case Lit(v) => (match v
                    case IntValue(n) => Int(n)
                    case TextValue(s) => Str(|s|)
                    case NullValue => Null
                    case _ => Other)
    case Unary(op, a) =>
      if op == Neg then (match Eval(a, row, truth) case Int(n) => Int(-n) case Null => Null case _ => Other) else Other
    case Binary(op, l, r) => EvalBinary(op, Eval(l, row, truth), Eval(r, row, truth))
    case Call(fn, args) =>
      EvalCall(fn, seq(|args|, i requires 0 <= i < |args| => Eval(args[i], row, truth)))
    case Case(_, _) => EvalCase(e, 0, row, truth)
    case _ => Other
  }

  /** The result of the first WHEN from the i-th on that holds, else of ELSE. */
  function EvalCase(e: Expr, i: nat, row: Row, truth: Truth): Cell
    requires e.node.Case? && i <= |e.node.whens|
    decreases e, 0, |e.node.whens| - i
  {
    if i == |e.node.whens| then
      if e.node.otherwise.Some? then Eval(e.node.otherwise.value, row, truth) else Null
    else if truth(e.node.whens[i].cond) then Eval(e.node.whens[i].result, row, truth)
    else EvalCase(e, i + 1, row, truth)
  }

  // ---- the static bound ----

  /** A bound on the magnitude of e's integer value, or on the length of its
      string value. */
  function Mag(e: Expr): nat
    decreases e, 1, 0
  {
    match e.node
    case Ref(_) => MAX_COLUMN
    case Lit(v) => (match v
                    case IntValue(n) => AbsInt(n)
                    case TextValue(s) => |s|
                    case _ => 0)
    case Unary(_, a) => Mag(a)
    case Binary(op, l, r) =>
      (match op
       case Add | Sub | Concat => Mag(l) + Mag(r)
       case Mul => Mag(l) * Mag(r)
       case Div | Mod => Mag(l)
       case _ => 0)
    case Call(fn, args) =>
      if args == [] then 0 else if fn == Coalesce && |args| == 2 then Max(Mag(args[0]), Mag(args[1])) else Mag(args[0])
    case Case(_, _) => MagCase(e, 0)
    case _ => 0
  }

  function MagCase(e: Expr, i: nat): nat
    requires e.node.Case? && i <= |e.node.whens|
    decreases e, 0, |e.node.whens| - i
  {
    if i == |e.node.whens| then
      if e.node.otherwise.Some? then Mag(e.node.otherwise.value) else 0
    else Max(Mag(e.node.whens[i].result), MagCase(e, i + 1))
  }

  /** Every numeric node of e, conditions included, has a bound of at most b. */
  predicate Within(e: Expr, b: nat) {
    (FamilyOf(e.ty) == Numeric ==> Mag(e) <= b)
    && match e.node
       case Unary(_, a) => Within(a, b)
       case Binary(_, l, r) => Within(l, b) && Within(r, b)
       case Between(a, lo, hi) => Within(a, b) && Within(lo, b) && Within(hi, b)
       case InList(a, items, _) => Within(a, b) && forall i :: 0 <= i < |items| ==> Within(items[i], b)
       case Call(_, args) => forall i :: 0 <= i < |args| ==> Within(args[i], b)
       case Case(whens, otherwise) =>
         (otherwise.Some? ==> Within(otherwise.value, b))
         && forall i :: 0 <= i < |whens| ==> Within(whens[i].cond, b) && Within(whens[i].result, b)
       case _ => true
  }

  /** Every numeric node of e, conditions included, evaluates to at most b in
      magnitude. */
  predicate EveryValueWithin(e: Expr, row: Row, truth: Truth, b: nat) {
    (FamilyOf(e.ty) == Numeric && Eval(e, row, truth).Int? ==> AbsInt(Eval(e, row, truth).n) <= b)
    && match e.node
       case Unary(_, a) => EveryValueWithin(a, row, truth, b)
       case Binary(_, l, r) => EveryValueWithin(l, row, truth, b) && EveryValueWithin(r, row, truth, b)
       case Between(a, lo, hi) =>
         EveryValueWithin(a, row, truth, b)
         && EveryValueWithin(lo, row, truth, b) && EveryValueWithin(hi, row, truth, b)
       case InList(a, items, _) =>
         EveryValueWithin(a, row, truth, b)
         && forall i :: 0 <= i < |items| ==> EveryValueWithin(items[i], row, truth, b)
       case Call(_, args) => forall i :: 0 <= i < |args| ==> EveryValueWithin(args[i], row, truth, b)
       case Case(whens, otherwise) =>
         (otherwise.Some? ==> EveryValueWithin(otherwise.value, row, truth, b))
         && forall i :: 0 <= i < |whens| ==>
              EveryValueWithin(whens[i].cond, row, truth, b) && EveryValueWithin(whens[i].result, row, truth, b)
       case _ => true
  }

  predicate CellWithin(c: Cell, b: nat) {
    (c.Int? ==> AbsInt(c.n) <= b) && (c.Str? ==> c.length <= b)
  }

  /** Columns hold integers and strings of at most a million in magnitude. */
  ghost predicate SmallRow(row: Row) {
    forall r :: CellWithin(row(r), MAX_COLUMN)
  }

  lemma TruncSmall(a: int, b: int)
    requires b != 0
    ensures AbsInt(TruncDiv(a, b)) <= AbsInt(a) && AbsInt(TruncMod(a, b)) <= AbsInt(a)
  {
    var x, y := AbsInt(a), AbsInt(b);
    assert x == y * (x / y) + x % y;
    assert y * (x / y) >= x / y by {
      MulGrows(y, x / y);
    }
  }

  lemma MulGrows(y: nat, q: nat)
    requires y >= 1
    ensures y * q >= q
  {
    assert y * q == q + (y - 1) * q;
  }

  lemma MulMono(a: nat, b: nat, c: nat, d: nat)
    requires a <= c && b <= d
    ensures a * b <= c * d
  {
    assert c * d == a * b + (c - a) * b + c * (d - b);
  }

  lemma MulAbs(a: int, b: int)
    ensures AbsInt(a * b) == AbsInt(a) * AbsInt(b)
  {
  }

  lemma BinarySound(op: BinOp, l: Cell, r: Cell, ml: nat, mr: nat)
    requires CellWithin(l, ml) && CellWithin(r, mr)
    ensures op == Add || op == Sub || op == Concat ==> CellWithin(EvalBinary(op, l, r), ml + mr)
    ensures op == Mul ==> CellWithin(EvalBinary(op, l, r), ml * mr)
    ensures op == Div || op == Mod ==> CellWithin(EvalBinary(op, l, r), ml)
  {
    if l.Int? && r.Int? {
      if op == Mul {
        MulAbs(l.n, r.n);
        MulMono(AbsInt(l.n), AbsInt(r.n), ml, mr);
      } else if r.n != 0 {
        TruncSmall(l.n, r.n);
      }
    }
  }

  /** The static bound is a bound: on small rows, whichever conditions hold. */
  lemma {:induction false} MagSound(e: Expr, row: Row, truth: Truth)
    requires SmallRow(row)
    ensures CellWithin(Eval(e, row, truth), Mag(e))
    decreases e, 1, 0
  {
    match e.node
    case Ref(r) => assert CellWithin(row(r), MAX_COLUMN);
    case Lit(_) =>
    case Unary(_, a) => MagSound(a, row, truth);
    case Binary(op, l, r) =>
      MagSound(l, row, truth);
      MagSound(r, row, truth);
      BinarySound(op, Eval(l, row, truth), Eval(r, row, truth), Mag(l), Mag(r));
      OtherBinary(op, Eval(l, row, truth), Eval(r, row, truth));
    case Call(fn, args) =>
      forall i | 0 <= i < |args| ensures CellWithin(Eval(args[i], row, truth), Mag(args[i])) {
        MagSound(args[i], row, truth);
      }
      CallSound(e, row, truth);
    case Case(_, _) => CaseSound(e, 0, row, truth);
    case _ =>
  }

  lemma OtherBinary(op: BinOp, l: Cell, r: Cell)
    ensures op !in {Add, Sub, Mul, Div, Mod, Concat} ==> CellWithin(EvalBinary(op, l, r), 0)
  {
  }

  lemma CallSound(e: Expr, row: Row, truth: Truth)
    requires e.node.Call?
    requires forall i :: 0 <= i < |e.node.args| ==> CellWithin(Eval(e.node.args[i], row, truth), Mag(e.node.args[i]))
    ensures CellWithin(Eval(e, row, truth), Mag(e))
  {
    var args := e.node.args;
    var cells := seq(|args|, i requires 0 <= i < |args| => Eval(args[i], row, truth));
    assert Eval(e, row, truth) == EvalCall(e.node.fn, cells);
  }

  lemma {:induction false} CaseSound(e: Expr, i: nat, row: Row, truth: Truth)
    requires SmallRow(row) && e.node.Case? && i <= |e.node.whens|
    ensures CellWithin(EvalCase(e, i, row, truth), MagCase(e, i))
    decreases e, 0, |e.node.whens| - i
  {
    if i == |e.node.whens| {
      if e.node.otherwise.Some? {
        MagSound(e.node.otherwise.value, row, truth);
      }
    } else {
      MagSound(e.node.whens[i].result, row, truth);
      CaseSound(e, i + 1, row, truth);
    }
  }

  /** So a tree whose static bounds stay within b never computes past b. */
  lemma {:induction false} WithinSound(e: Expr, row: Row, truth: Truth, b: nat)
    requires SmallRow(row) && Within(e, b)
    ensures EveryValueWithin(e, row, truth, b)
  {
    MagSound(e, row, truth);
    match e.node
    case Unary(_, a) => WithinSound(a, row, truth, b);
    case Binary(_, l, r) =>
      WithinSound(l, row, truth, b);
      WithinSound(r, row, truth, b);
    case Between(a, lo, hi) =>
      WithinSound(a, row, truth, b);
      WithinSound(lo, row, truth, b);
      WithinSound(hi, row, truth, b);
    case InList(a, items, _) =>
      WithinSound(a, row, truth, b);
      forall i | 0 <= i < |items| ensures EveryValueWithin(items[i], row, truth, b) {
        WithinSound(items[i], row, truth, b);
      }
    case Call(_, args) =>
      forall i | 0 <= i < |args| ensures EveryValueWithin(args[i], row, truth, b) {
        WithinSound(args[i], row, truth, b);
      }
    case Case(whens, otherwise) =>
      if otherwise.Some? {
        WithinSound(otherwise.value, row, truth, b);
      }
      forall i | 0 <= i < |whens|
        ensures EveryValueWithin(whens[i].cond, row, truth, b) && EveryValueWithin(whens[i].result, row, truth, b)
      {
        WithinSound(whens[i].cond, row, truth, b);
        WithinSound(whens[i].result, row, truth, b);
      }
    case _ =>
  }

  lemma {:induction false} WithinGrows(e: Expr, b: nat, b': nat)
    requires Within(e, b) && b <= b'
    ensures Within(e, b')
  {
    match e.node
    case Unary(_, a) => WithinGrows(a, b, b');
    case Binary(_, l, r) =>
      WithinGrows(l, b, b');
      WithinGrows(r, b, b');
    case Between(a, lo, hi) =>
      WithinGrows(a, b, b');
      WithinGrows(lo, b, b');
      WithinGrows(hi, b, b');
    case InList(a, items, _) =>
      WithinGrows(a, b, b');
      forall i | 0 <= i < |items| ensures Within(items[i], b') {
        WithinGrows(items[i], b, b');
      }
    case Call(_, args) =>
      forall i | 0 <= i < |args| ensures Within(args[i], b') {
        WithinGrows(args[i], b, b');
      }
    case Case(whens, otherwise) =>
      if otherwise.Some? {
        WithinGrows(otherwise.value, b, b');
      }
      forall i | 0 <= i < |whens| ensures Within(whens[i].cond, b') && Within(whens[i].result, b') {
        WithinGrows(whens[i].cond, b, b');
        WithinGrows(whens[i].result, b, b');
      }
    case _ =>
  }

  // ---- the bound of a generated tree ----

  function Pow2(n: nat): nat { if n == 0 then 1 else 2 * Pow2(n - 1) }

  /** The bound for trees of depth d: a column at depth 0, then ten times that,
      doubled with every further level. */
  function Cap(d: nat): nat {
    if d == 0 then MAX_COLUMN else 10 * MAX_COLUMN * Pow2(d - 1)
  }

  lemma CapDoubles(d: nat)
    requires d > 0
    ensures 2 * Cap(d - 1) <= Cap(d) && Cap(d - 1) <= Cap(d) && 10 * MAX_COLUMN <= Cap(d)
  {
    if d > 1 {
      Pow2Positive(d - 2);
      assert Pow2(d - 1) == 2 * Pow2(d - 2);
    }
  }

  lemma {:induction false} Pow2Positive(n: nat)
    ensures Pow2(n) >= 1
  {
    if n > 0 {
      Pow2Positive(n - 1);
    }
  }

  lemma {:induction false} Pow2Grows(m: nat, n: nat)
    requires m <= n
    ensures Pow2(m) <= Pow2(n)
  {
    if m < n {
      Pow2Grows(m, n - 1);
    }
  }

  /** Up to depth eight the cap fits a signed 32-bit integer, and at nine it no
      longer does. */
  lemma CapFits(d: nat)
    ensures Cap(d) < 0x8000_0000 <==> d <= 8
  {
    assert Pow2(7) == 128 && Pow2(8) == 256 by {
      assert Pow2(4) == 16;
    }
    if 1 <= d <= 8 {
      Pow2Grows(d - 1, 7);
    } else if d > 8 {
      Pow2Grows(8, d - 1);
    }
  }
}
