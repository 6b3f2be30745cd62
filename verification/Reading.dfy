/** Rendered SQL is uniquely readable: the parser gives back every expression and
    query the generator may build, up to type annotations, in either form of
    concatenation. */
module Reading {
  import opened Metadata
  import opened QueryIr
  import opened Keywords
  import opened Lexing
  import opened Rendering
  import opened Spacing
  import opened Parsing

  /** Nothing in k continues an expression that ends before it. */
  predicate ExprEnd(k: Pieces) {
    k.Nil? || k.head == Y(RPar) || k.head == Y(Comma) || (k.head == Sp && !Starts(K(OVER), k.tail))
  }

  /** What no expression starts with. */
  predicate Fresh(t: Pieces) {
    t.Cons? && t.head !in {K(NOT), K(EXISTS), K(SELECT), K(DISTINCT), Y(Minus), Y(Star), Y(RPar)}
  }

  lemma FirstPiece(e: Expr, d: Dialect, k: Pieces)
    requires Shaped(e, false)
    ensures Fresh(E(e, d, k))
  {
  }

  lemma ReadRef(c: ColumnRef, k: Pieces)
    requires ExprEnd(k)
    ensures ParseRef(RefText(c, k)) == Got(c, k)
  {
  }

  lemma {:induction false} ReadRefs(refs: seq<ColumnRef>, k: Pieces)
    requires refs != [] && ExprEnd(k) && !Starts(Y(Comma), k)
    ensures ParseRefs(RefList(refs, k)) == Got(refs, k)
  {
    hide Len;
    if |refs| == 1 {
      ReadRef(refs[0], k);
      assert refs == [refs[0]];
    } else {
      var rest := RefList(refs[1..], k);
      ReadRef(refs[0], CommaSp(rest));
      ReadRefs(refs[1..], k);
      assert refs == [refs[0]] + refs[1..];
    }
  }

  lemma ReadOrderRefs(refs: seq<ColumnRef>, k: Pieces)
    requires refs != [] && ExprEnd(k) && !Starts(Y(Comma), k)
    ensures ParseOrderRefs(OrderRefs(refs, k)) == Got(refs, k)
  {
    hide Len;
    ReadRefs(refs, k);
  }

  lemma ReadOver(partitionBy: seq<ColumnRef>, over: seq<ColumnRef>, k: Pieces)
    ensures ParseOver(OverText(partitionBy, over, Close(k))) == Got((partitionBy, over), Close(k))
  {
    hide Len, ParseRefs, ParseOrderRefs, RefList;
    var end := Close(k);
    if over != [] {
      ReadOrderRefs(over, end);
    }
    if partitionBy != [] {
      ReadRefs(partitionBy, if over == [] then end else Cons(Sp, OrderRefs(over, end)));
    }
  }

  lemma ReadOverClause(partitionBy: seq<ColumnRef>, over: seq<ColumnRef>, k: Pieces)
    ensures ParseOverClause(SpKw(OVER, Cons(Sp, Open(OverText(partitionBy, over, Close(k)))))) ==
      Got((partitionBy, over), k)
  {
    hide Len;
    ReadOver(partitionBy, over, k);
  }

  // ---- expressions ----

  function StripArgs(e: Expr): seq<Expr> {
    seq(|ArgsOf(e)|, i requires 0 <= i < |ArgsOf(e)| => Strip(ArgsOf(e)[i]))
  }

  function StripWhens(whens: seq<When>): seq<When> {
    seq(|whens|, i requires 0 <= i < |whens| => When(Strip(whens[i].cond), Strip(whens[i].result)))
  }

  lemma StepParen(t: Pieces)
    ensures ParseExpr(Open(t)) == ParseParen(t)
  {
    hide Len, ParseParen;
  }

  lemma StepWord(k: Keyword, t: Pieces)
    ensures ParseExpr(Cons(K(k), t)) == ParseWord(k, t)
  {
    hide Len, ParseWord;
  }

  /** An operand after an opening parenthesis leads to its suffix. */
  lemma StepOperand(t: Pieces, l: Expr, suffix: Pieces)
    requires Fresh(t) && ParseExpr(t) == Got(l, suffix)
    ensures ParseExpr(Open(t)) == ParseSuffix(l, suffix)
  {
    hide Len;
    StepParen(t);
    hide ParseExpr, ParseSuffix, ParseExists, ParseQuery;
  }

  lemma StepNull(l: Expr, negated: bool, k: Pieces)
    ensures ParseSuffix(l, SpKw(IS, Negation(negated, SpKw(NULL, Close(k))))) ==
      Got(Untyped(Unary(if negated then IsNotNull else IsNull, l)), k)
  {
    hide Len, ParseExpr, ParseBetween, ParseIn;
  }

  lemma StepOp(op: BinOp, l: Expr, t: Pieces, r: Expr, k: Pieces)
    requires ParseExpr(t) == Got(r, Close(k))
    ensures ParseSuffix(l, SpOp(op, t)) == Got(Untyped(Node.Binary(op, l, r)), k)
  {
    OpReads(op);
    hide Len, ParseExpr, ParseBetween, ParseIn, OpOf, OpText;
  }

  lemma OpReads(op: BinOp)
    ensures OpOf(OpText(op)) == Some(op) && OpText(op) !in [K(IS), K(BETWEEN), K(NOT), K(IN)]
  {
  }

  lemma StepConcat(t: Pieces, l: Expr, u: Pieces, r: Expr, k: Pieces)
    requires ParseExpr(t) == Got(l, CommaSp(u)) && ParseExpr(u) == Got(r, Close(k))
    ensures ParseExpr(Cons(K(CONCAT), Open(t))) == Got(Untyped(Node.Binary(Concat, l, r)), k)
  {
    hide Len;
    StepWord(CONCAT, Open(t));
    assert ParseWord(CONCAT, Open(t)) == ParseConcat(Open(t)) by {
      hide ParseConcat, ParseExpr;
    }
    hide ParseExpr, ParseWord;
  }

  lemma StepBetween(l: Expr, t: Pieces, lo: Expr, u: Pieces, hi: Expr, k: Pieces)
    requires ParseExpr(t) == Got(lo, SpKw(AND, Cons(Sp, u))) && ParseExpr(u) == Got(hi, Close(k))
    ensures ParseSuffix(l, SpKw(BETWEEN, Cons(Sp, t))) == Got(Untyped(Between(l, lo, hi)), k)
  {
    StepBounds(l, t, lo, u, hi, k);
    hide Len, ParseExpr, ParseIn, ParseBetween;
  }

  lemma StepBounds(l: Expr, t: Pieces, lo: Expr, u: Pieces, hi: Expr, k: Pieces)
    requires ParseExpr(t) == Got(lo, SpKw(AND, Cons(Sp, u))) && ParseExpr(u) == Got(hi, Close(k))
    ensures ParseBetween(l, KwSp(BETWEEN, t)) == Got(Untyped(Between(l, lo, hi)), k)
  {
    hide Len, ParseExpr;
  }

  lemma StepIn(l: Expr, negated: bool, inner: Pieces)
    ensures ParseSuffix(l, Negation(negated, SpKw(IN, Cons(Sp, Open(inner))))) ==
      ParseIn(l, negated, Cons(K(IN), Cons(Sp, Open(inner))))
  {
    hide Len, ParseExpr, ParseIn, ParseBetween;
  }

  lemma StepNot(t: Pieces, a: Expr, k: Pieces)
    requires Fresh(t) && ParseExpr(t) == Got(a, Close(k))
    ensures ParseExpr(Open(KwSp(NOT, t))) == Got(Untyped(Unary(Not, a)), k)
  {
    hide Len;
    StepParen(KwSp(NOT, t));
    hide ParseExpr, ParseExists, ParseSuffix, ParseQuery;
  }

  lemma StepNeg(t: Pieces, a: Expr, k: Pieces)
    requires ParseExpr(t) == Got(a, Close(k))
    ensures ParseExpr(Open(Cons(Y(Minus), t))) == Got(Untyped(Unary(Neg, a)), k)
  {
    hide Len;
    StepParen(Cons(Y(Minus), t));
    hide ParseExpr, ParseExists, ParseSuffix, ParseQuery;
  }

  lemma {:induction false} ReadExpr(e: Expr, d: Dialect, k: Pieces)
    requires Shaped(e, false) && ExprEnd(k)
    ensures ParseExpr(E(e, d, k)) == Got(Strip(e), k)
    decreases e, 3, 0
  {
    hide Len;
    match e.node
    case Ref(c) => ReadRef(c, k);
    case Lit(_) => ReadLiteral(e, d, k);
    case Unary(_, _) => ReadUnary(e, d, k);
    case Binary(_, _, _) => ReadBinary(e, d, k);
    case Between(_, _, _) => ReadBetween(e, d, k);
    case InList(_, _, _) => ReadIn(e, d, k);
    case InSubquery(_, _, _) => ReadIn(e, d, k);
    case Exists(_, _) => ReadExists(e, d, k);
    case ScalarSubquery(_) => ReadScalar(e, d, k);
    case Call(_, _) => ReadCall(e, d, k);
    case Case(_, _) => ReadCase(e, d, k);
    case Agg(_, _, _) => ReadAgg(e, d, k);
    case Window(_, _, _, _) => ReadWindow(e, d, k);
  }

  lemma ReadLiteral(e: Expr, d: Dialect, k: Pieces)
    requires Shaped(e, false) && e.node.Lit?
    ensures ParseExpr(E(e, d, k)) == Got(Strip(e), k)
  {
  }

  lemma {:induction false} ReadUnary(e: Expr, d: Dialect, k: Pieces)
    requires Shaped(e, false) && ExprEnd(k) && e.node.Unary?
    ensures ParseExpr(E(e, d, k)) == Got(Strip(e), k)
    decreases e, 2, 0
  {
    hide Len;
    var a := e.node.arg;
    assert Shaped(a, false);
    hide ParseExpr, ParseSuffix, Shaped;
    match e.node.unOp {
      case Not =>
        ReadExpr(a, d, Close(k));
        FirstPiece(a, d, Close(k));
        StepNot(E(a, d, Close(k)), Strip(a), k);
      case Neg =>
        ReadExpr(a, d, Close(k));
        StepNeg(E(a, d, Close(k)), Strip(a), k);
      case _ =>
        var negated := e.node.unOp == IsNotNull;
        var suffix := SpKw(IS, Negation(negated, SpKw(NULL, Close(k))));
        ReadExpr(a, d, suffix);
        FirstPiece(a, d, suffix);
        StepNull(Strip(a), negated, k);
        StepOperand(E(a, d, suffix), Strip(a), suffix);
    }
  }

  lemma {:induction false} ReadBinary(e: Expr, d: Dialect, k: Pieces)
    requires Shaped(e, false) && ExprEnd(k) && e.node.Binary?
    ensures ParseExpr(E(e, d, k)) == Got(Strip(e), k)
    decreases e, 2, 0
  {
    hide Len, ParseExpr, Shaped, Strip, E;
    if e.node.op == Concat && d.concatCall {
      ReadConcat(e, d, k);
    } else {
      ReadInfix(e, d, k);
    }
  }

  lemma {:induction false} ReadConcat(e: Expr, d: Dialect, k: Pieces)
    requires Shaped(e, false) && ExprEnd(k) && e.node.Binary? && e.node.op == Concat && d.concatCall
    ensures ParseExpr(E(e, d, k)) == Got(Strip(e), k)
    decreases e, 1, 0
  {
    hide Len;
    var l, r := e.node.lhs, e.node.rhs;
    BinaryParts(e);
    BinaryText(e, d, k);
    hide ParseExpr, Shaped, Strip, E;
    var right := E(r, d, Close(k));
    ReadExpr(r, d, Close(k));
    ReadExpr(l, d, CommaSp(right));
    StepConcat(E(l, d, CommaSp(right)), Strip(l), right, Strip(r), k);
  }

  lemma {:induction false} ReadInfix(e: Expr, d: Dialect, k: Pieces)
    requires Shaped(e, false) && ExprEnd(k) && e.node.Binary? && !(e.node.op == Concat && d.concatCall)
    ensures ParseExpr(E(e, d, k)) == Got(Strip(e), k)
    decreases e, 1, 0
  {
    hide Len;
    var l, r := e.node.lhs, e.node.rhs;
    BinaryParts(e);
    BinaryText(e, d, k);
    hide ParseExpr, ParseSuffix, Shaped, Strip, E;
    var right := E(r, d, Close(k));
    var suffix := SpOp(e.node.op, right);
    ReadExpr(r, d, Close(k));
    ReadExpr(l, d, suffix);
    FirstPiece(l, d, suffix);
    StepOp(e.node.op, Strip(l), right, Strip(r), k);
    StepOperand(E(l, d, suffix), Strip(l), suffix);
  }

  lemma BinaryParts(e: Expr)
    requires Shaped(e, false) && e.node.Binary?
    ensures Shaped(e.node.lhs, false) && Shaped(e.node.rhs, false)
    ensures Strip(e) == Untyped(Node.Binary(e.node.op, Strip(e.node.lhs), Strip(e.node.rhs)))
  {
  }

  lemma BinaryText(e: Expr, d: Dialect, k: Pieces)
    requires e.node.Binary?
    ensures
      var right := E(e.node.rhs, d, Close(k));
      E(e, d, k) == if e.node.op == Concat && d.concatCall then Cons(K(CONCAT), Open(E(e.node.lhs, d, CommaSp(right))))
                    else Open(E(e.node.lhs, d, SpOp(e.node.op, right)))
  {
  }

  lemma {:induction false} ReadBetween(e: Expr, d: Dialect, k: Pieces)
    requires Shaped(e, false) && ExprEnd(k) && e.node.Between?
    ensures ParseExpr(E(e, d, k)) == Got(Strip(e), k)
    decreases e, 2, 0
  {
    hide Len;
    var a, lo, hi := e.node.arg, e.node.lo, e.node.hi;
    assert Shaped(a, false) && Shaped(lo, false) && Shaped(hi, false);
    hide ParseExpr, ParseSuffix, Shaped;
    var high := E(hi, d, Close(k));
    ReadExpr(hi, d, Close(k));
    var rest := SpKw(AND, Cons(Sp, high));
    ReadExpr(lo, d, rest);
    var suffix := SpKw(BETWEEN, Cons(Sp, E(lo, d, rest)));
    ReadExpr(a, d, suffix);
    FirstPiece(a, d, suffix);
    StepBetween(Strip(a), E(lo, d, rest), Strip(lo), high, Strip(hi), k);
    StepOperand(E(a, d, suffix), Strip(a), suffix);
  }

  lemma {:induction false} ReadIn(e: Expr, d: Dialect, k: Pieces)
    requires Shaped(e, false) && ExprEnd(k) && (e.node.InList? || e.node.InSubquery?)
    ensures ParseExpr(E(e, d, k)) == Got(Strip(e), k)
    decreases e, 2, 0
  {
    hide Len;
    var a, negated := e.node.arg, e.node.negated;
    assert Shaped(a, false);
    var end := Close(Close(k));
    var inner := if e.node.InList? then Args(e, 0, d, end) else Q(e.node.sub, d, end);
    if e.node.InList? {
      ReadArgs(e, 0, d, end);
      FirstArg(e, d, end);
      assert StripArgs(e)[0..] == StripArgs(e);
    } else {
      ReadQuery(e.node.sub, d, end);
      FirstOfQuery(e.node.sub, d, end);
    }
    hide ParseExpr, ParseSuffix, ParseIn, ParseQuery, ParseArgs, Shaped, ShapedQuery, StripQuery, Q, Args;
    InFollows(e, d, k, inner);
    var suffix := Negation(negated, SpKw(IN, Cons(Sp, Open(inner))));
    ReadExpr(a, d, suffix);
    FirstPiece(a, d, suffix);
    StepIn(Strip(a), negated, inner);
    StepOperand(E(a, d, suffix), Strip(a), suffix);
  }

  lemma InFollows(e: Expr, d: Dialect, k: Pieces, inner: Pieces)
    requires e.node.InList? || e.node.InSubquery?
    requires e.node.InList? ==> !Starts(K(SELECT), inner) && ParseArgs(inner) == Got(StripArgs(e), Close(Close(k)))
    requires e.node.InSubquery? ==>
      Starts(K(SELECT), inner) && ParseQuery(inner) == Got(StripQuery(e.node.sub), Close(Close(k)))
    ensures ParseIn(Strip(e.node.arg), e.node.negated, Cons(K(IN), Cons(Sp, Open(inner)))) == Got(Strip(e), k)
  {
    hide Len, ParseQuery, ParseArgs, StripQuery;
    if e.node.InList? {
      assert Strip(e).node.items == StripArgs(e);
    }
  }

  /** A list in parentheses does not look like a subquery. */
  lemma FirstArg(e: Expr, d: Dialect, k: Pieces)
    requires Shaped(e, false) && e.node.InList? && Starts(Y(RPar), k)
    ensures !Starts(K(SELECT), Args(e, 0, d, k))
  {
    hide Len;
    if ArgsOf(e) != [] {
      FirstPiece(ArgsOf(e)[0], d, if 1 == |ArgsOf(e)| then k else CommaSp(Args(e, 1, d, k)));
    }
  }

  /** A plain query starts with SELECT. */
  lemma FirstOfQuery(q: QuerySpec, d: Dialect, k: Pieces)
    requires Plain(q)
    ensures Starts(K(SELECT), Q(q, d, k))
  {
    hide Len;
    assert Q(q, d, k) == Core(q, d, k);
    assert Core(q, d, k) == Body(q, d, Rendering.Tail(q, d, k));
  }

  lemma {:induction false} ReadExists(e: Expr, d: Dialect, k: Pieces)
    requires Shaped(e, false) && ExprEnd(k) && e.node.Exists?
    ensures ParseExpr(E(e, d, k)) == Got(Strip(e), k)
    decreases e, 2, 0
  {
    hide Len;
    var end := Close(Close(k));
    ReadQuery(e.node.sub, d, end);
    StepExists(e.node.negated, Q(e.node.sub, d, end), StripQuery(e.node.sub), k);
    hide ParseExpr, ParseQuery, Shaped, ShapedQuery, Q, StripQuery;
  }

  lemma StepExists(negated: bool, t: Pieces, q: QuerySpec, k: Pieces)
    requires ParseQuery(t) == Got(q, Close(Close(k)))
    ensures
      var u := KwSp(EXISTS, Open(t));
      ParseExpr(Open(if negated then KwSp(NOT, u) else u)) == Got(Untyped(Exists(q, negated)), k)
  {
    hide Len, ParseQuery, ParseSuffix, ParseWord;
    var u := KwSp(EXISTS, Open(t));
    assert ParseExists(negated, u) == Got(Untyped(Exists(q, negated)), k);
    StepParen(if negated then KwSp(NOT, u) else u);
    hide ParseExpr, ParseExists;
  }

  lemma {:induction false} ReadScalar(e: Expr, d: Dialect, k: Pieces)
    requires Shaped(e, false) && ExprEnd(k) && e.node.ScalarSubquery?
    ensures ParseExpr(E(e, d, k)) == Got(Strip(e), k)
    decreases e, 2, 0
  {
    hide Len;
    hide ParseExpr, ParseQuery, ShapedQuery, Q, StripQuery;
    ReadQuery(e.node.sub, d, Close(k));
    FirstOfQuery(e.node.sub, d, Close(k));
    StepScalar(Q(e.node.sub, d, Close(k)), StripQuery(e.node.sub), k);
  }

  lemma StepScalar(t: Pieces, q: QuerySpec, k: Pieces)
    requires Starts(K(SELECT), t) && ParseQuery(t) == Got(q, Close(k))
    ensures ParseExpr(Open(t)) == Got(Untyped(ScalarSubquery(q)), k)
  {
    hide Len, ParseQuery, ParseSuffix, ParseExists, ParseWord;
    StepParen(t);
    hide ParseExpr;
  }

  lemma {:induction false} ReadCall(e: Expr, d: Dialect, k: Pieces)
    requires Shaped(e, false) && ExprEnd(k) && e.node.Call?
    ensures ParseExpr(E(e, d, k)) == Got(Strip(e), k)
    decreases e, 2, 0
  {
    hide Len;
    ReadArgs(e, 0, d, Close(k));
    assert StripArgs(e)[0..] == StripArgs(e) == Strip(e).node.args;
    StepCall(e.node.fn, Args(e, 0, d, Close(k)), StripArgs(e), k);
  }

  lemma StepCall(fn: Func, t: Pieces, args: seq<Expr>, k: Pieces)
    requires ParseArgs(t) == Got(args, Close(k))
    ensures ParseExpr(Cons(K(FuncWord(fn)), Open(t))) == Got(Untyped(Call(fn, args)), k)
  {
    hide Len;
    StepWord(FuncWord(fn), Open(t));
    WordCall(fn, t);
    hide ParseExpr, ParseArgs, ParseWord;
  }

  lemma WordCall(fn: Func, t: Pieces)
    ensures ParseWord(FuncWord(fn), Open(t)) == ParseCall(fn, t)
  {
    hide Len, ParseConcat, ParseCase, ParseAggregate, ParseCall;
    assert FuncOf(FuncWord(fn)) == Some(fn);
  }

  /** One argument, the last one or followed by more. */
  lemma StepArg(t: Pieces, a: Expr, u: Pieces, more: seq<Expr>, k: Pieces)
    requires Fresh(t) && Starts(Y(RPar), k)
    requires
      if more == [] then ParseExpr(t) == Got(a, k)
      else ParseExpr(t) == Got(a, CommaSp(u)) && ParseMoreArgs(u) == Got(more, k)
    ensures ParseArgs(t) == ParseMoreArgs(t) == Got([a] + more, k)
  {
    hide Len;
    assert more == [] ==> [a] + more == [a];
    hide ParseExpr;
  }

  lemma {:induction false} ReadArgs(e: Expr, i: nat, d: Dialect, k: Pieces)
    requires i <= |ArgsOf(e)| && Starts(Y(RPar), k)
    requires forall j :: 0 <= j < |ArgsOf(e)| ==> Shaped(ArgsOf(e)[j], false)
    ensures ParseArgs(Args(e, i, d, k)) == Got(StripArgs(e)[i..], k)
    ensures i < |ArgsOf(e)| ==> ParseMoreArgs(Args(e, i, d, k)) == Got(StripArgs(e)[i..], k)
    decreases e, 1, |ArgsOf(e)| - i
  {
    hide Len, ParseExpr, ParseMoreArgs, E, Strip;
    if i == |ArgsOf(e)| {
      assert StripArgs(e)[i..] == [];
    } else {
      var more := Args(e, i + 1, d, k);
      var rest := if i + 1 == |ArgsOf(e)| then k else CommaSp(more);
      ReadExpr(ArgsOf(e)[i], d, rest);
      FirstPiece(ArgsOf(e)[i], d, rest);
      ReadArgs(e, i + 1, d, k);
      StepArg(E(ArgsOf(e)[i], d, rest), Strip(ArgsOf(e)[i]), more, StripArgs(e)[i + 1..], k);
      assert StripArgs(e)[i..] == [Strip(ArgsOf(e)[i])] + StripArgs(e)[i + 1..];
    }
  }

  lemma {:induction false} ReadCase(e: Expr, d: Dialect, k: Pieces)
    requires Shaped(e, false) && ExprEnd(k) && e.node.Case?
    ensures ParseExpr(E(e, d, k)) == Got(Strip(e), k)
    decreases e, 2, 0
  {
    hide Len, ParseExpr, ParseWhens, ParseWord, ParseCase, Whens;
    var otherwise := e.node.otherwise;
    var end := SpKw(END, k);
    var rest := OptionText(ELSE, otherwise, d, end);
    if otherwise.Some? {
      ReadExpr(otherwise.value, d, end);
    }
    ReadWhens(e, 0, d, rest);
    assert Strip(e).node.whens == StripWhens(e.node.whens) == StripWhens(e.node.whens)[0..];
    hide StripWhens, Shaped;
    StepWord(CASE, Whens(e, 0, d, rest));
    StepCase(Whens(e, 0, d, rest), StripWhens(e.node.whens), otherwise, d, k);
  }

  lemma StepCase(t: Pieces, whens: seq<When>, otherwise: Option<Expr>, d: Dialect, k: Pieces)
    requires ParseWhens(t) == Got(whens, OptionText(ELSE, otherwise, d, SpKw(END, k)))
    requires otherwise.Some? ==>
      ParseExpr(E(otherwise.value, d, SpKw(END, k))) == Got(Strip(otherwise.value), SpKw(END, k))
    ensures ParseWord(CASE, t) == Got(Untyped(Node.Case(whens, StripOption(otherwise))), k)
  {
    hide Len, ParseExpr, ParseWhens, ParseConcat, ParseCall, ParseAggregate, E, Strip;
  }

  lemma StepWhen(t: Pieces, cond: Expr, u: Pieces, result: Expr, v: Pieces, more: seq<When>, k: Pieces)
    requires ParseExpr(t) == Got(cond, SpKw(THEN, Cons(Sp, u))) && ParseExpr(u) == Got(result, v) &&
      ParseWhens(v) == Got(more, k)
    ensures ParseWhens(SpKw(WHEN, Cons(Sp, t))) == Got([When(cond, result)] + more, k)
  {
    hide Len, ParseExpr;
  }

  lemma {:induction false} ReadWhens(e: Expr, i: nat, d: Dialect, k: Pieces)
    requires e.node.Case? && i <= |e.node.whens| && Shaped(e, false) && ExprEnd(k) && !StartsSp(K(WHEN), k)
    ensures ParseWhens(Whens(e, i, d, k)) == Got(StripWhens(e.node.whens)[i..], k) && ExprEnd(Whens(e, i, d, k))
    decreases e, 1, |e.node.whens| - i
  {
    hide Len;
    if i == |e.node.whens| {
      assert StripWhens(e.node.whens)[i..] == [];
    } else {
      var w := e.node.whens[i];
      assert Shaped(w.cond, false) && Shaped(w.result, false) &&
        StripWhens(e.node.whens)[i] == When(Strip(w.cond), Strip(w.result));
      SliceCons(StripWhens(e.node.whens), i);
      WhensText(e, i, d, k);
      hide ParseExpr, E, Strip, Shaped, ParseWhens, Whens, StripWhens;
      var rest := Whens(e, i + 1, d, k);
      ReadWhens(e, i + 1, d, k);
      ReadExpr(w.result, d, rest);
      var then_ := SpKw(THEN, Cons(Sp, E(w.result, d, rest)));
      ReadExpr(w.cond, d, then_);
      StepWhen(E(w.cond, d, then_), Strip(w.cond), E(w.result, d, rest), Strip(w.result), rest,
        StripWhens(e.node.whens)[i + 1..], k);
    }
  }

  lemma WhensText(e: Expr, i: nat, d: Dialect, k: Pieces)
    requires e.node.Case? && i < |e.node.whens|
    ensures
      var w := e.node.whens[i];
      Whens(e, i, d, k) ==
        SpKw(WHEN, Cons(Sp, E(w.cond, d, SpKw(THEN, Cons(Sp, E(w.result, d, Whens(e, i + 1, d, k)))))))
  {
    hide Len, E;
  }

  lemma {:induction false} ReadAgg(e: Expr, d: Dialect, k: Pieces)
    requires Shaped(e, false) && ExprEnd(k) && e.node.Agg?
    ensures ParseExpr(E(e, d, k)) == Got(Strip(e), k)
    decreases e, 2, 0
  {
    hide Len;
    var arg := e.node.aggArg;
    if arg.Some? {
      ReadExpr(arg.value, d, Close(k));
      FirstPiece(arg.value, d, Close(k));
    }
    StepAgg(e.node.agg, e.node.aggDistinct, StripOption(arg),
            if arg.Some? then E(arg.value, d, Close(k)) else Cons(Y(Star), Close(k)), k);
    hide ParseExpr, Shaped;
  }

  lemma StepAgg(fn: AggFunc, distinct: bool, arg: Option<Expr>, t: Pieces, k: Pieces)
    requires ExprEnd(k) && (arg.None? ==> fn == AggCount && !distinct && t == Cons(Y(Star), Close(k)))
    requires arg.Some? ==> Fresh(t) && ParseExpr(t) == Got(arg.value, Close(k))
    ensures ParseExpr(Cons(K(AggWord(fn)), Open(if distinct then KwSp(DISTINCT, t) else t))) ==
      Got(Untyped(Agg(fn, arg, distinct)), k)
  {
    var word := AggWord(fn);
    AggKeyword(fn);
    StepWord(word, Open(if distinct then KwSp(DISTINCT, t) else t));
    StepAggregate(word, if distinct then KwSp(DISTINCT, t) else t);
    hide Len, ParseExpr, ParseWord, ParseAggregate, AggWord, WinOf, AggOf, Fresh, FinishAggregate;
    if distinct {
      StepDistinct(word, arg.value, t, k);
    } else {
      StepOne(word, arg, t, Close(k));
      FinishAgg(fn, arg, k);
    }
  }

  lemma AggKeyword(fn: AggFunc)
    ensures WinOf(AggWord(fn)).Some? && !Ranking(WinOf(AggWord(fn)).value) && AggOf(AggWord(fn)) == Some(fn)
  {
  }

  lemma StepDistinct(k: Keyword, a: Expr, t: Pieces, end: Pieces)
    requires WinOf(k).Some? && !Ranking(WinOf(k).value) && AggOf(k).Some? && ParseExpr(t) == Got(a, Close(end))
    ensures ParseAggregate(k, KwSp(DISTINCT, t)) == Got(Untyped(Agg(AggOf(k).value, Some(a), true)), end)
  {
    hide Len, ParseExpr, WinOf, AggOf, FinishAggregate, ParseOverClause;
  }

  /** The one argument of an aggregate, or a star. */
  lemma StepOne(k: Keyword, arg: Option<Expr>, t: Pieces, end: Pieces)
    requires WinOf(k).Some? && !Ranking(WinOf(k).value)
    requires if arg.Some? then Fresh(t) && ParseExpr(t) == Got(arg.value, end) else t == Cons(Y(Star), end)
    ensures ParseAggregate(k, t) == FinishAggregate(k, arg, end)
  {
    hide Len, ParseExpr, WinOf, AggOf, FinishAggregate, ParseOverClause;
  }

  lemma FinishAgg(fn: AggFunc, arg: Option<Expr>, k: Pieces)
    requires ExprEnd(k) && WinOf(AggWord(fn)).Some?
    ensures FinishAggregate(AggWord(fn), arg, Close(k)) == Got(Untyped(Agg(fn, arg, false)), k)
  {
    hide Len, ParseOverClause;
  }

  lemma StepAggregate(k: Keyword, t: Pieces)
    requires WinOf(k).Some?
    ensures ParseWord(k, Open(t)) == ParseAggregate(k, t)
  {
    hide Len, ParseAggregate, ParseExpr, ParseConcat, ParseCase, ParseCall;
  }

  lemma {:induction false} ReadWindow(e: Expr, d: Dialect, k: Pieces)
    requires Shaped(e, false) && ExprEnd(k) && e.node.Window?
    ensures ParseExpr(E(e, d, k)) == Got(Strip(e), k)
    decreases e, 2, 0
  {
    hide Len, ParseExpr, OverText, Fresh, WinWord;
    var fn, arg := e.node.win, e.node.winArg;
    var over := SpKw(OVER, Cons(Sp, Open(OverText(e.node.partitionBy, e.node.over, Close(k)))));
    if arg.Some? {
      ReadExpr(arg.value, d, Close(over));
      FirstPiece(arg.value, d, Close(over));
    }
    StepWindow(fn, StripOption(arg), e.node.partitionBy, e.node.over,
               if arg.Some? then E(arg.value, d, Close(over)) else Cons(Y(Star), Close(over)), Close(over), k);
  }

  lemma StepWindow(fn: WinFunc, arg: Option<Expr>, partitionBy: seq<ColumnRef>, over: seq<ColumnRef>, t: Pieces,
          end: Pieces, k: Pieces)
    requires end == Close(SpKw(OVER, Cons(Sp, Open(OverText(partitionBy, over, Close(k))))))
    requires arg.None? ==> t == Cons(Y(Star), end)
    requires arg.Some? ==> !Ranking(fn) && Fresh(t) && ParseExpr(t) == Got(arg.value, end)
    ensures ParseExpr(Cons(K(WinWord(fn)), Open(if Ranking(fn) then end else t))) ==
      Got(Untyped(Window(fn, arg, partitionBy, over)), k)
  {
    hide Len;
    var word := WinWord(fn);
    FinishWindow(fn, arg, partitionBy, over, end, k);
    StepWord(word, Open(if Ranking(fn) then end else t));
    StepAggregate(word, if Ranking(fn) then end else t);
    if Ranking(fn) {
      StepRanking(word, partitionBy, over, end, k);
    } else {
      StepOne(word, arg, t, end);
    }
    hide Len, ParseExpr, ParseWord, ParseOverClause, ParseAggregate, OverText, FinishAggregate, WinOf, WinWord, Fresh;
  }

  lemma StepRanking(k: Keyword, partitionBy: seq<ColumnRef>, over: seq<ColumnRef>, end: Pieces, r: Pieces)
    requires WinOf(k).Some? && Ranking(WinOf(k).value)
    requires Starts(Y(RPar), end) && ParseOverClause(end.tail) == Got((partitionBy, over), r)
    ensures ParseAggregate(k, end) == Got(Untyped(Window(WinOf(k).value, None, partitionBy, over)), r)
  {
    hide Len, ParseExpr, WinOf, AggOf, FinishAggregate, ParseOverClause;
  }

  lemma FinishWindow(fn: WinFunc, arg: Option<Expr>, partitionBy: seq<ColumnRef>, over: seq<ColumnRef>,
          end: Pieces, k: Pieces)
    requires end == Close(SpKw(OVER, Cons(Sp, Open(OverText(partitionBy, over, Close(k))))))
    ensures WinOf(WinWord(fn)) == Some(fn)
    ensures FinishAggregate(WinWord(fn), arg, end) == Got(Untyped(Window(fn, arg, partitionBy, over)), k)
    ensures ParseOverClause(end.tail) == Got((partitionBy, over), k)
  {
    hide Len;
    ReadOverClause(partitionBy, over, k);
    hide ParseOverClause, OverText;
  }

  // ---- queries ----

  /** What may follow a query. */
  predicate QueryEnd(k: Pieces) { k.Nil? || Starts(Y(RPar), k) }

  /** What may follow SELECT ... HAVING. */
  predicate BodyEnd(k: Pieces) {
    QueryEnd(k) || StartsSp(K(ORDER), k) || StartsSp(K(LIMIT), k) || StartsSp(K(OFFSET), k) || StartsSp(K(FOR), k)
  }

  function StripItems(q: QuerySpec): (r: seq<SelectItem>)
    ensures |r| == |q.items|
  {
    StripQuery(q).items
  }

  function StripJoins(q: QuerySpec): (r: seq<Join>)
    ensures |r| == |q.joins|
  {
    StripQuery(q).joins
  }

  function StripOrders(q: QuerySpec): (r: seq<OrderItem>)
    ensures |r| == |q.orderBy|
  {
    StripQuery(q).orderBy
  }

  function StripCtes(q: QuerySpec): (r: seq<Cte>)
    ensures |r| == |q.ctes|
  {
    StripQuery(q).ctes
  }

  function OptionText(k: Keyword, e: Option<Expr>, d: Dialect, r: Pieces): Pieces {
    if e.Some? then SpKw(k, Cons(Sp, E(e.value, d, r))) else r
  }

  function StripOption(e: Option<Expr>): Option<Expr> { if e.Some? then Some(Strip(e.value)) else None }

  lemma {:induction false} ReadOption(k: Keyword, e: Option<Expr>, d: Dialect, r: Pieces)
    requires e.Some? ==> Shaped(e.value, false)
    requires ExprEnd(r) && !StartsSp(K(k), r)
    ensures ParseOptional(k, OptionText(k, e, d, r)) == Got(StripOption(e), r)
    decreases e, 4, 0
  {
    hide Len;
    if e.Some? {
      ReadExpr(e.value, d, r);
    }
  }

  lemma StepItem(t: Pieces, e: Expr, name: string, u: Pieces, more: seq<SelectItem>, k: Pieces)
    requires StartsSp(K(FROM), k)
    requires ParseExpr(t) == Got(e, SpKw(AS, SpName(name, if more == [] then k else CommaSp(u))))
    requires more != [] ==> ParseItems(u) == Got(more, k)
    ensures ParseItems(t) == Got([SelectItem(e, name)] + more, k)
  {
    hide Len;
    assert more == [] ==> [SelectItem(e, name)] + more == [SelectItem(e, name)];
    hide ParseExpr;
  }

  lemma ItemAt(q: QuerySpec, i: nat)
    requires i < |q.items| && ShapedQuery(q, false)
    ensures Shaped(q.items[i].expr, false)
    ensures StripItems(q)[i] == SelectItem(Strip(q.items[i].expr), q.items[i].colAlias)
  {
    hide Len, Strip, Shaped;
  }

  lemma {:induction false} ReadItems(q: QuerySpec, i: nat, d: Dialect, k: Pieces)
    requires i < |q.items| && ShapedQuery(q, false) && StartsSp(K(FROM), k)
    ensures ParseItems(Items(q, i, d, k)) == Got(StripItems(q)[i..], k)
    decreases q, 1, |q.items| - i
  {
    hide Len, ParseExpr, ParseItems, Items, E, Strip, StripItems, StripQuery, Shaped, ShapedQuery;
    ItemAt(q, i);
    ItemsText(q, i, d, k);
    SliceCons(StripItems(q), i);
    var item := q.items[i];
    var more := if i + 1 == |q.items| then k else Items(q, i + 1, d, k);
    var rest := SpKw(AS, SpName(item.colAlias, if i + 1 == |q.items| then k else CommaSp(more)));
    if i + 1 < |q.items| {
      ReadItems(q, i + 1, d, k);
    }
    ReadExpr(item.expr, d, rest);
    StepItem(E(item.expr, d, rest), Strip(item.expr), item.colAlias, more, StripItems(q)[i + 1..], k);
  }

  lemma ItemsText(q: QuerySpec, i: nat, d: Dialect, k: Pieces)
    requires i < |q.items|
    ensures
      var rest := if i + 1 == |q.items| then k else CommaSp(Items(q, i + 1, d, k));
      Items(q, i, d, k) == E(q.items[i].expr, d, SpKw(AS, SpName(q.items[i].colAlias, rest)))
  {
    hide Len, E;
  }

  lemma ReadJoinKind(kind: JoinKind, k: Pieces)
    ensures StartsJoin(Cons(Sp, JoinText(kind, k))) && ParseJoinKind(Cons(Sp, JoinText(kind, k))) == Got(kind, k)
  {
  }

  lemma StepJoin(kind: JoinKind, source: TableSource, t: Pieces, cond: Option<Expr>, u: Pieces, more: seq<Join>,
          k: Pieces)
    requires ParseOptional(ON, t) == Got(cond, u) && ParseJoins(u) == Got(more, k)
    ensures ParseJoins(Cons(Sp, JoinText(kind, SpName(source.table, SpName(source.alias, t))))) ==
      Got([Join(kind, source, cond)] + more, k)
  {
    hide Len;
    ReadJoinKind(kind, SpName(source.table, SpName(source.alias, t)));
    hide ParseOptional, ParseJoinKind, JoinText, StartsJoin;
  }

  lemma JoinAt(q: QuerySpec, i: nat)
    requires i < |q.joins| && ShapedQuery(q, false)
    ensures StripJoins(q)[i] == Join(q.joins[i].kind, q.joins[i].source, StripOption(q.joins[i].condition))
    ensures q.joins[i].condition.Some? ==> Shaped(q.joins[i].condition.value, false)
  {
    hide Len, Strip, Shaped;
  }

  lemma NoJoins(k: Pieces)
    requires !StartsJoin(k)
    ensures ParseJoins(k) == Got([], k)
  {
  }

  lemma {:induction false} ReadJoins(q: QuerySpec, i: nat, d: Dialect, k: Pieces)
    requires i <= |q.joins| && ShapedQuery(q, false) && ExprEnd(k) && !StartsJoin(k) && !StartsSp(K(ON), k)
    ensures ParseJoins(Joins(q, i, d, k)) == Got(StripJoins(q)[i..], k)
    ensures ExprEnd(Joins(q, i, d, k)) && !StartsSp(K(ON), Joins(q, i, d, k))
    decreases q, 1, |q.joins| - i
  {
    hide Len, Shaped, ShapedQuery, Strip, StripOption, StripQuery, StripJoins, E, ParseExpr, ParseOptional, ParseJoins;
    if i == |q.joins| {
      assert ParseJoins(k) == Got([], k) by {
        NoJoins(k);
      }
      assert StripJoins(q)[i..] == [];
    } else {
      var j := q.joins[i];
      JoinAt(q, i);
      var rest := Joins(q, i + 1, d, k);
      ReadJoins(q, i + 1, d, k);
      ReadOption(ON, j.condition, d, rest);
      StepJoin(j.kind, j.source, OptionText(ON, j.condition, d, rest), StripOption(j.condition), rest,
        StripJoins(q)[i + 1..], k);
      assert StripJoins(q)[i..] == [StripJoins(q)[i]] + StripJoins(q)[i + 1..];
    }
  }

  lemma StepOrder(t: Pieces, e: Expr, desc: bool, u: Pieces, more: seq<OrderItem>, k: Pieces)
    requires !Starts(Y(Comma), k) && !StartsSp(K(DESC), k)
    requires
      var rest := if more == [] then k else CommaSp(u);
      ParseExpr(t) == Got(e, if desc then SpKw(DESC, rest) else rest)
    requires more != [] ==> ParseOrders(u) == Got(more, k)
    ensures ParseOrders(t) == Got([OrderItem(e, desc)] + more, k)
  {
    hide Len;
    assert more == [] ==> [OrderItem(e, desc)] + more == [OrderItem(e, desc)];
    hide ParseExpr;
  }

  lemma OrderAt(q: QuerySpec, i: nat)
    requires i < |q.orderBy| && ShapedQuery(q, false)
    ensures Shaped(q.orderBy[i].expr, false) &&
      StripOrders(q)[i] == OrderItem(Strip(q.orderBy[i].expr), q.orderBy[i].desc)
  {
    hide Len, Strip, Shaped;
  }

  lemma OrdersText(q: QuerySpec, i: nat, d: Dialect, k: Pieces)
    requires i < |q.orderBy|
    ensures
      var rest := if i + 1 == |q.orderBy| then k else CommaSp(Orders(q, i + 1, d, k));
      Orders(q, i, d, k) == E(q.orderBy[i].expr, d, if q.orderBy[i].desc then SpKw(DESC, rest) else rest)
  {
    hide E;
  }

  lemma {:induction false} ReadOrders(q: QuerySpec, i: nat, d: Dialect, k: Pieces)
    requires i < |q.orderBy| && ShapedQuery(q, false) && ExprEnd(k) && !Starts(Y(Comma), k) && !StartsSp(K(DESC), k)
    ensures ParseOrders(Orders(q, i, d, k)) == Got(StripOrders(q)[i..], k)
    decreases q, 1, |q.orderBy| - i
  {
    hide Len, ParseExpr, ParseOrders, E, Strip, StripQuery, StripOrders, Shaped, ShapedQuery, Orders;
    var o := q.orderBy[i];
    OrderAt(q, i);
    OrdersText(q, i, d, k);
    SliceCons(StripOrders(q), i);
    var more := if i + 1 == |q.orderBy| then k else Orders(q, i + 1, d, k);
    var rest := if i + 1 == |q.orderBy| then k else CommaSp(more);
    if i + 1 < |q.orderBy| {
      ReadOrders(q, i + 1, d, k);
    }
    var suffix := if o.desc then SpKw(DESC, rest) else rest;
    ReadExpr(o.expr, d, suffix);
    StepOrder(E(o.expr, d, suffix), Strip(o.expr), o.desc, more, StripOrders(q)[i + 1..], k);
  }

  /** The part of q its body shows. */
  function StripBody(q: QuerySpec): QuerySpec {
    StripQuery(q).(ctes := [], orderBy := [], limit := None, offset := None, lock := LockSpec(NoLock, ""),
      setOpRhs := None, setOpKind := UnionAll)
  }

  function GroupText(q: QuerySpec, r: Pieces): Pieces {
    if q.groupBy != [] then SpKw(GROUP, SpKw(BY, Cons(Sp, RefList(q.groupBy, r)))) else r
  }

  lemma ReadGroup(q: QuerySpec, r: Pieces)
    requires ExprEnd(r) && !Starts(Y(Comma), r) && !StartsSp(K(GROUP), r)
    ensures ParseGroup(GroupText(q, r)) == Got(q.groupBy, r)
  {
    hide Len;
    if q.groupBy != [] {
      ReadRefs(q.groupBy, r);
    }
  }

  /** A body, clause by clause. */
  lemma StepBody(t: Pieces, q: QuerySpec, joins: Pieces, filter: Pieces, group: Pieces, having: Pieces, k: Pieces)
    requires Fresh(t) && ParseItems(t) == Got(q.items, SpKw(FROM, SpName(q.from.table, SpName(q.from.alias, joins))))
    requires ParseJoins(joins) == Got(q.joins, filter) && ParseOptional(WHERE, filter) == Got(q.filter, group)
    requires ParseGroup(group) == Got(q.groupBy, having) && ParseOptional(HAVING, having) == Got(q.having, k)
    ensures ParseBody(KwSp(SELECT, if q.distinct then KwSp(DISTINCT, t) else t)) ==
            Got(QuerySpec([], q.from, q.joins, q.distinct, q.items, q.filter, q.groupBy, q.having, [], None, None,
                          LockSpec(NoLock, ""), None, UnionAll), k)
  {
    hide Len, ParseItems, ParseJoins, ParseOptional, ParseGroup;
  }

  lemma BodyShaped(q: QuerySpec)
    requires ShapedQuery(q, false)
    ensures q.items != [] && (q.filter.Some? ==> Shaped(q.filter.value, false)) &&
      (q.having.Some? ==> Shaped(q.having.value, false))
    ensures StripQuery(q).filter == StripOption(q.filter) && StripQuery(q).having == StripOption(q.having)
    ensures StripQuery(q).items == StripItems(q) && StripQuery(q).joins == StripJoins(q)
    ensures StripQuery(q).from == q.from && StripQuery(q).distinct == q.distinct && StripQuery(q).groupBy == q.groupBy
  {
    hide Len, Strip, Shaped;
  }

  lemma {:induction false} ReadBody(q: QuerySpec, d: Dialect, k: Pieces)
    requires ShapedQuery(q, false) && BodyEnd(k)
    ensures ParseBody(Body(q, d, k)) == Got(StripBody(q), k)
    decreases q, 2, 0
  {
    hide Len;
    var filter := OptionText(WHERE, q.filter, d, GroupText(q, OptionText(HAVING, q.having, d, k)));
    ReadClauses(q, d, k);
    var from := SpKw(FROM, SpName(q.from.table, SpName(q.from.alias, Joins(q, 0, d, filter))));
    ReadItems(q, 0, d, from);
    FirstItem(q, d, from);
    BodyShaped(q);
    hide ParseItems, ParseJoins, ParseOptional, ParseGroup, ParseBody, ShapedQuery, Shaped, Items, Joins, E, Strip,
      StripQuery;
    assert StripItems(q)[0..] == StripItems(q);
    StepBody(Items(q, 0, d, from), StripQuery(q), Joins(q, 0, d, filter), filter,
             GroupText(q, OptionText(HAVING, q.having, d, k)), OptionText(HAVING, q.having, d, k), k);
    BodyText(q, d, k);
  }

  /** The joins, WHERE, GROUP BY and HAVING. */
  lemma {:induction false} ReadClauses(q: QuerySpec, d: Dialect, k: Pieces)
    requires ShapedQuery(q, false) && BodyEnd(k)
    ensures
      var having := OptionText(HAVING, q.having, d, k);
      var group := GroupText(q, having);
      var filter := OptionText(WHERE, q.filter, d, group);
      && ParseJoins(Joins(q, 0, d, filter)) == Got(StripJoins(q), filter)
      && ParseOptional(WHERE, filter) == Got(StripOption(q.filter), group)
      && ParseGroup(group) == Got(q.groupBy, having)
      && ParseOptional(HAVING, having) == Got(StripOption(q.having), k)
    decreases q, 1, |q.joins| + 2
  {
    hide Len;
    BodyShaped(q);
    ReadGrouping(q, d, k);
    hide ParseJoins, ParseOptional, ParseGroup, ShapedQuery, Shaped, Joins, E, Strip, StripQuery, StripJoins, GroupText;
    var group := GroupText(q, OptionText(HAVING, q.having, d, k));
    var filter := OptionText(WHERE, q.filter, d, group);
    ReadOption(WHERE, q.filter, d, group);
    ReadJoins(q, 0, d, filter);
    assert StripJoins(q)[0..] == StripJoins(q);
  }

  lemma GroupStarts(q: QuerySpec, r: Pieces)
    requires ExprEnd(r) && !StartsSp(K(WHERE), r) && !StartsJoin(r) && !StartsSp(K(ON), r)
    ensures
      var t := GroupText(q, r);
      ExprEnd(t) && !StartsSp(K(WHERE), t) && !StartsJoin(t) && !StartsSp(K(ON), t)
  {
    hide RefList;
  }

  lemma {:induction false} ReadGrouping(q: QuerySpec, d: Dialect, k: Pieces)
    requires ShapedQuery(q, false) && BodyEnd(k)
    ensures
      var having := OptionText(HAVING, q.having, d, k);
      var group := GroupText(q, having);
      && ParseGroup(group) == Got(q.groupBy, having)
      && ParseOptional(HAVING, having) == Got(StripOption(q.having), k)
      && ExprEnd(group) && !StartsSp(K(WHERE), group) && !StartsJoin(group) && !StartsSp(K(ON), group)
    decreases q, 1, |q.joins| + 1
  {
    hide Len, ParseOptional, ParseGroup, ShapedQuery, Shaped, E, Strip, StripQuery, StripOption, RefList, GroupText;
    BodyShaped(q);
    ReadOption(HAVING, q.having, d, k);
    ReadGroup(q, OptionText(HAVING, q.having, d, k));
    GroupStarts(q, OptionText(HAVING, q.having, d, k));
  }

  lemma FirstItem(q: QuerySpec, d: Dialect, k: Pieces)
    requires ShapedQuery(q, false)
    ensures Fresh(Items(q, 0, d, k))
  {
    hide Len;
    FirstPiece(q.items[0].expr, d,
      SpKw(AS, SpName(q.items[0].colAlias, if 1 == |q.items| then k else CommaSp(Items(q, 1, d, k)))));
  }

  lemma BodyText(q: QuerySpec, d: Dialect, k: Pieces)
    ensures
      var filter := OptionText(WHERE, q.filter, d, GroupText(q, OptionText(HAVING, q.having, d, k)));
      var from := SpKw(FROM, SpName(q.from.table, SpName(q.from.alias, Joins(q, 0, d, filter))));
      Body(q, d, k) == KwSp(SELECT, if q.distinct then KwSp(DISTINCT, Items(q, 0, d, from)) else Items(q, 0, d, from))
  {
    hide Len, Items, Joins, E;
  }

  lemma ReadNumber(k: Keyword, n: Option<nat>, r: Pieces)
    requires !StartsSp(K(k), r)
    ensures ParseNumber(k, if n.Some? then SpKw(k, SpNum(n.value, r)) else r) == Got(n, r)
  {
  }

  lemma ReadLock(lock: LockSpec, k: Pieces)
    requires QueryEnd(k) && (lock.ofAlias != "" ==> lock.clause != NoLock)
    ensures ParseLock(LockText(lock, k)) == Got(lock, k)
    ensures lock.clause != NoLock ==> StartsSp(K(FOR), LockText(lock, k))
    ensures lock.clause == NoLock ==> LockText(lock, k) == k
  {
  }

  lemma {:induction false} ReadTail(q0: QuerySpec, q: QuerySpec, d: Dialect, k: Pieces)
    requires ShapedQuery(q, false) && QueryEnd(k)
    ensures ParseTail(q0, Rendering.Tail(q, d, k)) ==
            Got(q0.(orderBy := StripOrders(q), limit := q.limit, offset := q.offset, lock := q.lock), k)
    ensures BodyEnd(Rendering.Tail(q, d, k))
    decreases q, 2, 0
  {
    LockShaped(q);
    hide Len, ParseOrder, ParseOrders, ParseNumber, ParseLock, ShapedQuery, Orders, Strip, StripQuery, StripOrders,
      Limits, ParseTail;
    ReadLimits(q, k);
    var limits := Limits(q, k);
    if q.orderBy != [] {
      ReadOrders(q, 0, d, limits);
      assert StripOrders(q)[0..] == StripOrders(q);
    }
    StepOrderBy(Orders(q, 0, d, limits), StripOrders(q), limits);
    StepTail(q0, Rendering.Tail(q, d, k), StripOrders(q), limits, q, k);
  }

  /** " ORDER BY ...", or nothing. */
  lemma StepOrderBy(t: Pieces, orderBy: seq<OrderItem>, limits: Pieces)
    requires !StartsSp(K(ORDER), limits) && (orderBy != [] ==> ParseOrders(t) == Got(orderBy, limits))
    ensures ParseOrder(if orderBy == [] then limits else SpKw(ORDER, SpKw(BY, Cons(Sp, t)))) == Got(orderBy, limits)
  {
    hide Len, ParseOrders;
  }

  lemma LockShaped(q: QuerySpec)
    requires ShapedQuery(q, false)
    ensures q.lock.ofAlias != "" ==> q.lock.clause != NoLock
  {
  }

  lemma StepTail(q0: QuerySpec, t: Pieces, orderBy: seq<OrderItem>, limits: Pieces, q: QuerySpec, k: Pieces)
    requires ParseOrder(t) == Got(orderBy, limits)
    requires
      var r2 := ParseNumber(LIMIT, limits);
      r2.Got? && r2.value == q.limit
      && var r3 := ParseNumber(OFFSET, r2.rest);
         r3.Got? && r3.value == q.offset && ParseLock(r3.rest) == Got(q.lock, k)
    ensures ParseTail(q0, t) == Got(q0.(orderBy := orderBy, limit := q.limit, offset := q.offset, lock := q.lock), k)
  {
    hide Len, ParseOrder, ParseNumber, ParseLock;
  }

  /** LIMIT, OFFSET and the lock, and nothing before them that ORDER BY takes. */
  lemma ReadLimits(q: QuerySpec, k: Pieces)
    requires QueryEnd(k) && (q.lock.ofAlias != "" ==> q.lock.clause != NoLock)
    ensures
      var r2 := ParseNumber(LIMIT, Limits(q, k));
      r2.Got? && r2.value == q.limit
      && var r3 := ParseNumber(OFFSET, r2.rest);
         r3.Got? && r3.value == q.offset && ParseLock(r3.rest) == Got(q.lock, k)
    ensures BodyEnd(Limits(q, k)) && !StartsSp(K(ORDER), Limits(q, k)) && !StartsSp(K(DESC), Limits(q, k))
    ensures ExprEnd(Limits(q, k)) && !Starts(Y(Comma), Limits(q, k))
  {
    hide Len;
    var lock := LockText(q.lock, k);
    ReadLock(q.lock, k);
    var offset := if q.offset.Some? then SpKw(OFFSET, SpNum(q.offset.value, lock)) else lock;
    ReadNumber(OFFSET, q.offset, lock);
    ReadNumber(LIMIT, q.limit, offset);
    hide ParseNumber, ParseLock, LockText;
  }

  lemma ReadSetOp(kind: SetOpKind, k: Pieces)
    requires Starts(Sp, k) && !StartsSp(K(ALL), k)
    ensures ParseSetOp(Cons(Sp, SetOpText(kind, k))) == Got(kind, k)
  {
  }

  lemma {:induction false} ReadCore(q: QuerySpec, d: Dialect, k: Pieces)
    requires ShapedQuery(q, false) && QueryEnd(k)
    ensures ParseCore(Core(q, d, k)) == Got(StripQuery(q).(ctes := []), k)
    decreases q, 3, 0
  {
    hide Len;
    var tail := Rendering.Tail(q, d, k);
    if q.setOpRhs.None? {
      ReadTail(StripBody(q), q, d, k);
      ReadBody(q, d, tail);
      StepPlain(Body(q, d, tail), StripBody(q), tail);
      hide ParseBody, ParseTail, ParseCore, Body, ShapedQuery, Rendering.Tail, Strip;
    } else {
      var rhs := q.setOpRhs.value;
      var right := Q(rhs, d, Close(tail));
      var left := Close(Cons(Sp, SetOpText(q.setOpKind, Cons(Sp, Open(right)))));
      ReadTail(StripBody(q).(setOpRhs := Some(StripQuery(rhs)), setOpKind := q.setOpKind), q, d, k);
      ReadQuery(rhs, d, Close(tail));
      ReadBody(q, d, left);
      StepSetOp(Body(q, d, left), StripBody(q), q.setOpKind, right, StripQuery(rhs), tail);
      hide ParseBody, ParseTail, ParseCore, ParseQuery, Body, ShapedQuery, Rendering.Tail, Strip, Q;
    }
  }

  lemma StepPlain(t: Pieces, q: QuerySpec, tail: Pieces)
    requires ParseBody(t) == Got(q, tail)
    ensures ParseCore(t) == ParseTail(q, tail)
  {
    hide Len, ParseTail, ParseQuery, ParseItems;
  }

  lemma StepSetOp(t: Pieces, q: QuerySpec, kind: SetOpKind, u: Pieces, rhs: QuerySpec, tail: Pieces)
    requires ParseBody(t) == Got(q, Close(Cons(Sp, SetOpText(kind, Cons(Sp, Open(u))))))
    requires ParseQuery(u) == Got(rhs, Close(tail))
    ensures ParseCore(Open(t)) == ParseTail(q.(setOpRhs := Some(rhs), setOpKind := kind), tail)
  {
    hide Len, ParseBody, ParseTail, ParseQuery, ParseItems, ParseExpr;
    ReadSetOp(kind, Cons(Sp, Open(u)));
    hide ParseSetOp, SetOpText;
  }

  lemma StepCte(name: string, t: Pieces, q: QuerySpec, u: Pieces, more: seq<Cte>, k: Pieces)
    requires Starts(Sp, k)
    requires ParseQuery(t) == Got(q, Close(if more == [] then k else CommaSp(u)))
    requires more != [] ==> ParseCtes(u) == Got(more, k)
    ensures ParseCtes(Cons(Name(name), SpKw(AS, Cons(Sp, Open(t))))) == Got([Cte(name, q)] + more, k)
  {
    hide Len;
    assert more == [] ==> [Cte(name, q)] + more == [Cte(name, q)];
    hide ParseQuery;
  }

  lemma CteAt(q: QuerySpec, i: nat)
    requires i < |q.ctes| && ShapedQuery(q, false)
    ensures ShapedQuery(q.ctes[i].query, false)
    ensures StripCtes(q)[i] == Cte(q.ctes[i].name, StripQuery(q.ctes[i].query))
  {
    hide Len, Strip, Shaped;
  }

  lemma {:induction false} ReadCtes(q: QuerySpec, i: nat, d: Dialect, k: Pieces)
    requires i < |q.ctes| && ShapedQuery(q, false) && Starts(Sp, k)
    ensures ParseCtes(Ctes(q, i, d, k)) == Got(StripCtes(q)[i..], k)
    decreases q, 1, |q.ctes| - i
  {
    hide Len, ParseQuery, ParseCtes, Ctes, Q, StripQuery, StripCtes, ShapedQuery;
    CteAt(q, i);
    CtesText(q, i, d, k);
    SliceCons(StripCtes(q), i);
    var c := q.ctes[i];
    var more := if i + 1 == |q.ctes| then k else Ctes(q, i + 1, d, k);
    var rest := if i + 1 == |q.ctes| then k else CommaSp(more);
    if i + 1 < |q.ctes| {
      ReadCtes(q, i + 1, d, k);
    }
    ReadQuery(c.query, d, Close(rest));
    StepCte(c.name, Q(c.query, d, Close(rest)), StripQuery(c.query), more, StripCtes(q)[i + 1..], k);
  }

  lemma SliceCons<T>(s: seq<T>, i: nat)
    requires i < |s|
    ensures s[i..] == [s[i]] + s[i + 1..]
  {
  }

  lemma NotWith(q: QuerySpec, d: Dialect, k: Pieces)
    ensures !Starts(K(WITH), Core(q, d, k))
  {
  }

  lemma {:induction false} ReadQuery(q: QuerySpec, d: Dialect, k: Pieces)
    requires ShapedQuery(q, false) && QueryEnd(k)
    ensures ParseQuery(Q(q, d, k)) == Got(StripQuery(q), k)
    decreases q, 4, 0
  {
    hide Len, ShapedQuery, ParseQuery, ParseCtes, ParseCore, Ctes, Core, StripQuery, StripCtes;
    ReadCore(q, d, k);
    CtesBack(q);
    if q.ctes != [] {
      ReadCtes(q, 0, d, Cons(Sp, Core(q, d, k)));
      assert StripCtes(q)[0..] == StripCtes(q);
      StepWith(Ctes(q, 0, d, Cons(Sp, Core(q, d, k))), StripCtes(q), Core(q, d, k), StripQuery(q).(ctes := []), k);
    } else {
      NotWith(q, d, k);
      StepBare(Core(q, d, k));
    }
  }

  lemma CtesBack(q: QuerySpec)
    ensures StripQuery(q).ctes == StripCtes(q) && StripQuery(q) == StripQuery(q).(ctes := []).(ctes := StripCtes(q))
    ensures q.ctes == [] ==> StripQuery(q) == StripQuery(q).(ctes := [])
  {
    hide Strip;
    assert q.ctes == [] ==> StripCtes(q) == [];
  }

  lemma StepWith(t: Pieces, ctes: seq<Cte>, u: Pieces, q: QuerySpec, k: Pieces)
    requires ParseCtes(t) == Got(ctes, Cons(Sp, u)) && ParseCore(u) == Got(q, k)
    ensures ParseQuery(KwSp(WITH, t)) == Got(q.(ctes := ctes), k)
  {
    hide Len, ParseCtes, ParseCore;
  }

  lemma StepBare(t: Pieces)
    requires !Starts(K(WITH), t)
    ensures ParseQuery(t) == ParseCore(t)
  {
    hide Len, ParseCtes, ParseCore;
  }

  // ---- text ----

  /** Rendering an expression and reading the text gives it back. */
  lemma ExprRoundTrip(e: Expr, d: Dialect)
    requires Shaped(e, false)
    ensures ParseExpr(Lex(RenderExpr(e, d))) == Got(Strip(e), Pieces.Nil)
  {
    hide Len;
    SpacedExpr(e, d, Pieces.Nil);
    LexText(E(e, d, Pieces.Nil), Foreign(d));
    ReadExpr(e, d, Pieces.Nil);
  }

  /** Rendering a query and reading the text gives it back. */
  lemma QueryRoundTrip(q: QuerySpec, d: Dialect)
    requires ShapedQuery(q, false)
    ensures ParseQuery(Lex(RenderQuery(q, d))) == Got(StripQuery(q), Pieces.Nil)
  {
    hide Len;
    SpacedQuery(q, d, Pieces.Nil);
    LexText(Q(q, d, Pieces.Nil), Foreign(d));
    ReadQuery(q, d, Pieces.Nil);
  }

  /** So two queries that render alike, in the same dialect or not, differ in
      type annotations at most. */
  lemma UniquelyReadable(q: QuerySpec, d: Dialect, q': QuerySpec, d': Dialect)
    requires ShapedQuery(q, false) && ShapedQuery(q', false) && RenderQuery(q, d) == RenderQuery(q', d')
    ensures StripQuery(q) == StripQuery(q')
  {
    hide Len;
    QueryRoundTrip(q, d);
    QueryRoundTrip(q', d');
  }

  // ---- the dialect ----

  /** A concatenation is written in the form of the dialect only: a dialect
      that calls CONCAT gets no bars, */
  lemma ExprInDialect(e: Expr, d: Dialect)
    requires Shaped(e, false)
    ensures d.concatCall ==> !Occurs(Y(Bars), Lex(RenderExpr(e, d)))
    ensures !d.concatCall ==> !Occurs(K(CONCAT), Lex(RenderExpr(e, d)))
  {
    SpacedExpr(e, d, Pieces.Nil);
    LexText(E(e, d, Pieces.Nil), Foreign(d));
  }

  /** and the same in queries. */
  lemma QueryInDialect(q: QuerySpec, d: Dialect)
    requires ShapedQuery(q, false)
    ensures d.concatCall ==> !Occurs(Y(Bars), Lex(RenderQuery(q, d)))
    ensures !d.concatCall ==> !Occurs(K(CONCAT), Lex(RenderQuery(q, d)))
  {
    SpacedQuery(q, d, Pieces.Nil);
    LexText(Q(q, d, Pieces.Nil), Foreign(d));
  }
}
