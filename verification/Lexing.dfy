/** The words and signs of rendered SQL, how they are spelled, and a lexer that
    reads every spaced-out list of them back. */
module Lexing {
  import opened Numerals
  import opened Keywords

  datatype Sign =
    | LPar | RPar | Comma | Dot | Minus | Star | Plus | Slash | Percent
    | Equal | Differ | Less | AtMost | More | AtLeast | Bars

  function Drawn(y: Sign): string {
    match y
    case LPar => "(" case RPar => ")" case Comma => "," case Dot => "." case Minus => "-" case Star => "*"
    case Plus => "+" case Slash => "/" case Percent => "%" case Equal => "=" case Differ => "<>"
    case Less => "<" case AtMost => "<=" case More => ">" case AtLeast => ">=" case Bars => "||"
  }

  /** Other is a character no text has outside quotes. */
  datatype Piece =
    | Sp | K(keyword: Keyword) | Y(sign: Sign) | Name(name: string) | Num(n: nat) | Quoted(text: string)
    | Other(mark: char)

  datatype Pieces = Nil | Cons(head: Piece, tail: Pieces)

  /** A string literal under the doubled-quote rule: section 5.3 of
      ISO/IEC 9075-2. */
  function Doubled(s: string): string {
    if s == "" then "" else (if s[0] == '\'' then "''" else [s[0]]) + Doubled(s[1..])
  }

  function Written(p: Piece): string {
    match p
    case Sp => " "
    case K(k) => Spelling(k)
    case Y(y) => Drawn(y)
    case Name(w) => w
    case Num(n) => Digits(n)
    case Quoted(t) => "'" + Doubled(t) + "'"
    case Other(c) => [c]
  }

  /** The text of a list of pieces. */
  function Text(ps: Pieces): string {
    if ps.Nil? then "" else Written(ps.head) + Text(ps.tail)
  }

  // ---- the lexer ----

  /** How many leading characters satisfy WordChar, or Digit. */
  function WordRun(s: string): (n: nat)
    ensures n <= |s| && (s != "" && IsWordChar(s[0]) ==> n > 0)
  {
    if s == "" || !IsWordChar(s[0]) then 0 else 1 + WordRun(s[1..])
  }

  function DigitRun(s: string): (n: nat)
    ensures n <= |s| && (s != "" && IsDigit(s[0]) ==> n > 0)
    ensures forall c :: c in s[..n] ==> IsDigit(c)
  {
    if s == "" || !IsDigit(s[0]) then 0
    else
      var n := 1 + DigitRun(s[1..]);
      assert s[..n] == [s[0]] + s[1..][..n - 1];
      n
  }

  /** Reads up to the closing quote: the text, and what follows. */
  function ReadQuoted(s: string): (r: (string, string))
    ensures |r.1| <= |s|
  {
    if s == "" then ("", "")
    else if s[0] != '\'' then
      var r := ReadQuoted(s[1..]);
      ([s[0]] + r.0, r.1)
    else if |s| > 1 && s[1] == '\'' then
      var r := ReadQuoted(s[2..]);
      ("'" + r.0, r.1)
    else ("", s[1..])
  }

  function WordPiece(w: string): Piece {
    var l := Lookup(w);
    if l.IsKeyword? then K(l.keyword) else Name(w)
  }

  /** The sign s starts with, longest first, and its length. */
  function ReadSign(s: string): (r: (Piece, nat))
    requires s != ""
    ensures 0 < r.1 <= |s|
  {
    var next := if |s| > 1 then s[1] else ' ';
    match s[0]
    case '(' => (Y(LPar), 1)
    case ')' => (Y(RPar), 1)
    case ',' => (Y(Comma), 1)
    case '.' => (Y(Dot), 1)
    case '-' => (Y(Minus), 1)
    case '*' => (Y(Star), 1)
    case '+' => (Y(Plus), 1)
    case '/' => (Y(Slash), 1)
    case '%' => (Y(Percent), 1)
    case '=' => (Y(Equal), 1)
    case '<' => if next == '>' then (Y(Differ), 2) else if next == '=' then (Y(AtMost), 2) else (Y(Less), 1)
    case '>' => if next == '=' then (Y(AtLeast), 2) else (Y(More), 1)
    case '|' => if next == '|' then (Y(Bars), 2) else (Other('|'), 1)
    case c => (Other(c), 1)
  }

  function Lex(s: string): Pieces
    decreases |s|
  {
    if s == "" then Nil
    else if s[0] == ' ' then Cons(Sp, Lex(s[1..]))
    else if s[0] == '\'' then
      var r := ReadQuoted(s[1..]);
      Cons(Quoted(r.0), Lex(r.1))
    else if IsDigit(s[0]) then
      var n := DigitRun(s);
      Cons(Num(Number(s[..n])), Lex(s[n..]))
    else if IsLetter(s[0]) then
      var n := WordRun(s);
      Cons(WordPiece(s[..n]), Lex(s[n..]))
    else
      var r := ReadSign(s);
      Cons(r.0, Lex(s[r.1..]))
  }

  // ---- reading text back ----

  /** A character that ends words, numbers, literals and comparison signs. */
  predicate IsGap(c: char) { c == ' ' || c == ')' || c == '(' || c == ',' || c == '.' }

  predicate Ends(s: string) { s == "" || IsGap(s[0]) }

  predicate GapPiece(p: Piece) {
    p == Sp || (p.Y? && (p.sign == LPar || p.sign == RPar || p.sign == Comma || p.sign == Dot))
  }

  /** Names are words that spell no keyword. */
  predicate GoodName(w: string) { IsWord(w) && Lookup(w).NotKeyword? }

  predicate NeedsGap(p: Piece) {
    p.K? || p.Name? || p.Num? || p.Quoted? || (p.Y? && (p.sign == Less || p.sign == More))
  }

  predicate GapNext(ps: Pieces) { ps.Nil? || GapPiece(ps.head) }

  /** Names are good, a gap follows whatever needs one, and the piece x does not
      occur. */
  predicate Spaced(ps: Pieces, x: Piece) {
    ps.Nil? ||
    (ps.head != x && !ps.head.Other? && (ps.head.Name? ==> GoodName(ps.head.name))
     && (NeedsGap(ps.head) ==> GapNext(ps.tail))
     && Spaced(ps.tail, x))
  }

  predicate Occurs(x: Piece, ps: Pieces) {
    ps.Cons? && (ps.head == x || Occurs(x, ps.tail))
  }

  lemma {:induction false} WordRunStops(w: string, rest: string)
    requires forall i :: 0 <= i < |w| ==> IsWordChar(w[i])
    requires Ends(rest)
    ensures WordRun(w + rest) == |w|
  {
    if w == "" {
      assert w + rest == rest;
    } else {
      assert (w + rest)[1..] == w[1..] + rest;
      WordRunStops(w[1..], rest);
    }
  }

  lemma {:induction false} DigitRunStops(w: string, rest: string)
    requires forall c :: c in w ==> IsDigit(c)
    requires Ends(rest)
    ensures DigitRun(w + rest) == |w|
  {
    if w == "" {
      assert w + rest == rest;
    } else {
      assert (w + rest)[1..] == w[1..] + rest;
      DigitRunStops(w[1..], rest);
    }
  }

  lemma {:induction false} QuotedReads(t: string, rest: string)
    requires rest == "" || rest[0] != '\''
    ensures ReadQuoted(Doubled(t) + "'" + rest) == (t, rest)
  {
    var s := Doubled(t) + "'" + rest;
    if t == "" {
      assert s == "'" + rest;
      assert s[1..] == rest;
    } else {
      var one := if t[0] == '\'' then "''" else [t[0]];
      assert s == one + (Doubled(t[1..]) + "'" + rest);
      assert s[|one|..] == Doubled(t[1..]) + "'" + rest;
      QuotedReads(t[1..], rest);
      assert t == [t[0]] + t[1..];
    }
  }

  lemma SignReads(y: Sign, rest: string)
    requires y == Less || y == More ==> Ends(rest)
    ensures Drawn(y) != "" && ReadSign(Drawn(y) + rest) == (Y(y), |Drawn(y)|)
    ensures (Drawn(y) + rest)[0] != ' ' && (Drawn(y) + rest)[0] != '\'' && !IsWordChar((Drawn(y) + rest)[0])
  {
  }

  lemma WordReads(w: string, rest: string)
    requires IsWord(w) && Ends(rest)
    ensures Lex(w + rest) == Cons(WordPiece(w), Lex(rest))
  {
    WordRunStops(w, rest);
    assert (w + rest)[..|w|] == w && (w + rest)[|w|..] == rest;
    assert (w + rest)[0] == w[0];
  }

  lemma NumberReads(n: nat, rest: string)
    requires Ends(rest)
    ensures Lex(Digits(n) + rest) == Cons(Num(n), Lex(rest))
  {
    var w := Digits(n);
    DigitRunStops(w, rest);
    NumberOfDigits(n);
    assert (w + rest)[..|w|] == w && (w + rest)[|w|..] == rest;
    assert (w + rest)[0] == w[0] && w[0] in w;
  }

  lemma PieceReads(p: Piece, rest: string)
    requires !p.Other? && (p.Name? ==> GoodName(p.name))
    requires NeedsGap(p) ==> Ends(rest)
    ensures Lex(Written(p) + rest) == Cons(p, Lex(rest))
  {
    match p
    case Sp => assert (" " + rest)[1..] == rest;
    case K(k) =>
      LookupSpelling(k);
      WordReads(Spelling(k), rest);
    case Y(y) =>
      SignReads(y, rest);
      assert (Drawn(y) + rest)[|Drawn(y)|..] == rest;
    case Name(w) => WordReads(w, rest);
    case Num(n) => NumberReads(n, rest);
    case Quoted(t) =>
      QuotedReads(t, rest);
      assert ("'" + Doubled(t) + "'" + rest)[1..] == Doubled(t) + "'" + rest;
  }

  lemma GapStarts(ps: Pieces)
    requires GapNext(ps)
    ensures Ends(Text(ps))
  {
  }

  /** Spaced-out text lexes back into its pieces. */
  lemma {:induction false} LexText(ps: Pieces, x: Piece)
    requires Spaced(ps, x)
    ensures Lex(Text(ps)) == ps && !Occurs(x, ps)
  {
    if ps.Cons? {
      if NeedsGap(ps.head) {
        GapStarts(ps.tail);
      }
      PieceReads(ps.head, Text(ps.tail));
      LexText(ps.tail, x);
    }
  }
}
