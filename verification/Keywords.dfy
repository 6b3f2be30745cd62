/** The keywords of rendered SQL and their spelling. */
module Keywords {
  import opened Numerals

  datatype Keyword =
    | NOT | IS | NULL | BETWEEN | AND | OR | LIKE | IN | EXISTS | CASE | WHEN | THEN | ELSE | END | TRUE | FALSE
    | LOWER | UPPER | LENGTH | ABS | COALESCE | NULLIF | CONCAT
    | COUNT | SUM | MIN | MAX | AVG | ROW_NUMBER | RANK | DENSE_RANK | DISTINCT | OVER | PARTITION | BY | ORDER
    | SELECT | AS | FROM | JOIN | LEFT | RIGHT | CROSS | ON | WHERE | GROUP | HAVING
    | UNION | ALL | INTERSECT | EXCEPT | WITH | DESC | LIMIT | OFFSET | FOR | UPDATE | SHARE | OF

  function Spelling(k: Keyword): string {
    match k
    case NOT => "NOT" case IS => "IS" case NULL => "NULL" case BETWEEN => "BETWEEN" case AND => "AND" case OR => "OR"
    case LIKE => "LIKE" case IN => "IN" case EXISTS => "EXISTS" case CASE => "CASE" case WHEN => "WHEN"
    case THEN => "THEN" case ELSE => "ELSE" case END => "END" case TRUE => "true" case FALSE => "false"
    case LOWER => "LOWER" case UPPER => "UPPER" case LENGTH => "LENGTH" case ABS => "ABS" case COALESCE => "COALESCE"
    case NULLIF => "NULLIF" case CONCAT => "CONCAT" case COUNT => "COUNT" case SUM => "SUM" case MIN => "MIN"
    case MAX => "MAX" case AVG => "AVG" case ROW_NUMBER => "ROW_NUMBER" case RANK => "RANK"
    case DENSE_RANK => "DENSE_RANK" case DISTINCT => "DISTINCT" case OVER => "OVER" case PARTITION => "PARTITION"
    case BY => "BY" case ORDER => "ORDER" case SELECT => "SELECT" case AS => "AS" case FROM => "FROM"
    case JOIN => "JOIN" case LEFT => "LEFT" case RIGHT => "RIGHT" case CROSS => "CROSS" case ON => "ON"
    case WHERE => "WHERE" case GROUP => "GROUP" case HAVING => "HAVING" case UNION => "UNION" case ALL => "ALL"
    case INTERSECT => "INTERSECT" case EXCEPT => "EXCEPT" case WITH => "WITH" case DESC => "DESC" case LIMIT => "LIMIT"
    case OFFSET => "OFFSET" case FOR => "FOR" case UPDATE => "UPDATE" case SHARE => "SHARE" case OF => "OF"
  }

  datatype KeywordLookup = NotKeyword | IsKeyword(keyword: Keyword)

  /** The keyword a word spells, if any, found by its first letter. */
  function Lookup(w: string): KeywordLookup {
    if w == "" then NotKeyword
    else if w[0] <= 'H' then LookupAH(w)
    else LookupIZ(w)
  }

  function LookupAH(w: string): KeywordLookup
    requires w != ""
  {
    match w[0]
    case 'A' =>
      if w == "ABS" then IsKeyword(ABS) else if w == "ALL" then IsKeyword(ALL) else
      if w == "AND" then IsKeyword(AND) else if w == "AS" then IsKeyword(AS) else
      if w == "AVG" then IsKeyword(AVG) else NotKeyword
    case 'B' =>
      if w == "BETWEEN" then IsKeyword(BETWEEN) else if w == "BY" then IsKeyword(BY) else NotKeyword
    case 'C' =>
      if w == "CASE" then IsKeyword(CASE) else if w == "COALESCE" then IsKeyword(COALESCE) else
      if w == "CONCAT" then IsKeyword(CONCAT) else if w == "COUNT" then IsKeyword(COUNT) else
      if w == "CROSS" then IsKeyword(CROSS) else NotKeyword
    case 'D' =>
      if w == "DENSE_RANK" then IsKeyword(DENSE_RANK) else if w == "DESC" then IsKeyword(DESC) else
      if w == "DISTINCT" then IsKeyword(DISTINCT) else NotKeyword
    case 'E' =>
      if w == "ELSE" then IsKeyword(ELSE) else if w == "END" then IsKeyword(END) else
      if w == "EXCEPT" then IsKeyword(EXCEPT) else if w == "EXISTS" then IsKeyword(EXISTS) else NotKeyword
    case 'F' =>
      if w == "FOR" then IsKeyword(FOR) else if w == "FROM" then IsKeyword(FROM) else NotKeyword
    case 'G' =>
      if w == "GROUP" then IsKeyword(GROUP) else NotKeyword
    case 'H' =>
      if w == "HAVING" then IsKeyword(HAVING) else NotKeyword
    case _ => NotKeyword
  }

  function LookupIZ(w: string): KeywordLookup
    requires w != ""
  {
    match w[0]
    case 'I' =>
      if w == "IN" then IsKeyword(IN) else if w == "INTERSECT" then IsKeyword(INTERSECT) else
      if w == "IS" then IsKeyword(IS) else NotKeyword
    case 'J' =>
      if w == "JOIN" then IsKeyword(JOIN) else NotKeyword
    case 'L' =>
      if w == "LEFT" then IsKeyword(LEFT) else if w == "LENGTH" then IsKeyword(LENGTH) else
      if w == "LIKE" then IsKeyword(LIKE) else if w == "LIMIT" then IsKeyword(LIMIT) else
      if w == "LOWER" then IsKeyword(LOWER) else NotKeyword
    case 'M' =>
      if w == "MAX" then IsKeyword(MAX) else if w == "MIN" then IsKeyword(MIN) else NotKeyword
    case 'N' =>
      if w == "NOT" then IsKeyword(NOT) else if w == "NULL" then IsKeyword(NULL) else
      if w == "NULLIF" then IsKeyword(NULLIF) else NotKeyword
    case 'O' =>
      if w == "OF" then IsKeyword(OF) else if w == "OFFSET" then IsKeyword(OFFSET) else
      if w == "ON" then IsKeyword(ON) else if w == "OR" then IsKeyword(OR) else
      if w == "ORDER" then IsKeyword(ORDER) else if w == "OVER" then IsKeyword(OVER) else NotKeyword
    case 'P' =>
      if w == "PARTITION" then IsKeyword(PARTITION) else NotKeyword
    case 'R' =>
      if w == "RANK" then IsKeyword(RANK) else if w == "RIGHT" then IsKeyword(RIGHT) else
      if w == "ROW_NUMBER" then IsKeyword(ROW_NUMBER) else NotKeyword
    case 'S' =>
      if w == "SELECT" then IsKeyword(SELECT) else if w == "SHARE" then IsKeyword(SHARE) else
      if w == "SUM" then IsKeyword(SUM) else NotKeyword
    case 'T' =>
      if w == "THEN" then IsKeyword(THEN) else NotKeyword
    case 'U' =>
      if w == "UNION" then IsKeyword(UNION) else if w == "UPDATE" then IsKeyword(UPDATE) else
      if w == "UPPER" then IsKeyword(UPPER) else NotKeyword
    case 'W' =>
      if w == "WHEN" then IsKeyword(WHEN) else if w == "WHERE" then IsKeyword(WHERE) else
      if w == "WITH" then IsKeyword(WITH) else NotKeyword
    case 'f' =>
      if w == "false" then IsKeyword(FALSE) else NotKeyword
    case 't' =>
      if w == "true" then IsKeyword(TRUE) else NotKeyword
    case _ => NotKeyword
  }

  predicate IsLetter(c: char) { 'a' <= c <= 'z' || 'A' <= c <= 'Z' || c == '_' }

  predicate IsWordChar(c: char) { IsLetter(c) || IsDigit(c) }

  predicate IsWord(w: string) {
    w != "" && IsLetter(w[0]) && forall i :: 0 <= i < |w| ==> IsWordChar(w[i])
  }

  lemma Words1()
    ensures IsWord("NOT") && IsWord("IS") && IsWord("NULL") && IsWord("BETWEEN") && IsWord("AND") && IsWord("OR")
    ensures IsWord("LIKE") && IsWord("IN") && IsWord("EXISTS") && IsWord("CASE") && IsWord("WHEN") && IsWord("THEN")
    ensures IsWord("ELSE") && IsWord("END") && IsWord("true")
  {
  }

  lemma Found1()
    ensures Lookup("NOT") == IsKeyword(NOT) && Lookup("IS") == IsKeyword(IS) && Lookup("NULL") == IsKeyword(NULL)
    ensures Lookup("BETWEEN") == IsKeyword(BETWEEN) && Lookup("AND") == IsKeyword(AND)
    ensures Lookup("OR") == IsKeyword(OR) && Lookup("LIKE") == IsKeyword(LIKE) && Lookup("IN") == IsKeyword(IN)
    ensures Lookup("EXISTS") == IsKeyword(EXISTS) && Lookup("CASE") == IsKeyword(CASE)
    ensures Lookup("WHEN") == IsKeyword(WHEN) && Lookup("THEN") == IsKeyword(THEN)
    ensures Lookup("ELSE") == IsKeyword(ELSE) && Lookup("END") == IsKeyword(END)
    ensures Lookup("true") == IsKeyword(TRUE)
  {
  }

  lemma Words2()
    ensures IsWord("false") && IsWord("LOWER") && IsWord("UPPER") && IsWord("LENGTH") && IsWord("ABS")
    ensures IsWord("COALESCE") && IsWord("NULLIF") && IsWord("CONCAT") && IsWord("COUNT") && IsWord("SUM")
    ensures IsWord("MIN") && IsWord("MAX") && IsWord("AVG") && IsWord("ROW_NUMBER") && IsWord("RANK")
  {
  }

  lemma Found2()
    ensures Lookup("false") == IsKeyword(FALSE) && Lookup("LOWER") == IsKeyword(LOWER)
    ensures Lookup("UPPER") == IsKeyword(UPPER) && Lookup("LENGTH") == IsKeyword(LENGTH)
    ensures Lookup("ABS") == IsKeyword(ABS) && Lookup("COALESCE") == IsKeyword(COALESCE)
    ensures Lookup("NULLIF") == IsKeyword(NULLIF) && Lookup("CONCAT") == IsKeyword(CONCAT)
    ensures Lookup("COUNT") == IsKeyword(COUNT) && Lookup("SUM") == IsKeyword(SUM)
    ensures Lookup("MIN") == IsKeyword(MIN) && Lookup("MAX") == IsKeyword(MAX) && Lookup("AVG") == IsKeyword(AVG)
    ensures Lookup("ROW_NUMBER") == IsKeyword(ROW_NUMBER) && Lookup("RANK") == IsKeyword(RANK)
  {
  }

  lemma Words3()
    ensures IsWord("DENSE_RANK") && IsWord("DISTINCT") && IsWord("OVER") && IsWord("PARTITION") && IsWord("BY")
    ensures IsWord("ORDER") && IsWord("SELECT") && IsWord("AS") && IsWord("FROM") && IsWord("JOIN")
    ensures IsWord("LEFT") && IsWord("RIGHT") && IsWord("CROSS") && IsWord("ON") && IsWord("WHERE")
  {
  }

  lemma Found3()
    ensures Lookup("DENSE_RANK") == IsKeyword(DENSE_RANK) && Lookup("DISTINCT") == IsKeyword(DISTINCT)
    ensures Lookup("OVER") == IsKeyword(OVER) && Lookup("PARTITION") == IsKeyword(PARTITION)
    ensures Lookup("BY") == IsKeyword(BY) && Lookup("ORDER") == IsKeyword(ORDER)
    ensures Lookup("SELECT") == IsKeyword(SELECT) && Lookup("AS") == IsKeyword(AS)
    ensures Lookup("FROM") == IsKeyword(FROM) && Lookup("JOIN") == IsKeyword(JOIN)
    ensures Lookup("LEFT") == IsKeyword(LEFT) && Lookup("RIGHT") == IsKeyword(RIGHT)
    ensures Lookup("CROSS") == IsKeyword(CROSS) && Lookup("ON") == IsKeyword(ON)
    ensures Lookup("WHERE") == IsKeyword(WHERE)
  {
  }

  lemma Words4()
    ensures IsWord("GROUP") && IsWord("HAVING") && IsWord("UNION") && IsWord("ALL") && IsWord("INTERSECT")
    ensures IsWord("EXCEPT") && IsWord("WITH") && IsWord("DESC") && IsWord("LIMIT") && IsWord("OFFSET")
    ensures IsWord("FOR") && IsWord("UPDATE") && IsWord("SHARE") && IsWord("OF")
  {
  }

  lemma Found4()
    ensures Lookup("GROUP") == IsKeyword(GROUP) && Lookup("HAVING") == IsKeyword(HAVING)
    ensures Lookup("UNION") == IsKeyword(UNION) && Lookup("ALL") == IsKeyword(ALL)
    ensures Lookup("INTERSECT") == IsKeyword(INTERSECT) && Lookup("EXCEPT") == IsKeyword(EXCEPT)
    ensures Lookup("WITH") == IsKeyword(WITH) && Lookup("DESC") == IsKeyword(DESC)
    ensures Lookup("LIMIT") == IsKeyword(LIMIT) && Lookup("OFFSET") == IsKeyword(OFFSET)
    ensures Lookup("FOR") == IsKeyword(FOR) && Lookup("UPDATE") == IsKeyword(UPDATE)
    ensures Lookup("SHARE") == IsKeyword(SHARE) && Lookup("OF") == IsKeyword(OF)
  {
  }

  /** Keywords are words, spelled apart. */
  lemma LookupSpelling(k: Keyword)
    ensures Lookup(Spelling(k)) == IsKeyword(k) && IsWord(Spelling(k))
  {
    hide Lookup, IsWord;
    Words1();
    Found1();
    Words2();
    Found2();
    Words3();
    Found3();
    Words4();
    Found4();
  }
}
