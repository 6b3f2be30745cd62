/** FROM clauses: joins along foreign keys, along columns of one family, or at
    most one cross join. */
module Joins {
  import opened Metadata
  import opened Numerals
  import opened QueryIr
  import opened Scopes
  import opened Leaves

  datatype Purpose = Standalone | PkSelect | Predicate

  /** A foreign-key edge: join tbl by added = base column. */
  datatype Edge = Edge(tbl: Table, added: Column, base: Column)

  /** One of the two columns is a foreign key to the other. */
  predicate KeyEdge(e: Edge, cands: seq<Table>, base: Table) {
    e.tbl in cands && (KeyOf(e.base, base, e.added, e.tbl) || KeyOf(e.added, e.tbl, e.base, base))
  }

  /** Every foreign key of the columns cs that has a candidate for its target
      has its edge. */
  predicate ParentEdges(edges: seq<Edge>, cands: seq<Table>, cs: seq<Column>) {
    forall c, t :: c in cs && t in cands && c.fkRef != 0 && c.fkRef == t.id ==>
      exists e :: e in edges && e.base == c && e.tbl.id == t.id
  }

  /** So has every foreign key of the tables ts to base. */
  predicate ChildEdges(edges: seq<Edge>, ts: seq<Table>, base: Table) {
    forall t, c :: t in ts && c in t.columns && c.fkRef != 0 && c.fkRef == base.id && base.columns != [] ==>
      Edge(t, c, PkColumn(base)) in edges
  }

  /** Columns that may be equated without a foreign key. */
  predicate Alike(added: Column, base: Column) {
    FamilyOf(added.colType) == FamilyOf(base.colType) && FamilyOf(base.colType) in {Numeric, Text}
  }

  predicate PairEdge(e: Edge, joined: Table, base: Table) {
    e.tbl == joined && e.added in joined.columns && e.base in base.columns && Alike(e.added, e.base)
  }

  predicate HaveColumns(ts: seq<Table>) {
    forall t :: t in ts ==> t.columns != []
  }

  /** The first candidate with that id. */
  method FindTable(cands: seq<Table>, id: ObjectId) returns (r: Option<Table>)
    ensures r.Some? ==> r.value in cands && r.value.id == id
    ensures r.None? ==> forall t :: t in cands ==> t.id != id
  {
    for i := 0 to |cands|
      invariant forall k :: 0 <= k < i ==> cands[k].id != id
    {
      if cands[i].id == id {
        return Some(cands[i]);
      }
    }
    r := None;
  }

  method ParentsOf(cands: seq<Table>, base: Table) returns (edges: seq<Edge>)
    requires HaveColumns(cands)
    ensures forall e :: e in edges ==> KeyEdge(e, cands, base)
    ensures ParentEdges(edges, cands, base.columns)
  {
    edges := [];
    for i := 0 to |base.columns|
      invariant forall e :: e in edges ==> KeyEdge(e, cands, base)
      invariant ParentEdges(edges, cands, base.columns[..i])
    {
      var col := base.columns[i];
      assert base.columns[..i + 1] == base.columns[..i] + [col];
      if col.fkRef != 0 {
        var parent := FindTable(cands, col.fkRef);
        if parent.Some? {
          edges := edges + [Edge(parent.value, PkColumn(parent.value), col)];
          assert edges[|edges| - 1] in edges;
        }
      }
    }
    assert base.columns[..|base.columns|] == base.columns;
  }

  /** One child's foreign keys to base. */
  method KeysTo(t: Table, base: Table) returns (edges: seq<Edge>)
    requires base.columns != []
    ensures forall e :: e in edges <==>
              e.tbl == t && e.added in t.columns && e.added.fkRef != 0 && e.added.fkRef == base.id &&
                e.base == PkColumn(base)
  {
    edges := [];
    for j := 0 to |t.columns|
      invariant forall e :: e in edges <==>
                  e.tbl == t && e.added in t.columns[..j] && e.added.fkRef != 0 && e.added.fkRef == base.id
                  && e.base == PkColumn(base)
    {
      assert t.columns[..j + 1] == t.columns[..j] + [t.columns[j]];
      if t.columns[j].fkRef != 0 && t.columns[j].fkRef == base.id {
        edges := edges + [Edge(t, t.columns[j], PkColumn(base))];
      }
    }
    assert t.columns[..|t.columns|] == t.columns;
  }

  /** The edges from base to its parents, then from its children to it. */
  method CollectEdges(cands: seq<Table>, base: Table) returns (edges: seq<Edge>)
    requires HaveColumns(cands) && base.columns != []
    ensures forall e :: e in edges ==> KeyEdge(e, cands, base)
    ensures ParentEdges(edges, cands, base.columns) && ChildEdges(edges, cands, base)
  {
    hide PkColumn;
    edges := ParentsOf(cands, base);
    for i := 0 to |cands|
      invariant forall e :: e in edges ==> KeyEdge(e, cands, base)
      invariant ParentEdges(edges, cands, base.columns) && ChildEdges(edges, cands[..i], base)
    {
      assert cands[..i + 1] == cands[..i] + [cands[i]];
      var more := KeysTo(cands[i], base);
      edges := edges + more;
    }
    assert cands[..|cands|] == cands;
  }

  /** The pairs of numeric or string columns of one family. */
  method CollectPairs(base: Table, joined: Table) returns (pairs: seq<Edge>)
    ensures forall e :: e in pairs <==> PairEdge(e, joined, base)
  {
    pairs := [];
    for i := 0 to |base.columns|
      invariant forall e :: e in pairs <==> PairEdge(e, joined, base) && e.base in base.columns[..i]
    {
      assert base.columns[..i + 1] == base.columns[..i] + [base.columns[i]];
      var bf := FamilyOf(base.columns[i].colType);
      if bf != Numeric && bf != Text {
        continue;
      }
      ghost var before := pairs;
      for j := 0 to |joined.columns|
        invariant forall e :: e in pairs <==>
                    e in before ||
                      (PairEdge(e, joined, base) && e.base == base.columns[i] && e.added in joined.columns[..j])
      {
        assert joined.columns[..j + 1] == joined.columns[..j] + [joined.columns[j]];
        if FamilyOf(joined.columns[j].colType) == bf {
          pairs := pairs + [Edge(joined, joined.columns[j], base.columns[i])];
        }
      }
      assert joined.columns[..|joined.columns|] == joined.columns;
    }
    assert base.columns[..|base.columns|] == base.columns;
  }

  /** The table and condition of one more join; no condition means a cross
      join, and then it is the first one or nothing could be equated. */
  method GenJoin(cands: seq<Table>, own: Scope, alias: string, haveCross: bool, b: nat)
    returns (joined: Table, cond: Option<Expr>)
    requires HaveColumns(cands) && cands != [] && b < |own| && own[b].table.columns != []
    ensures joined in cands
    ensures cond.Some? ==> JoinLinks(cond.value, own + [Entry(alias, joined)], |own|)
    ensures cond.None? && haveCross ==>
      forall c, p :: c in joined.columns && p in own[b].table.columns ==> !Alike(c, p)
  {
    hide PkColumn, JoinLinks, ParentEdges, ChildEdges;
    var base := own[b];
    var edges := CollectEdges(cands, base.table);
    var useEdge := Roll(70);
    if edges != [] && useEdge {
      var i := Draw(0, |edges| - 1);
      joined := edges[i].tbl;
      cond := Some(Equals(ColExpr(alias, edges[i].added), ColExpr(base.alias, edges[i].base)));
      assert KeyEdge(edges[i], cands, base.table);
      EdgeLinks(edges[i], own, alias, b);
      return;
    }
    var j := Draw(0, |cands| - 1);
    joined := cands[j];
    cond := None;
    var cross := Roll(10);
    if haveCross || !cross {
      var pairs := CollectPairs(base.table, joined);
      if pairs != [] {
        var i := Draw(0, |pairs| - 1);
        cond := Some(Equals(ColExpr(alias, pairs[i].added), ColExpr(base.alias, pairs[i].base)));
        assert PairEdge(pairs[i], joined, base.table);
        EdgeLinks(pairs[i], own, alias, b);
      } else {
        NothingAlike(joined, base.table, pairs);
      }
    }
  }

  lemma NothingAlike(joined: Table, base: Table, pairs: seq<Edge>)
    requires pairs == [] && forall e :: e in pairs <==> PairEdge(e, joined, base)
    ensures forall c, p :: c in joined.columns && p in base.columns ==> !Alike(c, p)
  {
    forall c, p | c in joined.columns && p in base.columns ensures !Alike(c, p) {
      assert Edge(joined, c, p) !in pairs;
      assert !PairEdge(Edge(joined, c, p), joined, base);
    }
  }

  lemma EdgeLinks(e: Edge, own: Scope, alias: string, b: nat)
    requires b < |own| && e.added in e.tbl.columns && e.base in own[b].table.columns
    requires Joinable(e.added, e.tbl, e.base, own[b].table)
    ensures
      JoinLinks(
        Equals(ColExpr(alias, e.added), ColExpr(own[b].alias, e.base)), own + [Entry(alias, e.tbl)], |own|)
  {
    var more := own + [Entry(alias, e.tbl)];
    assert more[|own|].table == e.tbl && more[|own|].alias == alias && more[b] == own[b];
  }

  lemma JoinFitsExtends(j: Join, own: Scope, e: Entry, i: nat)
    requires i < |own| && JoinFits(j, own, i)
    ensures JoinFits(j, own + [e], i)
  {
    if j.condition.Some? {
      LinksExtend(j.condition.value, own, e, i);
    }
  }

  lemma LinksExtend(cond: Expr, own: Scope, e: Entry, i: nat)
    requires i < |own| && JoinLinks(cond, own, i)
    ensures JoinLinks(cond, own + [e], i)
  {
    var more := own + [e];
    var added, k, base :| added in own[i].table.columns && 0 <= k < i && base in own[k].table.columns
      && Joinable(added, own[i].table, base, own[k].table)
      && cond == Equals(ColExpr(own[i].alias, added), ColExpr(own[k].alias, base));
    assert more[i] == own[i] && more[k] == own[k];
  }

  predicate NoCross(joins: seq<Join>) {
    forall i :: 0 <= i < |joins| ==> joins[i].kind != Cross
  }

  /** The source stands for the scope entry, whose table is a candidate. */
  predicate JoinsOne(source: TableSource, e: Entry, cands: seq<Table>) {
    source == TableSource(e.table.name, e.alias) && e.table in cands
  }

  /** The joins so far: their scope, their sources and their aliases. */
  ghost predicate JoinsOk(joins: seq<Join>, own: Scope, cands: seq<Table>, lo: nat, hi: nat) {
    && JoinsFit(joins, own)
    && (forall i :: 0 <= i < |joins| ==> JoinsOne(joins[i].source, own[i + 1], cands))
    && Owned(JoinSources(joins), lo, hi, Names(cands))
  }

  lemma JoinsPush(joins: seq<Join>, own: Scope, cands: seq<Table>, lo: nat, hi: nat, kind: JoinKind,
          cond: Option<Expr>, joined: Table)
    requires JoinsOk(joins, own, cands, lo, hi) && lo <= hi && joined in cands
    requires kind == Cross <==> cond.None?
    requires kind == Cross ==> NoCross(joins)
    requires cond.Some? ==> JoinLinks(cond.value, own + [Entry(Numbered('u', hi), joined)], |own|)
    ensures
      var alias := Numbered('u', hi);
      var j := Join(kind, TableSource(joined.name, alias), cond);
      JoinsOk(joins + [j], own + [Entry(alias, joined)], cands, lo, hi + 1)
  {
    var e := Entry(Numbered('u', hi), joined);
    var j := Join(kind, TableSource(joined.name, e.alias), cond);
    JoinsFitPush(joins, own, j, e);
    SourcesPush(joins, j, lo, hi, Names(cands));
  }

  lemma JoinsFitPush(joins: seq<Join>, own: Scope, j: Join, e: Entry)
    requires JoinsFit(joins, own) && JoinFits(j, own + [e], |own|)
    requires j.kind == Cross ==> NoCross(joins)
    ensures JoinsFit(joins + [j], own + [e])
  {
    var joins', own' := joins + [j], own + [e];
    forall i | 0 <= i < |joins'| ensures JoinFits(joins'[i], own', i + 1) {
      if i < |joins| {
        JoinFitsExtends(joins[i], own, e, i + 1);
      }
    }
  }

  lemma SourcesPush(joins: seq<Join>, j: Join, lo: nat, hi: nat, names: set<string>)
    requires Owned(JoinSources(joins), lo, hi, names) && lo <= hi
    requires j.source.alias == Numbered('u', hi) && j.source.table in names
    ensures Owned(JoinSources(joins + [j]), lo, hi + 1, names)
  {
    var joins' := joins + [j];
    assert joins'[..|joins'| - 1] == joins;
    OwnedOne(j.source, hi, names);
    OwnedJoin(JoinSources(joins), multiset{j.source}, lo, hi, hi + 1, names);
  }

  /** A RIGHT join would make the locked table nullable, so primary-key selects
      use LEFT instead. */
  method GenJoinKind(purpose: Purpose) returns (kind: JoinKind)
    ensures kind != Cross && (purpose == PkSelect ==> kind != Right)
  {
    var r := Draw(1, 100);
    kind := if r <= 50 then Inner else if r <= 85 then Left else if purpose == PkSelect then Left else Right;
  }

  ghost predicate FromOk(purpose: Purpose, joins: seq<Join>, own: Scope, cands: seq<Table>, lo: nat, hi: nat) {
    && lo <= hi && JoinsOk(joins, own, cands, lo, hi)
    && (forall e :: e in own ==> e.table.columns != [])
    && (purpose == PkSelect ==> forall j :: j in joins ==> j.kind != Right)
  }

  lemma FromStart(purpose: Purpose, own: Scope, cands: seq<Table>, n: nat)
    requires |own| == 1 && own[0].table.columns != []
    ensures FromOk(purpose, [], own, cands, n, n)
  {
  }

  lemma FromColumns(purpose: Purpose, joins: seq<Join>, own: Scope, cands: seq<Table>, lo: nat, hi: nat)
    requires FromOk(purpose, joins, own, cands, lo, hi)
    ensures |own| == |joins| + 1 && forall i :: 0 <= i < |own| ==> own[i].table.columns != []
  {
  }

  lemma FromWiden(purpose: Purpose, joins: seq<Join>, own: Scope, cands: seq<Table>, lo: nat, hi: nat)
    requires FromOk(purpose, joins, own, cands, lo, hi)
    ensures FromOk(purpose, joins, own, cands, lo, hi + 1)
  {
    OwnedWiden(JoinSources(joins), lo, hi, lo, hi + 1, Names(cands), Names(cands));
  }

  lemma FromPush(purpose: Purpose, joins: seq<Join>, own: Scope, cands: seq<Table>, lo: nat, hi: nat,
          kind: JoinKind, cond: Option<Expr>, joined: Table)
    requires FromOk(purpose, joins, own, cands, lo, hi) && joined in cands && HaveColumns(cands)
    requires kind == Cross <==> cond.None?
    requires kind == Cross ==> NoCross(joins)
    requires purpose == PkSelect ==> kind != Right
    requires cond.Some? ==> JoinLinks(cond.value, own + [Entry(Numbered('u', hi), joined)], |own|)
    ensures
      var alias := Numbered('u', hi);
      var j := Join(kind, TableSource(joined.name, alias), cond);
      FromOk(purpose, joins + [j], own + [Entry(alias, joined)], cands, lo, hi + 1)
  {
    JoinsPush(joins, own, cands, lo, hi, kind, cond, joined);
  }
}
