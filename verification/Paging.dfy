/** Limits and DISTINCT on the query of an edge: one query serves all nodes, so what it drops may be missed by any of
    them. */
module Paging {
  import opened Wrappers
  import opened Schema
  import opened Sequences
  import opened Relational
  import opened LoadPlan

  // ---------------------------------------------------------------- limits

  /** The rows that the load of a to-one or one-to-many edge is for: those that satisfy the caller's predicates and have
      one of the keys, without duplicates if the edge's builder asks for that. */
  function WantedFor(db: Database, w: With, keys: seq<int>): seq<Row>
    requires !ShapeOf(w.edge).ManyToMany?
  {
    var rows := Filter(db.rows(Target(w.edge)), IsFor(db, w, keys));
    if w.sub.unique == Some(true) then FirstOfEach(rows, SubColumns(db, w)) else rows
  }

  function IsFor(db: Database, w: With, keys: seq<int>): Row -> bool {
    (row: Row) =>
      && (forall p :: p in w.sub.preds ==> Satisfies(db, p, row))
      && Cell(row, KeyColumn(w.edge)).Some? && Cell(row, KeyColumn(w.edge)).value in keys
  }

  /** The load of a to-one or one-to-many edge gets the rows that it is for, sorted by the orders of the edge's builder,
      from its offset on and up to its limit. */
  lemma EdgeReturns(d: Driver, w: With, rows: seq<Row>)
    requires Loadable(d, w, rows) && !ShapeOf(w.edge).ManyToMany? && !Skipped(w.edge, rows)
    ensures ReturnsFor(d.db, w, RowKeys(w.edge, rows), Asked(d, w, rows))
  {
    var q, keys := EdgeQuery(w, rows), RowKeys(w.edge, rows);
    WasAnswered(d, w, rows);
    NarrowJoins(w, keys);
    AnswerReturns(d.db, q, HitsOf(d, SpecOf(d.db, q)));
    NarrowReturns(d.db, w, keys, Asked(d, w, rows));
  }

  ghost predicate ReturnsFor(db: Database, w: With, keys: seq<int>, got: seq<Row>)
    requires !ShapeOf(w.edge).ManyToMany?
  {
    exists all ::
      && multiset(all) == multiset(WantedFor(db, w, keys))
      && InOrder(db, w.sub.order, all)
      && PageOf(all, w.sub.limit, w.sub.offset, got)
  }

  lemma NarrowReturns(db: Database, w: With, keys: seq<int>, got: seq<Row>)
    requires !ShapeOf(w.edge).ManyToMany? && w.sub.table == Target(w.edge) && Returns(db, Narrow(w, keys), got)
    ensures ReturnsFor(db, w, keys, got)
  {
    var q := Narrow(w, keys);
    NarrowWants(db, w, keys);
  }

  lemma MeetsMore(db: Database, preds: seq<Pred>, p: Pred, row: Row)
    ensures MeetsAll(db, preds + [p])(row) == (MeetsAll(db, preds)(row) && Satisfies(db, p, row))
  {
    assert forall p' :: p' in preds + [p] <==> p' in preds || p' == p;
  }

  lemma NarrowWants(db: Database, w: With, keys: seq<int>)
    requires !ShapeOf(w.edge).ManyToMany? && w.sub.table == Target(w.edge)
    ensures WantedRows(db, Narrow(w, keys)) == WantedFor(db, w, keys)
  {
    var q := Narrow(w, keys);
    var p := ColumnIn(KeyColumn(w.edge), keys);
    assert q.preds == w.sub.preds + [p];
    forall row ensures MeetsAll(db, q.preds)(row) == IsFor(db, w, keys)(row) {
      MeetsMore(db, w.sub.preds, p, row);
    }
    FilterSame(db.rows(q.table), MeetsAll(db, q.preds), IsFor(db, w, keys));
    assert SelectedBy(db, q) == SubColumns(db, w);
  }

  /** The load of a many-to-many edge gets the pairs of the accounts that it is for and their neighbours that
      satisfy the caller's predicates, sorted by the orders of the edge's builder, from its offset on and up to its
      limit. */
  lemma JoinedReturns(d: Driver, w: With, rows: seq<Row>)
    requires Loadable(d, w, rows) && ShapeOf(w.edge).ManyToMany? && JoinsOf(w.sub.preds) == []
    ensures var s := SpecOf(d.db, EdgeQuery(w, rows));
            exists pairs ::
              && IsJoined(d.db, s, pairs)
              && (forall h :: h in pairs ==> IsPair(d.db, w, RowKeys(w.edge, rows), h))
              && InOrder(d.db, w.sub.order, RowsOf(pairs))
              && PageOf(pairs, w.sub.limit, w.sub.offset, HitsOf(d, s))
  {
    var s := SpecOf(d.db, EdgeQuery(w, rows));
    WasAnswered(d, w, rows);
    NarrowJoins(w, RowKeys(w.edge, rows));
    assert Answers(d.db, s, d.ask(s).value);
    var pairs :| IsJoined(d.db, s, pairs) && InOrder(d.db, s.order, RowsOf(pairs))
      && HitsOf(d, s) == Window(pairs, s.limit, s.offset);
    WindowIsPageOf(pairs, w.sub.limit, w.sub.offset);
    forall h | h in pairs ensures IsPair(d.db, w, RowKeys(w.edge, rows), h) {
      JoinedRowIsPair(d.db, w, RowKeys(w.edge, rows), h);
    }
  }

  /** Nothing matches, or nothing is skipped and everything that matches fits the limit; a limit of 0 is no limit. */
  predicate Fits(n: nat, s: Spec) {
    n == 0 || (s.offset == 0 && (s.limit == 0 || n <= s.limit))
  }

  lemma PageIsAll<T>(page: seq<T>, all: seq<T>, s: Spec)
    requires IsPage(page, all, s)
    ensures multiset(page) == multiset(all) <==> Fits(|all|, s)
  {
    assert |multiset(page)| == |page| && |multiset(all)| == |all|;
    if |page| == |all| {
      SubsetOfSameSize(page, all);
    }
  }

  /** The load gives the node of the row all that the row joins with. */
  ghost predicate GetsAll(d: Driver, w: With, rows: seq<Row>, row: Row) {
    multiset(Filter(Asked(d, w, rows), BelongsTo(d, w, rows, row))) == multiset(NaiveJoin(d.db, w, row))
  }

  /** Every candidate of a restricted query belongs to one of the rows that are loaded for. */
  lemma CandidateBelongs(d: Driver, w: With, rows: seq<Row>, x: Row) returns (row: Row)
    requires Loadable(d, w, rows) && !ShapeOf(w.edge).ManyToMany?
    requires x in Candidates(d.db, SpecOf(d.db, EdgeQuery(w, rows)))
    ensures row in rows && BelongsTo(d, w, rows, row)(x)
    ensures JoinKey(w.edge, row).Some? && JoinKey(w.edge, row).value in RowKeys(w.edge, rows)
  {
    var keys := RowKeys(w.edge, rows);
    CandidatesMatch(d.db, SpecOf(d.db, EdgeQuery(w, rows)));
    NarrowFilters(d.db, w, keys, x);
    match ShapeOf(w.edge)
    case ManyToOne(fk, _) =>
      KeysOfRowsAre(rows, fk);
      row :| row in rows && Cell(row, fk) == Some(IdOf(x));
    case OneToMany(fk, _) =>
      var i :| 0 <= i < |rows| && keys[i] == Cell(x, fk).value;
      row := rows[i];
  }

  /** If every node gets all of its join, everything that matches was returned. */
  lemma AllGotten(d: Driver, w: With, rows: seq<Row>)
    requires Loadable(d, w, rows) && !ShapeOf(w.edge).ManyToMany? && !Skipped(w.edge, rows)
    requires forall row :: row in rows ==> GetsAll(d, w, rows, row)
    ensures multiset(Asked(d, w, rows)) == multiset(Candidates(d.db, SpecOf(d.db, EdgeQuery(w, rows))))
  {
    var all := Candidates(d.db, SpecOf(d.db, EdgeQuery(w, rows)));
    EdgePage(d, w, rows);
    MultisetMembers(Asked(d, w, rows), all);
    forall x ensures multiset(Asked(d, w, rows))[x] == multiset(all)[x] {
      if x in all {
        var row := CandidateBelongs(d, w, rows, x);
        assert GetsAll(d, w, rows, row);
        CandidatesJoin(d, w, rows, row);
        FilterCount(Asked(d, w, rows), BelongsTo(d, w, rows, row), x);
        FilterCount(all, BelongsTo(d, w, rows, row), x);
      }
    }
  }

  /** The rows that the load of a to-one or one-to-many edge gets are a page of the candidates. */
  lemma EdgePage(d: Driver, w: With, rows: seq<Row>)
    requires Loadable(d, w, rows) && !ShapeOf(w.edge).ManyToMany? && !Skipped(w.edge, rows)
    ensures var s := SpecOf(d.db, EdgeQuery(w, rows)); IsPage(Asked(d, w, rows), Candidates(d.db, s), s)
  {
    var s := SpecOf(d.db, EdgeQuery(w, rows));
    WasAnswered(d, w, rows);
    NarrowJoins(w, RowKeys(w.edge, rows));
    PlainAnswer(d.db, s, d.ask(s).value);
  }

  lemma GetsAllOfPage(d: Driver, w: With, rows: seq<Row>, row: Row)
    requires Loadable(d, w, rows) && row in rows && !ShapeOf(w.edge).ManyToMany? && !Skipped(w.edge, rows)
    requires multiset(Asked(d, w, rows)) == multiset(Candidates(d.db, SpecOf(d.db, EdgeQuery(w, rows))))
    ensures GetsAll(d, w, rows, row)
  {
    if ShapeOf(w.edge).ManyToOne? && Cell(row, ShapeOf(w.edge).fk).None? {
      FilterNone(Asked(d, w, rows), BelongsTo(d, w, rows, row));
      FilterNone(d.db.rows(Target(w.edge)), Match(d.db, w, row));
      return;
    }
    KeyAsked(d, w, rows, row);
    CandidatesJoin(d, w, rows, row);
    FilteredSubset(Asked(d, w, rows), Candidates(d.db, SpecOf(d.db, EdgeQuery(w, rows))), BelongsTo(d, w, rows, row));
  }

  /** A limit on the query of a to-one or one-to-many edge is shared by all nodes, because one query serves them
      all. Every node gets its whole join iff the matches of all nodes together fit the page. */
  lemma LimitIsShared(d: Driver, w: With, rows: seq<Row>)
    requires Loadable(d, w, rows) && !ShapeOf(w.edge).ManyToMany? && !Skipped(w.edge, rows)
    ensures var s := SpecOf(d.db, EdgeQuery(w, rows));
            (forall row :: row in rows ==> GetsAll(d, w, rows, row)) <==> Fits(|Candidates(d.db, s)|, s)
  {
    var s := SpecOf(d.db, EdgeQuery(w, rows));
    EdgePage(d, w, rows);
    PageIsAll(Asked(d, w, rows), Candidates(d.db, s), s);
    if forall row :: row in rows ==> GetsAll(d, w, rows, row) {
      AllGotten(d, w, rows);
    }
    if Fits(|Candidates(d.db, s)|, s) {
      forall row | row in rows ensures GetsAll(d, w, rows, row) {
        GetsAllOfPage(d, w, rows, row);
      }
    }
  }

  /** The same for a many-to-many edge: every node gets its whole join iff no pair of an account and a neighbour is
      missing from the page. If no pair is repeated, as the key of account_groups ensures, that is the case iff the
      pairs of all nodes together fit the page. */
  lemma JoinedLimitIsShared(d: Driver, w: With, rows: seq<Row>, pairs: seq<Hit>)
    requires Loadable(d, w, rows) && ShapeOf(w.edge).ManyToMany? && JoinsOf(w.sub.preds) == []
    requires var s := SpecOf(d.db, EdgeQuery(w, rows)); IsJoined(d.db, s, pairs) && IsPage(HitsOf(d, s), pairs, s)
    ensures var s := SpecOf(d.db, EdgeQuery(w, rows));
            var complete := forall row :: row in rows ==> GetsAll(d, w, rows, row);
            && (complete <==> forall h :: h in pairs ==> h in HitsOf(d, s))
            && (Distinct(pairs) ==> (complete <==> Fits(|pairs|, s)))
  {
    var s := SpecOf(d.db, EdgeQuery(w, rows));
    var hits := HitsOf(d, s);
    NarrowJoins(w, RowKeys(w.edge, rows));
    if forall row :: row in rows ==> GetsAll(d, w, rows, row) {
      forall h | h in pairs ensures h in hits {
        PairGotten(d, w, rows, h);
      }
    }
    if forall h :: h in pairs ==> h in hits {
      MultisetMembers(hits, pairs);
      forall row | row in rows ensures GetsAll(d, w, rows, row) {
        GetsAllPairs(d, w, rows, row);
      }
    }
    DistinctPage(hits, pairs, s);
  }

  /** A page of a duplicate-free list that misses nothing is as long as the list. */
  lemma DistinctPage<T>(page: seq<T>, all: seq<T>, s: Spec)
    requires IsPage(page, all, s)
    ensures Distinct(all) ==> (Fits(|all|, s) <==> forall x :: x in all ==> x in page)
  {
    PageIsAll(page, all, s);
    if multiset(page) == multiset(all) {
      MultisetMembers(all, page);
    }
    if Distinct(all) && forall x :: x in all ==> x in page {
      forall x ensures multiset(page)[x] == multiset(all)[x] {
        DistinctCount(all, x);
      }
    }
  }

  /** A row of the joined query pairs one account that was asked for with a neighbour of it. */
  ghost predicate IsPair(db: Database, w: With, ids: seq<int>, h: Hit) {
    WantedHit(db, w, ids, h) && |h.outs| == 1
  }

  lemma JoinedRowIsPair(db: Database, w: With, ids: seq<int>, h: Hit)
    requires ValidWith(w) && ShapeOf(w.edge).ManyToMany? && JoinsOf(w.sub.preds) == []
    requires var s := SpecOf(db, Narrow(w, ids)); h.row in MatchingRows(db, s) && JoinedWith(db, JoinsOf(s.preds), h)
    ensures IsPair(db, w, ids, h)
  {
    NarrowJoins(w, ids);
    FilterMember(db.rows(Target(w.edge)), Matching(db, Narrow(w, ids).preds), h.row);
    NarrowKeeps(db, w, ids, h.row);
    FrontJoined(db, [], ids, h);
  }

  lemma SamePair(db: Database, w: With, ids: seq<int>, a: Hit, b: Hit)
    requires ValidDatabase(db) && ShapeOf(w.edge).ManyToMany? && IsPair(db, w, ids, a) && IsPair(db, w, ids, b)
    requires a.Front() == b.Front() && IdOf(a.row) == IdOf(b.row)
    ensures a == b
  {
    SameIdSameRow(db, Target(w.edge), a.row, b.row);
    assert a.outs == [a.Front()] && b.outs == [b.Front()];
  }

  /** If the node of an account gets its whole join, each of its pairs was returned. */
  lemma PairGotten(d: Driver, w: With, rows: seq<Row>, h: Hit)
    requires Loadable(d, w, rows) && ShapeOf(w.edge).ManyToMany? && JoinsOf(w.sub.preds) == []
    requires var s := SpecOf(d.db, EdgeQuery(w, rows));
             h.row in MatchingRows(d.db, s) && JoinedWith(d.db, JoinsOf(s.preds), h)
    requires forall row :: row in rows ==> GetsAll(d, w, rows, row)
    ensures h in HitsOf(d, SpecOf(d.db, EdgeQuery(w, rows)))
  {
    var ids := RowKeys(w.edge, rows);
    JoinedRowIsPair(d.db, w, ids, h);
    var i :| 0 <= i < |rows| && ids[i] == h.Front();
    assert GetsAll(d, w, rows, rows[i]);
    PairOfJoin(d, w, rows, rows[i], h.row);
    var got := HitOfPair(d, w, rows, rows[i], h.row);
    SamePair(d.db, w, ids, got, h);
  }

  lemma HitOfPair(d: Driver, w: With, rows: seq<Row>, row: Row, x: Row) returns (h: Hit)
    requires Loadable(d, w, rows) && ShapeOf(w.edge).ManyToMany? && JoinsOf(w.sub.preds) == []
    requires BelongsTo(d, w, rows, row)(x)
    ensures h in HitsOf(d, SpecOf(d.db, EdgeQuery(w, rows))) && h.Front() == IdOf(row) && IdOf(h.row) == IdOf(x)
    ensures IsPair(d.db, w, RowKeys(w.edge, rows), h)
  {
    var s := SpecOf(d.db, EdgeQuery(w, rows));
    h :| h in HitsOf(d, s) && h.Front() == IdOf(row) && IdOf(h.row) == IdOf(x);
    JoinedHits(d, w, rows);
    JoinedAnswer(d.db, s, HitsOf(d, s));
    JoinedRowIsPair(d.db, w, RowKeys(w.edge, rows), h);
  }

  lemma PairOfJoin(d: Driver, w: With, rows: seq<Row>, row: Row, x: Row)
    requires Loadable(d, w, rows) && ShapeOf(w.edge).ManyToMany? && GetsAll(d, w, rows, row)
    requires x in d.db.rows(Target(w.edge)) && SatisfiesAll(d.db, w.sub.preds, x) && Linked(d.db, IdOf(row), IdOf(x))
    ensures BelongsTo(d, w, rows, row)(x)
  {
    NeighborJoins(d.db, w, row, x);
    MultisetMembers(NaiveJoin(d.db, w, row), Filter(Asked(d, w, rows), BelongsTo(d, w, rows, row)));
    FilterMember(Asked(d, w, rows), BelongsTo(d, w, rows, row), x);
  }

  lemma GetsAllPairs(d: Driver, w: With, rows: seq<Row>, row: Row)
    requires Loadable(d, w, rows) && row in rows && ShapeOf(w.edge).ManyToMany?
    requires var s := SpecOf(d.db, EdgeQuery(w, rows)); IsJoined(d.db, s, HitsOf(d, s))
    ensures GetsAll(d, w, rows, row)
  {
    var ids := RowKeys(w.edge, rows);
    var hits := HitsOf(d, SpecOf(d.db, EdgeQuery(w, rows)));
    JoinedHits(d, w, rows);
    JoinedIsJoin(d, w, rows, row);
    var i :| 0 <= i < |rows| && rows[i] == row;
    assert ids[i] == IdOf(row);
    JoinCovered(d.db, w, ids, hits, row);
  }

  /** A builder cannot ask for an empty page: `Limit(0)` asks for what no limit asks. */
  lemma LimitZeroIsNone(db: Database, q: Query)
    ensures SpecOf(db, q.(limit := Some(0))) == SpecOf(db, q.(limit := None))
  {
  }

  // ---------------------------------------------------------------- DISTINCT

  /** `Unique(true)` on the query of an edge changes the join of a row iff the selected columns do not tell the
      joining rows apart. It never does on a table with an id, because the id is always selected. */
  lemma UniqueJoin(db: Database, w: With, row: Row)
    requires ValidDatabase(db) && ValidWith(w) && w.sub.unique == Some(true)
    ensures NaiveJoin(db, w, row) == RelatedRows(db, w, row) <==> Separated(RelatedRows(db, w, row), SubColumns(db, w))
    ensures HasId(Target(w.edge)) ==> Separated(RelatedRows(db, w, row), SubColumns(db, w))
  {
    FirstOfEachIsAll(RelatedRows(db, w, row), SubColumns(db, w));
    if HasId(Target(w.edge)) {
      IdSeparates(db, w, row);
    }
  }
}
