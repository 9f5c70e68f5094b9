/** What running the same builder again does: every load has left its filter or its join in the builder of its
    edge. */
module SecondRuns {
  import opened Wrappers
  import opened Schema
  import opened Sequences
  import opened Relational
  import opened LoadPlan
  import opened HandOut
  import opened EagerLoad

  // ---------------------------------------------------------------- a second run

  /** The predicate that a load leaves in the builder of its edge. */
  function Left(e: Edge, keys: seq<int>): Pred {
    if ShapeOf(e).ManyToMany? then JoinedTo(keys) else ColumnIn(KeyColumn(e), keys)
  }

  function Passes(db: Database, p: Pred): Row -> bool {
    (row: Row) => Satisfies(db, p, row)
  }

  /** After a load with some keys the join of a row is what it was, less the rows that fail the predicate left
      behind. */
  lemma NarrowedJoin(db: Database, w: With, keys: seq<int>, row: Row)
    requires w.sub.table == Target(w.edge)
    ensures RelatedRows(db, With(w.edge, Narrow(w, keys)), row)
      == Filter(RelatedRows(db, w, row), Passes(db, Left(w.edge, keys)))
  {
    var again := With(w.edge, Narrow(w, keys));
    assert again.sub.preds == w.sub.preds + [Left(w.edge, keys)];
    forall other | other in db.rows(Target(w.edge))
      ensures (Match(db, w, row)(other) && Passes(db, Left(w.edge, keys))(other)) == Match(db, again, row)(other)
    {
      assert forall p :: p in again.sub.preds <==> p in w.sub.preds || p == Left(w.edge, keys);
    }
    FilterTwice(db.rows(Target(w.edge)), Match(db, w, row), Passes(db, Left(w.edge, keys)), Match(db, again, row));
  }

  /** The row's key is among the keys. */
  predicate KeyIn(e: Edge, row: Row, keys: seq<int>) {
    JoinKey(e, row).Some? && JoinKey(e, row).value in keys
  }

  /** A load leaves its key filter in the builder of the edge. So when the same builder is run again, after
      the keys of a first run have been added, a row whose key was among them still gets its join; of a to-one
      or one-to-many edge any other row gets nothing, even if its join is not empty. */
  lemma SecondRunJoin(db: Database, w: With, keys: seq<int>, row: Row)
    requires ValidDatabase(db) && ValidWith(w)
    ensures KeyIn(w.edge, row, keys) ==> NaiveJoin(db, With(w.edge, Narrow(w, keys)), row) == NaiveJoin(db, w, row)
    ensures !KeyIn(w.edge, row, keys) && !ShapeOf(w.edge).ManyToMany? ==>
      NaiveJoin(db, With(w.edge, Narrow(w, keys)), row) == []
  {
    NarrowedJoin(db, w, keys, row);
    var related := RelatedRows(db, w, row);
    forall other | other in related
      ensures KeyIn(w.edge, row, keys) ==> Passes(db, Left(w.edge, keys))(other)
      ensures !KeyIn(w.edge, row, keys) && !ShapeOf(w.edge).ManyToMany? ==> !Passes(db, Left(w.edge, keys))(other)
    {
      LeftPasses(db, w, keys, row, other);
    }
    NarrowedColumns(db, w, keys);
    if KeyIn(w.edge, row, keys) {
      FilterAll(related, Passes(db, Left(w.edge, keys)));
    } else if !ShapeOf(w.edge).ManyToMany? {
      FilterNone(related, Passes(db, Left(w.edge, keys)));
    }
  }

  lemma LeftPasses(db: Database, w: With, keys: seq<int>, row: Row, other: Row)
    requires ValidDatabase(db) && ValidWith(w) && other in RelatedRows(db, w, row)
    ensures KeyIn(w.edge, row, keys) ==> Satisfies(db, Left(w.edge, keys), other)
    ensures !KeyIn(w.edge, row, keys) && !ShapeOf(w.edge).ManyToMany? ==> !Satisfies(db, Left(w.edge, keys), other)
  {
    FilterMember(db.rows(Target(w.edge)), Match(db, w, row), other);
    assert ValidTable(db, Target(w.edge));
  }

  lemma NarrowedColumns(db: Database, w: With, keys: seq<int>)
    ensures SubColumns(db, With(w.edge, Narrow(w, keys))) == SubColumns(db, w)
  {
  }

  /** A second run loads the to-one or one-to-many edge of a row completely iff the first run asked for the
      row's key or there is nothing to load. */
  lemma SecondRunComplete(db: Database, w: With, keys: seq<int>, row: Row)
    requires ValidDatabase(db) && ValidWith(w) && !ShapeOf(w.edge).ManyToMany?
    ensures multiset(NaiveJoin(db, With(w.edge, Narrow(w, keys)), row)) == multiset(NaiveJoin(db, w, row))
      <==> KeyIn(w.edge, row, keys) || NaiveJoin(db, w, row) == []
  {
    SecondRunJoin(db, w, keys, row);
    assert |multiset(NaiveJoin(db, w, row))| == |NaiveJoin(db, w, row)|;
  }

  /** What the join of a many-to-many edge leaves for a second run is complete iff every neighbour of the row
      is also a neighbour of an account of the first run. */
  lemma SecondJoinComplete(db: Database, w: With, keys: seq<int>, row: Row)
    requires ValidDatabase(db) && ValidWith(w) && ShapeOf(w.edge).ManyToMany?
    ensures multiset(NaiveJoin(db, With(w.edge, Narrow(w, keys)), row)) == multiset(NaiveJoin(db, w, row))
      <==> forall x :: x in NaiveJoin(db, w, row) ==> LinkedToAny(db, keys, x)
  {
    SecondJoinedRun(db, w, keys, row);
    var f := (x: Row) => LinkedToAny(db, keys, x);
    FilterSame(NaiveJoin(db, w, row), Passes(db, JoinedTo(keys)), f);
    AllPass(NaiveJoin(db, w, row), f);
  }

  predicate LinkedToAny(db: Database, accounts: seq<int>, x: Row) {
    exists a :: a in accounts && Linked(db, a, IdOf(x))
  }

  lemma SecondJoinedRun(db: Database, w: With, keys: seq<int>, row: Row)
    requires ValidDatabase(db) && ValidWith(w) && ShapeOf(w.edge).ManyToMany?
    ensures NaiveJoin(db, With(w.edge, Narrow(w, keys)), row)
      == Filter(NaiveJoin(db, w, row), Passes(db, JoinedTo(keys)))
  {
    NarrowIsValid(w, keys);
    IdSeparates(db, w, row);
    IdSeparates(db, With(w.edge, Narrow(w, keys)), row);
    NarrowedJoin(db, w, keys, row);
  }

  lemma AllPass(rows: seq<Row>, f: Row -> bool)
    ensures multiset(Filter(rows, f)) == multiset(rows) <==> forall x :: x in rows ==> f(x)
  {
    if forall x :: x in rows ==> f(x) {
      FilterAll(rows, f);
    }
    if multiset(Filter(rows, f)) == multiset(rows) {
      forall x | x in rows ensures f(x) {
        assert x in multiset(rows);
        assert x in multiset(Filter(rows, f));
        FilterMember(rows, f, x);
      }
    }
  }

  /** A matching row of the edge's table that is linked to an account of each list. */
  ghost predicate InBoth(db: Database, w: With, keys: seq<int>, ids: seq<int>, x: Row) {
    && x in db.rows(Target(w.edge)) && SatisfiesAll(db, w.sub.preds, x)
    && LinkedToAny(db, keys, x) && LinkedToAny(db, ids, x)
  }

  /** The rows that a second run of a many-to-many edge asks for are linked to accounts of both runs. */
  lemma SecondRunMatches(db: Database, w: With, keys: seq<int>, ids: seq<int>, x: Row)
    requires w.sub.table == Target(w.edge) && ShapeOf(w.edge).ManyToMany?
    ensures var q := Narrow(With(w.edge, Narrow(w, keys)), ids);
            x in MatchingRows(db, SpecOf(db, q)) <==> InBoth(db, w, keys, ids, x)
  {
    var q := Narrow(With(w.edge, Narrow(w, keys)), ids);
    FilterMember(db.rows(q.table), Matching(db, q.preds), x);
    assert q.preds == w.sub.preds + [JoinedTo(keys)] + [JoinedTo(ids)];
    MorePreds(db, w.sub.preds + [JoinedTo(keys)], JoinedTo(ids), x);
    MorePreds(db, w.sub.preds, JoinedTo(keys), x);
  }

  lemma MorePreds(db: Database, preds: seq<Pred>, p: Pred, x: Row)
    ensures SatisfiesAll(db, preds + [p], x) <==> SatisfiesAll(db, preds, x) && Satisfies(db, p, x)
  {
    assert forall p' :: p' in preds + [p] <==> p' in preds || p' == p;
  }

  /** A second run of a many-to-many load asks for the join with the accounts of both runs. If it is answered, it
      panics as soon as a row comes back, since the rows now start with two account ids; and only if some
      matching neighbour is linked to an account of each run. Without paging, exactly then. */
  lemma SecondManyToManyRun(d: Driver, w: With, keys: seq<int>, rows: seq<Row>)
    requires Honours(d) && ValidDatabase(d.db) && ValidWith(w) && ShapeOf(w.edge).ManyToMany?
      && JoinsOf(w.sub.preds) == []
    requires var q := EdgeQuery(With(w.edge, Narrow(w, keys)), rows);
             FirstInvalid(q.fields, d.db.columns(q.table)).None? && d.ask(SpecOf(d.db, q)).Some?
    ensures var again := With(w.edge, Narrow(w, keys));
            var ids := RowKeys(w.edge, rows);
            var panics := EdgeError(d, again, rows) == Some(WrongSlot);
            && EdgeQuery(again, rows).preds == w.sub.preds + [JoinedTo(keys), JoinedTo(ids)]
            && (!panics ==> EdgeError(d, again, rows).None?)
            && (panics ==> exists x :: InBoth(d.db, w, keys, ids, x))
            && (!Paged(SpecOf(d.db, w.sub)) ==> (panics <==> exists x :: InBoth(d.db, w, keys, ids, x)))
  {
    var again, ids := With(w.edge, Narrow(w, keys)), RowKeys(w.edge, rows);
    var q := EdgeQuery(again, rows);
    SecondRunJoins(w, keys, rows);
    PanicsIfAnyRow(d, again, rows);
    var hits := HitsOf(d, SpecOf(d.db, q));
    JoinedAnswer(d.db, SpecOf(d.db, q), hits);
    if hits != [] {
      assert hits[0] in hits;
      SecondRunMatches(d.db, w, keys, ids, hits[0].row);
    }
    if x :| InBoth(d.db, w, keys, ids, x) {
      SecondRunMatches(d.db, w, keys, ids, x);
      FilterMember(d.db.rows(q.table), Matching(d.db, q.preds), x);
      var outs := PickOuts(d.db, q.preds, x);
      assert !Paged(SpecOf(d.db, w.sub)) ==> Hit(outs, x) in hits;
    }
  }

  lemma SecondRunJoins(w: With, keys: seq<int>, rows: seq<Row>)
    requires ShapeOf(w.edge).ManyToMany? && JoinsOf(w.sub.preds) == []
    ensures var q := EdgeQuery(With(w.edge, Narrow(w, keys)), rows);
            && q.preds == w.sub.preds + [JoinedTo(keys), JoinedTo(RowKeys(w.edge, rows))]
            && |JoinsOf(q.preds)| == 2
  {
    NarrowJoins(w, keys);
    NarrowJoins(With(w.edge, Narrow(w, keys)), RowKeys(w.edge, rows));
  }

  lemma PanicsIfAnyRow(d: Driver, w: With, rows: seq<Row>)
    requires |JoinsOf(EdgeQuery(w, rows).preds)| == 2 && ShapeOf(w.edge).ManyToMany?
    requires var q := EdgeQuery(w, rows);
             FirstInvalid(q.fields, d.db.columns(q.table)).None? && d.ask(SpecOf(d.db, q)).Some?
    ensures EdgeError(d, w, rows) == if HitsOf(d, SpecOf(d.db, EdgeQuery(w, rows))) != [] then Some(WrongSlot) else None
  {
    var q := EdgeQuery(w, rows);
    if HitsOf(d, SpecOf(d.db, q)) == [] {
      assert RowsGot(d, q) == [];
    }
  }

  /** Running the same builder for the same accounts again: without paging it panics iff any of them has a
      matching neighbour. */
  lemma SameAccountsAgain(d: Driver, w: With, rows: seq<Row>)
    requires Honours(d) && ValidDatabase(d.db) && ValidWith(w) && ShapeOf(w.edge).ManyToMany?
      && JoinsOf(w.sub.preds) == []
    requires !Paged(SpecOf(d.db, w.sub))
    requires var q := EdgeQuery(With(w.edge, EdgeQuery(w, rows)), rows);
             FirstInvalid(q.fields, d.db.columns(q.table)).None? && d.ask(SpecOf(d.db, q)).Some?
    ensures EdgeError(d, With(w.edge, EdgeQuery(w, rows)), rows) == Some(WrongSlot) <==>
      exists row :: row in rows && NaiveJoin(d.db, w, row) != []
  {
    var keys := RowKeys(w.edge, rows);
    SecondManyToManyRun(d, w, keys, rows);
    if x :| InBoth(d.db, w, keys, keys, x) {
      var a :| a in keys && Linked(d.db, a, IdOf(x));
      var i :| 0 <= i < |rows| && keys[i] == a;
      NeighborJoins(d.db, w, rows[i], x);
    }
    if row :| row in rows && NaiveJoin(d.db, w, row) != [] {
      var x := NaiveJoin(d.db, w, row)[0];
      NeighborJoins(d.db, w, row, x);
      var i :| 0 <= i < |rows| && rows[i] == row;
      assert keys[i] in keys && Linked(d.db, keys[i], IdOf(x));
      assert InBoth(d.db, w, keys, keys, x);
    }
  }

  lemma PanicsAgain(d: Driver, w: With, row: Row)
    requires Honours(d) && ValidDatabase(d.db) && ValidWith(w) && ShapeOf(w.edge).ManyToMany?
      && JoinsOf(w.sub.preds) == []
    requires !Paged(SpecOf(d.db, w.sub)) && w.sub.fields == [] && NaiveJoin(d.db, w, row) != []
    requires d.ask(SpecOf(d.db, EdgeQuery(With(w.edge, EdgeQuery(w, [row])), [row]))).Some?
    ensures EdgeError(d, With(w.edge, EdgeQuery(w, [row])), [row]) == Some(WrongSlot)
  {
    var rows := [row];
    assert rows[0] in rows;
    SameAccountsAgain(d, w, rows);
  }

  /** What a whole run leaves behind: on every level, the builder of an edge that was loaded has the predicate of
      its load, and the join of any row of any later database is the join that `SecondRunJoin` describes. */
  lemma RunLeavesFilters(d: Driver, q: Query, tree: Query, i: nat, db: Database, row: Row)
    requires q.with == tree.with && i < |tree.with| && RowsGot(d, q) != []
    ensures var w := tree.with[i];
            var rows := RowsGot(d, q);
            var after := After(d, q, tree);
            && i < |after.with| && after.with[i].edge == w.edge
            && after.with[i].sub == AfterEdge(d, w, rows)
            && NaiveJoin(db, after.with[i], row)
              == NaiveJoin(db, if Skipped(w.edge, rows) then w else With(w.edge, EdgeQuery(w, rows)), row)
  {
    var w := tree.with[i];
    AfterEdgeAt(d, tree, RowsGot(d, q), |tree.with|, i);
    if !Skipped(w.edge, RowsGot(d, q)) {
      AfterKeepsTop(d, EdgeQuery(w, RowsGot(d, q)), w.sub);
      SameTopSameJoin(db, w.edge, AfterEdge(d, w, RowsGot(d, q)), EdgeQuery(w, RowsGot(d, q)), row);
    }
  }

  lemma {:induction false} AfterEdgeAt(d: Driver, q: Query, rows: seq<Row>, n: nat, i: nat)
    requires i < n <= |q.with|
    ensures AfterEdges(d, q, rows, n)[i] == With(q.with[i].edge, AfterEdge(d, q.with[i], rows))
  {
    if i < n - 1 {
      AfterEdgeAt(d, q, rows, n - 1, i);
    }
  }

  /** Two builders that differ below their edges only. */
  predicate SameTop(a: Query, b: Query) {
    && a.(with := []) == b.(with := [])
    && |a.with| == |b.with|
    && forall i :: 0 <= i < |a.with| ==> a.with[i].edge == b.with[i].edge
  }

  lemma AfterKeepsEdges(d: Driver, q: Query, rows: seq<Row>)
    ensures var ws := AfterEdges(d, q, rows, |q.with|);
            |ws| == |q.with| && forall i :: 0 <= i < |q.with| ==> ws[i].edge == q.with[i].edge
  {
    forall i | 0 <= i < |q.with| ensures AfterEdges(d, q, rows, |q.with|)[i].edge == q.with[i].edge {
      AfterEdgeAt(d, q, rows, |q.with|, i);
    }
  }

  lemma AfterKeepsTop(d: Driver, q: Query, tree: Query)
    requires q.with == tree.with
    ensures SameTop(After(d, q, tree), q)
  {
    AfterKeepsEdges(d, tree, RowsGot(d, q));
  }

  lemma SameTopSameJoin(db: Database, e: Edge, a: Query, b: Query, row: Row)
    requires SameTop(a, b)
    ensures NaiveJoin(db, With(e, a), row) == NaiveJoin(db, With(e, b), row)
  {
    FilterSame(db.rows(Target(e)), Match(db, With(e, a), row), Match(db, With(e, b), row));
    SameTopSameColumns(db, a, b, SubFields(With(e, a)));
  }

  lemma SameTopSameColumns(db: Database, a: Query, b: Query, fields: seq<Column>)
    requires SameTop(a, b)
    ensures Selected(db.columns(a.table), a.table, fields, a.with)
      == Selected(db.columns(b.table), b.table, fields, b.with)
  {
    if fields != [] {
      SameEdgesSameKeys(Base(a.table, fields), a.with, b.with);
    }
  }

  lemma {:induction false} SameEdgesSameKeys(columns: seq<Column>, a: seq<With>, b: seq<With>)
    requires |a| == |b| && forall i :: 0 <= i < |a| ==> a[i].edge == b[i].edge
    ensures AddKeys(columns, a) == AddKeys(columns, b)
    decreases |a|
  {
    if a != [] {
      SameEdgesSameKeys(columns, a[..|a| - 1], b[..|b| - 1]);
    }
  }

  // ---------------------------------------------------------------- running a builder twice

  /** The builder that a run leaves is one that can be run. */
  lemma {:induction false} AfterIsValid(d: Driver, q: Query, tree: Query)
    requires q.with == tree.with && q.table == tree.table && ValidQuery(tree)
    ensures ValidQuery(After(d, q, tree)) && SameTop(After(d, q, tree), q)
    decreases tree
  {
    AfterKeepsTop(d, q, tree);
    var rows := RowsGot(d, q);
    if rows == [] {
      SameEdgesValid(q, tree);
      return;
    }
    forall i | 0 <= i < |tree.with| ensures ValidWith(With(tree.with[i].edge, AfterEdge(d, tree.with[i], rows))) {
      var w := tree.with[i];
      if !Skipped(w.edge, rows) {
        AfterIsValid(d, EdgeQuery(w, rows), w.sub);
        NarrowJoins(w, RowKeys(w.edge, rows));
      }
    }
    AfterEdgesValid(d, q, tree);
  }

  lemma SameEdgesValid(q: Query, tree: Query)
    requires q.with == tree.with && q.table == tree.table && ValidQuery(tree)
    ensures ValidQuery(q)
  {
  }

  lemma AfterEdgesValid(d: Driver, q: Query, tree: Query)
    requires q.with == tree.with && q.table == tree.table && ValidQuery(tree) && RowsGot(d, q) != []
    requires forall i :: 0 <= i < |tree.with| ==>
      ValidWith(With(tree.with[i].edge, AfterEdge(d, tree.with[i], RowsGot(d, q))))
    ensures ValidQuery(After(d, q, tree))
  {
    var after := After(d, q, tree);
    AfterKeepsEdges(d, tree, RowsGot(d, q));
    forall i | 0 <= i < |tree.with| ensures ValidWith(after.with[i]) && Source(after.with[i].edge) == after.table {
      AfterEdgeAt(d, tree, RowsGot(d, q), |tree.with|, i);
    }
  }

  /** A run adds no column that its table does not have to the chosen fields. */
  lemma {:induction false} AfterChoosesValid(d: Driver, q: Query, tree: Query, c: Column)
    requires ValidDatabase(d.db) && q.with == tree.with && q.table == tree.table && ValidQuery(tree)
    requires ChosenInvalid(d.db, After(d, q, tree), c)
    ensures (c in q.fields && c !in d.db.columns(q.table)) || ChosenInvalid(d.db, tree, c)
    decreases tree
  {
    var rows, after := RowsGot(d, q), After(d, q, tree);
    AfterKeepsTop(d, q, tree);
    if rows == [] || (c in q.fields && c !in d.db.columns(q.table)) {
      return;
    }
    var i :| 0 <= i < |after.with| && ChosenInvalid(d.db, after.with[i].sub, c);
    var w := tree.with[i];
    AfterEdgeAt(d, tree, rows, |tree.with|, i);
    if !Skipped(w.edge, rows) {
      AfterChoosesValid(d, EdgeQuery(w, rows), w.sub, c);
      NarrowFields(d.db, w, RowKeys(w.edge, rows));
    }
    assert ChosenInvalid(d.db, w.sub, c);
  }

  /** A run of a tree without many-to-many edges adds no join. */
  lemma {:induction false} AfterStaysUnloaded(d: Driver, q: Query, tree: Query)
    requires q.with == tree.with && Unloaded(tree) && Repeatable(d.db, tree)
    ensures Unloaded(After(d, q, tree))
    decreases tree
  {
    var rows, after := RowsGot(d, q), After(d, q, tree);
    if rows == [] {
      assert forall i :: 0 <= i < |q.with| ==> JoinsOf(tree.with[i].sub.preds) == [] && Unloaded(tree.with[i].sub);
      return;
    }
    forall i | 0 <= i < |after.with| ensures JoinsOf(after.with[i].sub.preds) == [] && Unloaded(after.with[i].sub) {
      AfterEdgeAt(d, tree, rows, |tree.with|, i);
      EdgeStaysUnloaded(d, tree.with[i], rows);
    }
  }

  lemma {:induction false} EdgeStaysUnloaded(d: Driver, w: With, rows: seq<Row>)
    requires !ShapeOf(w.edge).ManyToMany? && JoinsOf(w.sub.preds) == [] && Unloaded(w.sub) && Repeatable(d.db, w.sub)
    ensures JoinsOf(AfterEdge(d, w, rows).preds) == [] && Unloaded(AfterEdge(d, w, rows))
    decreases w
  {
    if !Skipped(w.edge, rows) {
      NarrowJoins(w, RowKeys(w.edge, rows));
      AfterKeepsTop(d, EdgeQuery(w, rows), w.sub);
      AfterStaysUnloaded(d, EdgeQuery(w, rows), w.sub);
    }
  }

  /** No many-to-many edges, and no page where there are edges below: the page of the second run may be another one,
      and then `SecondRunComplete` says, row by row, what its rows lose. */
  ghost predicate Repeatable(db: Database, q: Query)
    decreases q
  {
    forall i :: 0 <= i < |q.with| ==>
      && !ShapeOf(q.with[i].edge).ManyToMany?
      && (Paged(SpecOf(db, q.with[i].sub)) ==> q.with[i].sub.with == [])
      && Repeatable(db, q.with[i].sub)
  }

  /** What a load leaves in the builder of its edge does not change the joins of the rows that it loaded for. */
  lemma JoinAgain(d: Driver, w: With, rows: seq<Row>, row: Row)
    requires ValidDatabase(d.db) && ValidWith(w) && row in rows && !ShapeOf(w.edge).ManyToMany?
    ensures NaiveJoin(d.db, With(w.edge, AfterEdge(d, w, rows)), row) == NaiveJoin(d.db, w, row)
    ensures SubColumns(d.db, With(w.edge, AfterEdge(d, w, rows))) == SubColumns(d.db, w)
    ensures Paged(SpecOf(d.db, AfterEdge(d, w, rows))) == Paged(SpecOf(d.db, w.sub))
  {
    if Skipped(w.edge, rows) {
      return;
    }
    var q, again := EdgeQuery(w, rows), AfterEdge(d, w, rows);
    AfterKeepsTop(d, q, w.sub);
    SameTopSameJoin(d.db, w.edge, again, q, row);
    SameTopSameColumns(d.db, again, q, SubFields(With(w.edge, again)));
    NarrowedColumns(d.db, w, RowKeys(w.edge, rows));
    SecondRunJoin(d.db, w, RowKeys(w.edge, rows), row);
    if JoinKey(w.edge, row).None? {
      FilterNone(d.db.rows(Target(w.edge)), Match(d.db, w, row));
      return;
    }
    KeyAsked(d, w, rows, row);
  }

  /** A node that is loaded by the builders left behind is loaded as by the builders of the first run. */
  lemma {:induction false} LoadedAgain(d: Driver, columns: seq<Column>, tree: Query, rows: seq<Row>, n: Node,
      S: set<Node>)
    requires Sound(d, tree, rows) && n.row in rows && Repeatable(d.db, tree)
    requires LoadedBy(d.db, columns, tree.(with := AfterEdges(d, tree, rows, |tree.with|)), n, S)
    ensures LoadedBy(d.db, columns, tree, n, S)
    decreases tree
  {
    var after := tree.(with := AfterEdges(d, tree, rows, |tree.with|));
    AfterKeepsEdges(d, tree, rows);
    assert EdgesOf(after.with) == EdgesOf(tree.with);
    forall i | 0 <= i < |tree.with| ensures EdgeBy(d.db, tree.with[i], n.row, Lookup(n.edges, tree.with[i].edge), S) {
      AfterEdgeAt(d, tree, rows, |tree.with|, i);
      assert EdgeBy(d.db, after.with[i], n.row, Lookup(n.edges, after.with[i].edge), S);
      NoEdgeFails(d, tree, rows, 0, i);
      EdgeAgain(d, tree.with[i], rows, n.row, Lookup(n.edges, tree.with[i].edge), S);
    }
  }

  lemma {:induction false} EdgeAgain(d: Driver, w: With, rows: seq<Row>, row: Row, v: Option<EdgeValue>, S: set<Node>)
    requires Loadable(d, w, rows) && row in rows && !ShapeOf(w.edge).ManyToMany?
    requires (Paged(SpecOf(d.db, w.sub)) ==> w.sub.with == []) && Repeatable(d.db, w.sub)
    requires EdgeBy(d.db, With(w.edge, AfterEdge(d, w, rows)), row, v, S)
    ensures EdgeBy(d.db, w, row, v, S)
    decreases w
  {
    if Skipped(w.edge, rows) {
      return;
    }
    var again := AfterEdge(d, w, rows);
    JoinAgain(d, w, rows, row);
    AfterKeepsTop(d, EdgeQuery(w, rows), w.sub);
    forall t | t in TargetsOf(v) ensures LoadedBy(d.db, SubColumns(d.db, w), w.sub, t, S) {
      if w.sub.with == [] {
        SameLoaded(d.db, SubColumns(d.db, w), again, w.sub, t, S);
      } else {
        TargetGotBefore(d, w, rows, row, TargetsOf(v), t);
        SoundBelow(d, w, rows);
        var asked := Asked(d, w, rows);
        SameLoaded(d.db, SubColumns(d.db, w), again, w.sub.(with := AfterEdges(d, w.sub, asked, |w.sub.with|)), t, S);
        LoadedAgain(d, SubColumns(d.db, w), w.sub, asked, t, S);
      }
    }
  }

  /** Only the edges of the query matter. */
  lemma SameLoaded(db: Database, columns: seq<Column>, q: Query, q': Query, n: Node, S: set<Node>)
    requires q.with == q'.with && LoadedBy(db, columns, q, n, S)
    ensures LoadedBy(db, columns, q', n, S)
  {
    forall i | 0 <= i < |q.with| ensures EdgeBy(db, q'.with[i], n.row, Lookup(n.edges, q'.with[i].edge), S) {
      assert EdgeBy(db, q.with[i], n.row, Lookup(n.edges, q.with[i].edge), S);
    }
  }

  /** A row of the whole join of a node was got by the first run. */
  lemma TargetGotBefore(d: Driver, w: With, rows: seq<Row>, row: Row, ts: seq<Node>, t: Node)
    requires Loadable(d, w, rows) && row in rows && !Paged(SpecOf(d.db, w.sub))
    requires Joins(d.db, w, row, SourceRows(ts)) && t in ts
    ensures t.row in Asked(d, w, rows)
  {
    AskedIsJoin(d, w, rows, row);
    RowOfNode(ts, t);
    var mine := Filter(Asked(d, w, rows), BelongsTo(d, w, rows, row));
    MultisetMembers(SourceRows(ts), NaiveJoin(d.db, w, row));
    MultisetMembers(NaiveJoin(d.db, w, row), mine);
    FilterMember(Asked(d, w, rows), BelongsTo(d, w, rows, row), t.row);
  }

  /** The builder that a run leaves asks the same at the top, and what it loads is what the first run loads. */
  lemma SecondRunLoadsSame(d: Driver, q: Query, n: Node, S: set<Node>)
    requires Honours(d) && ValidDatabase(d.db) && ValidQuery(q) && JoinsOf(q.preds) == [] && Repeatable(d.db, q)
    requires QueryError(d, q, q).None?
    requires n.row in RowsGot(d, q) && LoadedBy(d.db, SelectedBy(d.db, q), After(d, q, q), n, S)
    ensures LoadedBy(d.db, SelectedBy(d.db, q), q, n, S)
  {
    var rows := RowsGot(d, q);
    PlainRows(d, q);
    CandidatesMatch(d.db, SpecOf(d.db, q));
    MultisetMembers(rows, Candidates(d.db, SpecOf(d.db, q)));
    LoadedAgain(d, SelectedBy(d.db, q), q, rows, n, S);
  }

  lemma SameTopSameRows(d: Driver, a: Query, b: Query)
    requires SameTop(a, b)
    ensures SpecOf(d.db, a) == SpecOf(d.db, b) && RowsGot(d, a) == RowsGot(d, b)
      && SelectedBy(d.db, a) == SelectedBy(d.db, b)
  {
    SameTopSameColumns(d.db, a, b, a.fields);
  }

  /** With valid fields and fresh builders, a driver that answers everything makes both runs succeed. */
  lemma BothRunsSucceed(d: Driver, q: Query)
    requires ValidDatabase(d.db) && ValidQuery(q) && JoinsOf(q.preds) == [] && Repeatable(d.db, q)
    requires FieldsValid(d.db, q) && Unloaded(q) && forall s :: d.ask(s).Some?
    ensures QueryError(d, q, q).None? && QueryError(d, After(d, q, q), After(d, q, q)).None?
  {
    RunSucceeds(d, q);
    AfterIsValid(d, q, q);
    AfterStaysUnloaded(d, q, q);
    forall c ensures !ChosenInvalid(d.db, After(d, q, q), c) {
      if ChosenInvalid(d.db, After(d, q, q), c) {
        AfterChoosesValid(d, q, q, c);
        assert ChosenInvalid(d.db, q, c);
      }
    }
    RunSucceeds(d, After(d, q, q));
  }

  /** Running a builder and then the builder it leaves: for a tree without many-to-many edges the second run makes
      nodes of the same rows in the same order, and they hold the same joins on every level. */
  method RunTwice(d: Driver, q: Query)
    returns (first: Result<seq<Node>, Error>, again: Result<seq<Node>, Error>, ghost S: set<Node>)
    requires Honours(d) && ValidDatabase(d.db) && ValidQuery(q) && JoinsOf(q.preds) == [] && Repeatable(d.db, q)
    ensures fresh(S)
    ensures ErrorOf(first) == QueryError(d, q, q)
    ensures first.Ok? ==> ErrorOf(again) == QueryError(d, After(d, q, q), After(d, q, q))
    ensures FieldsValid(d.db, q) && Unloaded(q) && (forall s :: d.ask(s).Some?) ==> first.Ok? && again.Ok?
    ensures first.Ok? && again.Ok? ==> SourceRows(again.value) == SourceRows(first.value)
    ensures first.Ok? && again.Ok? ==> forall n :: n in again.value ==> LoadedBy(d.db, SelectedBy(d.db, q), q, n, S)
  {
    var left;
    if FieldsValid(d.db, q) && Unloaded(q) && forall s :: d.ask(s).Some? {
      BothRunsSucceed(d, q);
    }
    first, left, S := All(d, q);
    again := first;
    if first.Err? {
      return;
    }
    AfterIsValid(d, q, q);
    SameTopSameRows(d, left, q);
    again, left, S := All(d, left);
    if again.Ok? {
      forall n | n in again.value ensures LoadedBy(d.db, SelectedBy(d.db, q), q, n, S) {
        RowOfNode(again.value, n);
        SecondRunLoadsSame(d, q, n, S);
      }
    }
  }
}
