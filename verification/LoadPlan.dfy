/** What a run of the eager-loading engine asks, gets and returns, in terms of rows alone: the one query
    per edge, the keys it is restricted to, the error the run ends with, the builders it leaves behind; and
    the proof that the rows handed to a node are the naive join of its row. */
module LoadPlan {
  import opened Wrappers
  import opened Schema
  import opened Sequences
  import opened Relational

  /** `DriverFailed` names the query that was not answered. `NilNode` and `WrongSlot` are panics: a nil node
      dereferenced, and a slot that is not of the asserted type. */
  datatype Error = DriverFailed(spec: Spec) | InvalidField(field: Column) | UnexpectedNode(id: int) | NilKey | NilNode
      | WrongSlot

  // ---------------------------------------------------------------- queries

  /** Every edge belongs to the table it is loaded for and is requested at most once per query; only a
      many-to-many load has ever added a join, and to the builder of its own edge. */
  ghost predicate ValidQuery(q: Query)
    decreases q
  {
    && (forall i :: 0 <= i < |q.with| ==>
      && Source(q.with[i].edge) == q.table
      && q.with[i].sub.table == Target(q.with[i].edge)
      && (ShapeOf(q.with[i].edge).ManyToMany? || JoinsOf(q.with[i].sub.preds) == [])
      && ValidQuery(q.with[i].sub))
    && (forall i, j :: 0 <= i < j < |q.with| ==> q.with[i].edge != q.with[j].edge)
  }

  ghost predicate ValidWith(w: With) {
    && w.sub.table == Target(w.edge)
    && ValidQuery(w.sub)
    && (ShapeOf(w.edge).ManyToMany? || JoinsOf(w.sub.preds) == [])
  }

  /** The number of levels below a query: the measure of the recursion through the loads. */
  function Height(q: Query): nat {
    HeightUpTo(q, |q.with|)
  }

  function HeightUpTo(q: Query, i: nat): nat
    requires i <= |q.with|
    decreases q, i
  {
    if i == 0 then 0
    else
      var before := HeightUpTo(q, i - 1);
      var sub := q.with[i - 1].sub;
      var here := 1 + HeightUpTo(sub, |sub.with|);
      if before < here then here else before
  }

  lemma {:induction false} SubHeight(q: Query, n: nat, i: nat)
    requires i < n <= |q.with|
    ensures Height(q.with[i].sub) < HeightUpTo(q, n)
    decreases n
  {
    if i < n - 1 {
      SubHeight(q, n - 1, i);
    }
  }

  lemma {:induction false} SameHeight(q: Query, q': Query, i: nat)
    requires q.with == q'.with && i <= |q.with|
    ensures HeightUpTo(q, i) == HeightUpTo(q', i)
    decreases i
  {
    if i > 0 {
      SameHeight(q, q', i - 1);
    }
  }

  // ---------------------------------------------------------------- what a load asks and gets

  /** The keys that are not NULL, in the order of first appearance. */
  function KeysOfRows(rows: seq<Row>, fk: Column): seq<int> {
    if rows == [] then []
    else
      var before := KeysOfRows(rows[..|rows| - 1], fk);
      match Cell(rows[|rows| - 1], fk)
      case None => before
      case Some(k) => if k in before then before else before + [k]
  }

  /** What a load restricts its query to, for nodes with the given rows. */
  function RowKeys(e: Edge, rows: seq<Row>): seq<int> {
    match ShapeOf(e)
    case ManyToOne(fk, _) => KeysOfRows(rows, fk)
    case _ => seq(|rows|, i requires 0 <= i < |rows| => IdOf(rows[i]))
  }

  /** A many-to-one load for nodes without keys asks nothing. */
  predicate Skipped(e: Edge, rows: seq<Row>) {
    ShapeOf(e).ManyToOne? && RowKeys(e, rows) == []
  }

  /** The query that the load of an edge runs. */
  function EdgeQuery(w: With, rows: seq<Row>): Query {
    Narrow(w, RowKeys(w.edge, rows))
  }

  function HitsOf(d: Driver, s: Spec): seq<Hit> {
    if d.ask(s).Some? then d.ask(s).value else []
  }

  /** The rows that the many-to-many callback keeps: the first with each id. */
  function FirstSeen(hits: seq<Hit>): seq<Row> {
    if hits == [] then []
    else
      var row := hits[|hits| - 1].row;
      FirstSeen(hits[..|hits| - 1]) + if SeenId(hits[..|hits| - 1], IdOf(row)) then [] else [row]
  }

  predicate SeenId(hits: seq<Hit>, id: int) {
    exists h :: h in hits && IdOf(h.row) == id
  }

  /** The rows behind the nodes that a query makes, in the driver's order. */
  function RowsGot(d: Driver, q: Query): seq<Row> {
    var hits := HitsOf(d, SpecOf(d.db, q));
    if JoinsOf(q.preds) == [] then RowsOf(hits) else FirstSeen(hits)
  }

  function Asked(d: Driver, w: With, rows: seq<Row>): seq<Row> {
    if Skipped(w.edge, rows) then [] else RowsGot(d, EdgeQuery(w, rows))
  }

  /** The row was returned for the account. */
  function ReturnedFor(hits: seq<Hit>, account: int): Row -> bool {
    (row: Row) => exists h :: h in hits && h.Front() == account && IdOf(h.row) == IdOf(row)
  }

  /** Of the rows that the load of an edge got, those that go to the node with the given row. */
  function BelongsTo(d: Driver, w: With, rows: seq<Row>, row: Row): Row -> bool {
    match ShapeOf(w.edge)
    case ManyToMany => ReturnedFor(HitsOf(d, SpecOf(d.db, EdgeQuery(w, rows))), IdOf(row))
    case OneToMany(fk, _) => (other: Row) => Cell(other, fk) == Some(IdOf(row))
    case ManyToOne(fk, _) => (other: Row) => Cell(row, fk) == Some(IdOf(other))
  }

  // ---------------------------------------------------------------- errors

  /** The field check of `prepareQuery`. */
  function FirstInvalid(fields: seq<Column>, columns: seq<Column>): Option<Column> {
    if fields == [] then None
    else if fields[0] !in columns then Some(fields[0])
    else FirstInvalid(fields[1..], columns)
  }

  /** How running a query ends. `tree` has the edges of q; a load passes the builder of its edge before it was
      restricted. With more than one join the second column of a row is another account id and not the id of
      the neighbour, and the slot for it is not an integer slot. */
  function QueryError(d: Driver, q: Query, tree: Query): Option<Error>
    requires q.with == tree.with
    decreases tree, |tree.with| + 1
  {
    var bad := FirstInvalid(q.fields, d.db.columns(q.table));
    var spec := SpecOf(d.db, q);
    if bad.Some? then Some(InvalidField(bad.value))
    else if d.ask(spec).None? then Some(DriverFailed(spec))
    else if |JoinsOf(q.preds)| > 1 && HitsOf(d, spec) != [] then Some(WrongSlot)
    else if RowsGot(d, q) == [] then None
    else EdgesError(d, tree, RowsGot(d, q), 0)
  }

  /** How loading the edges i, i + 1, ... for nodes with the given rows ends. */
  function EdgesError(d: Driver, q: Query, rows: seq<Row>, i: nat): Option<Error>
    requires i <= |q.with|
    decreases q, |q.with| - i
  {
    if i == |q.with| then None
    else if EdgeError(d, q.with[i], rows).Some? then EdgeError(d, q.with[i], rows)
    else EdgesError(d, q, rows, i + 1)
  }

  function EdgeError(d: Driver, w: With, rows: seq<Row>): Option<Error>
    decreases w
  {
    if Skipped(w.edge, rows) then None else QueryError(d, EdgeQuery(w, rows), w.sub)
  }

  /** The query, or a query that a load below it runs, is the specification. */
  predicate MayAsk(d: Driver, q: Query, tree: Query, s: Spec)
    requires q.with == tree.with
    decreases tree, 1
  {
    s == SpecOf(d.db, q) || exists i :: 0 <= i < |tree.with| && EdgeMayAsk(d, tree.with[i], RowsGot(d, q), s)
  }

  predicate EdgeMayAsk(d: Driver, w: With, rows: seq<Row>, s: Spec)
    decreases w
  {
    rows != [] && !Skipped(w.edge, rows) && MayAsk(d, EdgeQuery(w, rows), w.sub, s)
  }

  /** The field is chosen in some query of the tree and is not a column of that query's table. */
  predicate ChosenInvalid(db: Database, q: Query, c: Column)
    decreases q
  {
    (c in q.fields && c !in db.columns(q.table)) || exists i :: 0 <= i < |q.with| && ChosenInvalid(db, q.with[i].sub, c)
  }

  /** All chosen fields are columns of their tables. */
  ghost predicate FieldsValid(db: Database, q: Query) {
    forall c :: !ChosenInvalid(db, q, c)
  }

  /** No many-to-many load has run on a builder of the tree. */
  predicate Unloaded(q: Query)
    decreases q
  {
    forall i :: 0 <= i < |q.with| ==> JoinsOf(q.with[i].sub.preds) == [] && Unloaded(q.with[i].sub)
  }

  lemma {:induction false} FirstInvalidIs(fields: seq<Column>, columns: seq<Column>)
    ensures match FirstInvalid(fields, columns)
            case None => forall c :: c in fields ==> c in columns
            case Some(c) => c !in columns && exists i: nat :: FirstAt(fields, columns, i, c)
  {
    if fields != [] && fields[0] !in columns {
      assert FirstAt(fields, columns, 0, fields[0]);
    } else if fields != [] {
      FirstInvalidIs(fields[1..], columns);
      var bad := FirstInvalid(fields[1..], columns);
      if bad.Some? {
        var i: nat :| FirstAt(fields[1..], columns, i, bad.value);
        assert fields[..i + 1] == [fields[0]] + fields[1..][..i];
        assert FirstAt(fields, columns, i + 1, bad.value);
      }
    }
  }

  /** The field is at that position, and all before it are columns. */
  predicate FirstAt(fields: seq<Column>, columns: seq<Column>, i: nat, c: Column) {
    i < |fields| && fields[i] == c && forall f :: f in fields[..i] ==> f in columns
  }

  /** The three errors that a run can end with, and what each of them means: a chosen field is not a column; the
      query named by the error was asked and not answered; a many-to-many edge was loaded before by the
      same builder. */
  ghost predicate Justified(d: Driver, q: Query, tree: Query, e: Error)
    requires q.with == tree.with
  {
    match e
    case InvalidField(c) => (c in q.fields && c !in d.db.columns(q.table)) || ChosenInvalid(d.db, tree, c)
    case DriverFailed(s) => MayAsk(d, q, tree, s) && d.ask(s).None?
    case WrongSlot => |JoinsOf(q.preds)| > 1 || !Unloaded(tree)
    case _ => false
  }

  lemma {:induction false} ErrorsAreJustified(d: Driver, q: Query, tree: Query)
    requires ValidDatabase(d.db) && ValidQuery(tree) && q.with == tree.with && QueryError(d, q, tree).Some?
    ensures Justified(d, q, tree, QueryError(d, q, tree).value)
    decreases tree, |tree.with| + 1
  {
    FirstInvalidIs(q.fields, d.db.columns(q.table));
    if FirstInvalid(q.fields, d.db.columns(q.table)).None? && d.ask(SpecOf(d.db, q)).Some? {
      if |JoinsOf(q.preds)| > 1 && HitsOf(d, SpecOf(d.db, q)) != [] {
        return;
      }
      var i := FailingEdge(d, tree, RowsGot(d, q), 0);
      EdgeJustified(d, tree.with[i], RowsGot(d, q));
      LiftJustified(d, q, tree, i, QueryError(d, q, tree).value);
    }
  }

  lemma {:induction false} FailingEdge(d: Driver, q: Query, rows: seq<Row>, i: nat) returns (j: nat)
    requires i <= |q.with| && EdgesError(d, q, rows, i).Some?
    ensures j < |q.with| && EdgeError(d, q.with[j], rows) == EdgesError(d, q, rows, i)
    decreases |q.with| - i
  {
    if EdgeError(d, q.with[i], rows).Some? {
      return i;
    }
    j := FailingEdge(d, q, rows, i + 1);
  }

  /** The same for the load of one edge. */
  ghost predicate EdgeJustifies(d: Driver, w: With, rows: seq<Row>, e: Error) {
    match e
    case InvalidField(c) => ChosenInvalid(d.db, w.sub, c)
    case DriverFailed(s) => (rows != [] ==> EdgeMayAsk(d, w, rows, s)) && d.ask(s).None?
    case WrongSlot => JoinsOf(w.sub.preds) != [] || !Unloaded(w.sub)
    case _ => false
  }

  lemma {:induction false} EdgeJustified(d: Driver, w: With, rows: seq<Row>)
    requires ValidDatabase(d.db) && ValidWith(w) && EdgeError(d, w, rows).Some?
    ensures EdgeJustifies(d, w, rows, EdgeError(d, w, rows).value)
    decreases w
  {
    var q := EdgeQuery(w, rows);
    ErrorsAreJustified(d, q, w.sub);
    NarrowJoins(w, RowKeys(w.edge, rows));
    NarrowFields(d.db, w, RowKeys(w.edge, rows));
  }

  lemma LiftJustified(d: Driver, q: Query, tree: Query, i: nat, e: Error)
    requires q.with == tree.with && i < |tree.with| && RowsGot(d, q) != []
    requires EdgeJustifies(d, tree.with[i], RowsGot(d, q), e)
    ensures Justified(d, q, tree, e)
  {
  }

  lemma JoinsStep(preds: seq<Pred>, p: Pred)
    ensures JoinsOf(preds + [p]) == if p.JoinedTo? then JoinsOf(preds) + [p.accounts] else JoinsOf(preds)
  {
    assert (preds + [p])[..|preds|] == preds;
    assert JoinsOf(preds) + [] == JoinsOf(preds);
  }

  /** Only a many-to-many load adds a join. */
  lemma NarrowJoins(w: With, keys: seq<int>)
    ensures JoinsOf(Narrow(w, keys).preds) == if ShapeOf(w.edge).ManyToMany? then JoinsOf(w.sub.preds) + [keys]
      else JoinsOf(w.sub.preds)
  {
    match ShapeOf(w.edge)
    case ManyToMany => JoinsStep(w.sub.preds, JoinedTo(keys));
    case ManyToOne(_, _) => JoinsStep(w.sub.preds, ColumnIn(ID, keys));
    case OneToMany(fk, _) => JoinsStep(w.sub.preds, ColumnIn(fk, keys));
  }

  /** The key column that a one-to-many load adds is a column of the table. */
  lemma NarrowFields(db: Database, w: With, keys: seq<int>)
    requires ValidDatabase(db) && w.sub.table == Target(w.edge)
    ensures forall c :: c in Narrow(w, keys).fields && c !in db.columns(w.sub.table) ==> c in w.sub.fields
  {
    assert ValidEdge(db, w.edge);
  }

  /** A run on valid fields and fresh builders succeeds if the driver answers what it asks. */
  lemma RunSucceeds(d: Driver, q: Query)
    requires ValidDatabase(d.db) && ValidQuery(q) && JoinsOf(q.preds) == []
    requires FieldsValid(d.db, q) && Unloaded(q)
    requires forall s :: MayAsk(d, q, q, s) ==> d.ask(s).Some?
    ensures QueryError(d, q, q).None?
  {
    if QueryError(d, q, q).Some? {
      ErrorsAreJustified(d, q, q);
      var e := QueryError(d, q, q).value;
      assert e.InvalidField? ==> ChosenInvalid(d.db, q, e.field);
    }
  }

  // ---------------------------------------------------------------- builders left behind

  /** The builder q after a successful run: every load has restricted the builder of its edge for good, on
      every level that was reached. */
  function After(d: Driver, q: Query, tree: Query): Query
    requires q.with == tree.with
    decreases tree, |tree.with| + 1
  {
    if RowsGot(d, q) == [] then q else q.(with := AfterEdges(d, tree, RowsGot(d, q), |tree.with|))
  }

  function AfterEdges(d: Driver, q: Query, rows: seq<Row>, i: nat): (ws: seq<With>)
    requires i <= |q.with|
    ensures |ws| == i
    decreases q, i
  {
    if i == 0 then []
    else AfterEdges(d, q, rows, i - 1) + [With(q.with[i - 1].edge, AfterEdge(d, q.with[i - 1], rows))]
  }

  function AfterEdge(d: Driver, w: With, rows: seq<Row>): Query
    decreases w
  {
    if Skipped(w.edge, rows) then w.sub else After(d, EdgeQuery(w, rows), w.sub)
  }

  /** Only the edges of `tree` matter. */
  lemma {:induction false} SameError(d: Driver, tree: Query, tree': Query, rows: seq<Row>, i: nat)
    requires tree.with == tree'.with && i <= |tree.with|
    ensures EdgesError(d, tree, rows, i) == EdgesError(d, tree', rows, i)
    decreases |tree.with| - i
  {
    if i < |tree.with| {
      SameError(d, tree, tree', rows, i + 1);
    }
  }

  lemma {:induction false} SameAfter(d: Driver, tree: Query, tree': Query, rows: seq<Row>, i: nat)
    requires tree.with == tree'.with && i <= |tree.with|
    ensures AfterEdges(d, tree, rows, i) == AfterEdges(d, tree', rows, i)
    decreases i
  {
    if i > 0 {
      SameAfter(d, tree, tree', rows, i - 1);
    }
  }

  // ---------------------------------------------------------------- the rows are the naive join

  /** The rows are rows of the naive join; all of them, each as often as in the join, unless the edge's query
      is paged. */
  ghost predicate Joins(db: Database, w: With, row: Row, rows: seq<Row>) {
    && multiset(rows) <= multiset(NaiveJoin(db, w, row))
    && (!Paged(SpecOf(db, w.sub)) ==> multiset(rows) == multiset(NaiveJoin(db, w, row)))
  }

  /** Nodes with the given rows can be loaded for the edge, and the load reports no error. */
  ghost predicate Loadable(d: Driver, w: With, rows: seq<Row>) {
    && Honours(d) && ValidDatabase(d.db) && ValidWith(w)
    && (forall row :: row in rows ==> row in d.db.rows(Source(w.edge)))
    && EdgeError(d, w, rows).None?
  }

  /** Without a join the rows got are a page of the candidates. */
  lemma PlainRows(d: Driver, q: Query)
    requires Honours(d) && JoinsOf(q.preds) == [] && d.ask(SpecOf(d.db, q)).Some?
    ensures multiset(RowsGot(d, q)) <= multiset(Candidates(d.db, SpecOf(d.db, q)))
    ensures !Paged(SpecOf(d.db, q)) ==> multiset(RowsGot(d, q)) == multiset(Candidates(d.db, SpecOf(d.db, q)))
  {
    var spec := SpecOf(d.db, q);
    PlainAnswer(d.db, spec, d.ask(spec).value);
    if !Paged(spec) {
      SubsetOfSameSize(RowsGot(d, q), Candidates(d.db, spec));
    }
  }

  lemma CandidatesMatch(db: Database, s: Spec)
    ensures forall row :: row in Candidates(db, s) ==> row in db.rows(s.table) && SatisfiesAll(db, s.preds, row)
  {
    FirstOfEachSubset(MatchingRows(db, s), s.columns);
    MultisetMembers(Candidates(db, s), MatchingRows(db, s));
    forall row | row in Candidates(db, s) ensures row in db.rows(s.table) && SatisfiesAll(db, s.preds, row) {
      FilterMember(db.rows(s.table), Matching(db, s.preds), row);
    }
  }

  /** A load that is not skipped was answered, and not through more than one join unless nothing came. */
  lemma WasAnswered(d: Driver, w: With, rows: seq<Row>)
    requires EdgeError(d, w, rows).None? && !Skipped(w.edge, rows)
    ensures d.ask(SpecOf(d.db, EdgeQuery(w, rows))).Some?
    ensures |JoinsOf(EdgeQuery(w, rows).preds)| > 1 ==> HitsOf(d, SpecOf(d.db, EdgeQuery(w, rows))) == []
  {
  }

  lemma BelowError(d: Driver, w: With, rows: seq<Row>)
    requires EdgeError(d, w, rows).None? && Asked(d, w, rows) != []
    ensures EdgesError(d, w.sub, Asked(d, w, rows), 0).None?
  {
  }

  /** Every row that a load got is a row of the target table that satisfies the restricted query. */
  lemma AskedMatch(d: Driver, w: With, rows: seq<Row>)
    requires Loadable(d, w, rows)
    ensures forall x :: x in Asked(d, w, rows) ==>
      x in d.db.rows(Target(w.edge)) && SatisfiesAll(d.db, EdgeQuery(w, rows).preds, x)
  {
    if Skipped(w.edge, rows) {
      return;
    }
    var q := EdgeQuery(w, rows);
    var spec := SpecOf(d.db, q);
    WasAnswered(d, w, rows);
    if JoinsOf(q.preds) == [] {
      PlainRows(d, q);
      CandidatesMatch(d.db, spec);
      MultisetMembers(RowsGot(d, q), Candidates(d.db, spec));
      return;
    }
    JoinedAnswer(d.db, spec, HitsOf(d, spec));
    forall x | x in Asked(d, w, rows) ensures x in d.db.rows(Target(w.edge)) && SatisfiesAll(d.db, q.preds, x) {
      FirstSeenFrom(HitsOf(d, spec), x);
      FilterMember(d.db.rows(spec.table), Matching(d.db, spec.preds), x);
    }
  }

  lemma {:induction false} FirstSeenFrom(hits: seq<Hit>, row: Row)
    requires row in FirstSeen(hits)
    ensures exists h :: h in hits && h.row == row
  {
    var i := |hits| - 1;
    if row in FirstSeen(hits[..i]) {
      FirstSeenFrom(hits[..i], row);
      var h :| h in hits[..i] && h.row == row;
      assert h in hits;
    } else {
      assert hits[i] in hits;
    }
  }

  lemma {:induction false} KeysOfRowsAre(rows: seq<Row>, fk: Column)
    ensures Distinct(KeysOfRows(rows, fk))
    ensures forall k :: k in KeysOfRows(rows, fk) <==> exists row :: row in rows && Cell(row, fk) == Some(k)
  {
    if rows != [] {
      var i := |rows| - 1;
      KeysOfRowsAre(rows[..i], fk);
      assert rows == rows[..i] + [rows[i]];
    }
  }

  /** The filter that a to-one or one-to-many load adds. */
  function KeyColumn(e: Edge): Column {
    match ShapeOf(e)
    case OneToMany(fk, _) => fk
    case _ => ID
  }

  /** Every row of a to-one or one-to-many load has one of the keys asked for. */
  lemma AskedHasKey(d: Driver, w: With, rows: seq<Row>)
    requires Loadable(d, w, rows) && !ShapeOf(w.edge).ManyToMany?
    ensures forall x :: x in Asked(d, w, rows) ==>
      Cell(x, KeyColumn(w.edge)).Some? && Cell(x, KeyColumn(w.edge)).value in RowKeys(w.edge, rows)
  {
    AskedMatch(d, w, rows);
    forall x | x in Asked(d, w, rows)
      ensures Cell(x, KeyColumn(w.edge)).Some? && Cell(x, KeyColumn(w.edge)).value in RowKeys(w.edge, rows)
    {
      NarrowFilters(d.db, w, RowKeys(w.edge, rows), x);
    }
  }

  lemma NarrowFilters(db: Database, w: With, keys: seq<int>, row: Row)
    requires SatisfiesAll(db, Narrow(w, keys).preds, row) && !ShapeOf(w.edge).ManyToMany?
    ensures Cell(row, KeyColumn(w.edge)).Some? && Cell(row, KeyColumn(w.edge)).value in keys
  {
    assert Narrow(w, keys).preds[|w.sub.preds|] == ColumnIn(KeyColumn(w.edge), keys);
    assert Satisfies(db, ColumnIn(KeyColumn(w.edge), keys), row);
  }

  /** The test by which a load hands out its rows depends on selected columns only. */
  lemma BelongsRespects(d: Driver, w: With, rows: seq<Row>, row: Row, all: seq<Row>)
    requires ValidDatabase(d.db) && ValidWith(w) && !ShapeOf(w.edge).ManyToMany?
    requires forall x :: x in all ==> x in d.db.rows(Target(w.edge))
    ensures Respects(all, SubColumns(d.db, w), BelongsTo(d, w, rows, row))
  {
    var c := KeyColumn(w.edge);
    var columns := SubColumns(d.db, w);
    KeyColumnSelected(d.db, w);
    assert ValidTable(d.db, Target(w.edge)) && ValidEdge(d.db, w.edge);
    forall a, b | a in all && b in all && Project(a, columns) == Project(b, columns)
      ensures BelongsTo(d, w, rows, row)(a) == BelongsTo(d, w, rows, row)(b)
    {
      assert c in a.Keys && c in b.Keys;
      assert a[c] == Project(a, columns)[c] && b[c] == Project(b, columns)[c];
    }
  }

  /** The id, or the key column of a one-to-many edge, is among the columns that the edge's query selects. */
  lemma KeyColumnSelected(db: Database, w: With)
    requires ValidDatabase(db) && ValidWith(w) && (HasId(Target(w.edge)) || ShapeOf(w.edge).OneToMany?)
    ensures KeyColumn(w.edge) in SubColumns(db, w) && KeyColumn(w.edge) in db.columns(Target(w.edge))
  {
    assert ValidEdge(db, w.edge) && ValidTable(db, w.sub.table);
    SelectsKeys(db, w.sub, SubFields(w));
    if ShapeOf(w.edge).OneToMany? {
      assert w.sub.fields != [] ==> ShapeOf(w.edge).fk in SubFields(w);
      return;
    }
    assert db.columns(w.sub.table)[0] == ID;
  }

  /** The keys that the many-to-one edges read are among the columns. */
  ghost predicate KeysSelected(ws: seq<With>, columns: seq<Column>) {
    forall w :: w in ws && ShapeOf(w.edge).ManyToOne? ==> ShapeOf(w.edge).fk in columns
  }

  /** Whatever fields are chosen, the columns of a valid query hold the id and the keys of its edges. */
  lemma SelectsKeys(db: Database, q: Query, fields: seq<Column>)
    requires ValidDatabase(db) && ValidQuery(q)
    ensures var columns := Selected(db.columns(q.table), q.table, fields, q.with);
            && (HasId(q.table) ==> |columns| > 0 && columns[0] == ID && ID in columns)
            && KeysSelected(q.with, columns)
            && (forall c :: c in fields ==> c in columns)
  {
    KeysAreColumns(db, q);
    assert ValidTable(db, q.table);
    SelectedHas(db.columns(q.table), q.table, fields, q.with);
  }

  lemma KeysAreColumns(db: Database, q: Query)
    requires ValidDatabase(db) && ValidQuery(q)
    ensures forall w :: w in q.with && ShapeOf(w.edge).ManyToOne? ==> ShapeOf(w.edge).fk in db.columns(q.table)
  {
    forall w | w in q.with && ShapeOf(w.edge).ManyToOne? ensures ShapeOf(w.edge).fk in db.columns(q.table) {
      var i :| 0 <= i < |q.with| && q.with[i] == w;
      assert ValidEdge(db, w.edge);
    }
  }

  /** The rows that the load of an edge hands to a node are the naive join of the node's row. */
  lemma AskedIsJoin(d: Driver, w: With, rows: seq<Row>, row: Row)
    requires Loadable(d, w, rows) && row in rows
    ensures Joins(d.db, w, row, Filter(Asked(d, w, rows), BelongsTo(d, w, rows, row)))
  {
    if ShapeOf(w.edge).ManyToMany? {
      JoinedIsJoin(d, w, rows, row);
      return;
    }
    if ShapeOf(w.edge).ManyToOne? && Cell(row, ShapeOf(w.edge).fk).None? {
      NoKeyNoJoin(d, w, rows, row);
      return;
    }
    KeyAsked(d, w, rows, row);
    KeyedIsJoin(d, w, rows, row);
  }

  lemma NoKeyNoJoin(d: Driver, w: With, rows: seq<Row>, row: Row)
    requires ShapeOf(w.edge).ManyToOne? && Cell(row, ShapeOf(w.edge).fk).None?
    ensures Joins(d.db, w, row, Filter(Asked(d, w, rows), BelongsTo(d, w, rows, row)))
  {
    FilterNone(Asked(d, w, rows), BelongsTo(d, w, rows, row));
    FilterNone(d.db.rows(Target(w.edge)), Match(d.db, w, row));
  }

  lemma {:induction false} KeyOfRowListed(rows: seq<Row>, fk: Column, row: Row)
    requires row in rows && Cell(row, fk).Some?
    ensures Cell(row, fk).value in KeysOfRows(rows, fk)
  {
    var front, last := rows[..|rows| - 1], rows[|rows| - 1];
    assert rows == front + [last];
    if row in front {
      KeyOfRowListed(front, fk, row);
    }
  }

  /** The key of a row is among the keys asked for. */
  lemma KeyAsked(d: Driver, w: With, rows: seq<Row>, row: Row)
    requires row in rows && !ShapeOf(w.edge).ManyToMany?
    requires ShapeOf(w.edge).ManyToOne? ==> Cell(row, ShapeOf(w.edge).fk).Some?
    ensures !Skipped(w.edge, rows)
    ensures JoinKey(w.edge, row).Some? && JoinKey(w.edge, row).value in RowKeys(w.edge, rows)
  {
    if ShapeOf(w.edge).ManyToOne? {
      KeyOfRowListed(rows, ShapeOf(w.edge).fk, row);
      return;
    }
    var i :| 0 <= i < |rows| && rows[i] == row;
    assert RowKeys(w.edge, rows)[i] == IdOf(row);
  }

  /** The value by which a row is joined along the edge. */
  function JoinKey(e: Edge, row: Row): Option<int> {
    match ShapeOf(e)
    case ManyToOne(fk, _) => Cell(row, fk)
    case _ => Some(IdOf(row))
  }

  /** Of the candidates of the restricted query, those that belong to a row are its naive join. */
  lemma KeyedIsJoin(d: Driver, w: With, rows: seq<Row>, row: Row)
    requires Loadable(d, w, rows) && row in rows && !ShapeOf(w.edge).ManyToMany? && !Skipped(w.edge, rows)
    requires JoinKey(w.edge, row).Some? && JoinKey(w.edge, row).value in RowKeys(w.edge, rows)
    ensures Joins(d.db, w, row, Filter(Asked(d, w, rows), BelongsTo(d, w, rows, row)))
  {
    var q := EdgeQuery(w, rows);
    var spec := SpecOf(d.db, q);
    var f := BelongsTo(d, w, rows, row);
    WasAnswered(d, w, rows);
    NarrowJoins(w, RowKeys(w.edge, rows));
    PlainRows(d, q);
    CandidatesJoin(d, w, rows, row);
    FilteredSubset(RowsGot(d, q), Candidates(d.db, spec), f);
  }

  lemma FilteredSubset(a: seq<Row>, b: seq<Row>, f: Row -> bool)
    requires multiset(a) <= multiset(b)
    ensures multiset(Filter(a, f)) <= multiset(Filter(b, f))
    ensures multiset(a) == multiset(b) ==> multiset(Filter(a, f)) == multiset(Filter(b, f))
  {
    forall x
      ensures multiset(Filter(a, f))[x] <= multiset(Filter(b, f))[x]
      ensures multiset(a) == multiset(b) ==> multiset(Filter(a, f))[x] == multiset(Filter(b, f))[x]
    {
      FilterCount(a, f, x);
      FilterCount(b, f, x);
    }
  }

  lemma CandidatesJoin(d: Driver, w: With, rows: seq<Row>, row: Row)
    requires Loadable(d, w, rows) && row in rows && !ShapeOf(w.edge).ManyToMany?
    requires JoinKey(w.edge, row).Some? && JoinKey(w.edge, row).value in RowKeys(w.edge, rows)
    ensures Filter(Candidates(d.db, SpecOf(d.db, EdgeQuery(w, rows))), BelongsTo(d, w, rows, row))
      == NaiveJoin(d.db, w, row)
  {
    var spec := SpecOf(d.db, EdgeQuery(w, rows));
    var f := BelongsTo(d, w, rows, row);
    assert spec.columns == SubColumns(d.db, w);
    RelatedIsFiltered(d, w, rows, row);
    if spec.unique {
      forall x | x in MatchingRows(d.db, spec) ensures x in d.db.rows(Target(w.edge)) {
        FilterMember(d.db.rows(spec.table), Matching(d.db, spec.preds), x);
      }
      BelongsRespects(d, w, rows, row, MatchingRows(d.db, spec));
      FirstOfEachFilter(MatchingRows(d.db, spec), spec.columns, f);
    }
  }

  lemma RelatedIsFiltered(d: Driver, w: With, rows: seq<Row>, row: Row)
    requires Loadable(d, w, rows) && row in rows && !ShapeOf(w.edge).ManyToMany?
    requires JoinKey(w.edge, row).Some? && JoinKey(w.edge, row).value in RowKeys(w.edge, rows)
    ensures Filter(MatchingRows(d.db, SpecOf(d.db, EdgeQuery(w, rows))), BelongsTo(d, w, rows, row))
      == RelatedRows(d.db, w, row)
  {
    var preds := EdgeQuery(w, rows).preds;
    var table := d.db.rows(Target(w.edge));
    var f := BelongsTo(d, w, rows, row);
    var p := ColumnIn(KeyColumn(w.edge), RowKeys(w.edge, rows));
    assert preds == w.sub.preds + [p];
    assert ValidTable(d.db, Target(w.edge));
    forall x | x in table ensures (Matching(d.db, preds)(x) && f(x)) == Match(d.db, w, row)(x) {
      assert forall p' :: p' in preds <==> p' in w.sub.preds || p' == p;
      if f(x) {
        assert Satisfies(d.db, p, x);
      }
    }
    FilterTwice(table, Matching(d.db, preds), f, Match(d.db, w, row));
  }

  lemma {:induction false} FilterTwice(s: seq<Row>, p: Row -> bool, f: Row -> bool, both: Row -> bool)
    requires forall x :: x in s ==> (p(x) && f(x)) == both(x)
    ensures Filter(Filter(s, p), f) == Filter(s, both)
  {
    if s != [] {
      var front, x := s[..|s| - 1], s[|s| - 1];
      assert s == front + [x];
      FilterTwice(front, p, f, both);
      FilterLast(front, x, p);
      FilterLast(front, x, both);
      FilterLast(Filter(front, p), x, f);
    }
  }

  // ---------------------------------------------------------------- many-to-many

  ghost predicate UniqueIds(rows: seq<Row>) {
    forall i, j :: 0 <= i < j < |rows| ==> IdOf(rows[i]) != IdOf(rows[j])
  }

  lemma UniqueRowsDistinct(rows: seq<Row>)
    requires UniqueIds(rows)
    ensures Distinct(rows)
  {
  }

  lemma {:induction false} FilterUnique(rows: seq<Row>, f: Row -> bool)
    requires UniqueIds(rows)
    ensures UniqueIds(Filter(rows, f))
  {
    if rows != [] {
      var i := |rows| - 1;
      FilterUnique(rows[..i], f);
      var before := Filter(rows[..i], f);
      forall j | 0 <= j < |before| ensures IdOf(before[j]) != IdOf(rows[i]) {
        FilterMember(rows[..i], f, before[j]);
      }
    }
  }

  lemma {:induction false} FirstSeenUnique(hits: seq<Hit>)
    ensures UniqueIds(FirstSeen(hits))
  {
    if hits != [] {
      var i := |hits| - 1;
      FirstSeenUnique(hits[..i]);
      var before := FirstSeen(hits[..i]);
      if !SeenId(hits[..i], IdOf(hits[i].row)) {
        forall j | 0 <= j < |before| ensures IdOf(before[j]) != IdOf(hits[i].row) {
          FirstSeenFrom(hits[..i], before[j]);
        }
      }
    }
  }

  lemma FirstSeenStep(hits: seq<Hit>, i: nat)
    requires i < |hits|
    ensures FirstSeen(hits[..i + 1])
      == if SeenId(hits[..i], IdOf(hits[i].row)) then FirstSeen(hits[..i]) else FirstSeen(hits[..i]) + [hits[i].row]
  {
    assert hits[..i + 1][..i] == hits[..i];
    assert FirstSeen(hits[..i]) + [] == FirstSeen(hits[..i]);
  }

  predicate FirstWithId(hits: seq<Hit>, i: nat)
    requires i < |hits|
  {
    !SeenId(hits[..i], IdOf(hits[i].row))
  }

  /** The rows are those of the first of the n hits with their ids, in the order in which the ids first appear. */
  ghost predicate KeptAt(hits: seq<Hit>, n: nat, rows: seq<Row>, at: seq<nat>)
    requires n <= |hits|
  {
    && |at| == |rows| && (forall k :: 0 <= k < |at| ==> at[k] < n && rows[k] == hits[at[k]].row)
    && (forall j, k :: 0 <= j < k < |at| ==> at[j] < at[k])
    && (forall i :: 0 <= i < n ==> (i in at <==> FirstWithId(hits, i)))
  }

  lemma {:induction false} FirstSeenUpTo(hits: seq<Hit>, n: nat) returns (at: seq<nat>)
    requires n <= |hits|
    ensures KeptAt(hits, n, FirstSeen(hits[..n]), at)
  {
    if n == 0 {
      return [];
    }
    at := FirstSeenUpTo(hits, n - 1);
    FirstSeenStep(hits, n - 1);
    KeepOneMore(hits, n - 1, FirstSeen(hits[..n - 1]), at);
    if FirstWithId(hits, n - 1) {
      at := at + [n - 1];
    }
  }

  lemma KeepOneMore(hits: seq<Hit>, n: nat, rows: seq<Row>, at: seq<nat>)
    requires n < |hits| && KeptAt(hits, n, rows, at)
    ensures FirstWithId(hits, n) ==> KeptAt(hits, n + 1, rows + [hits[n].row], at + [n])
    ensures !FirstWithId(hits, n) ==> KeptAt(hits, n + 1, rows, at)
  {
  }

  /** The rows that the many-to-many callback keeps are those of the first hits with their ids, in the order in
      which the ids first appear. */
  lemma FirstSeenOrdered(hits: seq<Hit>) returns (at: seq<nat>)
    ensures KeptAt(hits, |hits|, FirstSeen(hits), at)
  {
    at := FirstSeenUpTo(hits, |hits|);
    assert hits[..|hits|] == hits;
  }

  lemma {:induction false} FirstSeenHasId(hits: seq<Hit>, id: int)
    requires SeenId(hits, id)
    ensures exists row :: row in FirstSeen(hits) && IdOf(row) == id
  {
    var i := |hits| - 1;
    assert hits == hits[..i] + [hits[i]];
    if SeenId(hits[..i], id) {
      FirstSeenHasId(hits[..i], id);
      var row :| row in FirstSeen(hits[..i]) && IdOf(row) == id;
      assert row in FirstSeen(hits);
    } else {
      assert hits[i].row in FirstSeen(hits);
    }
  }

  /** In a table with unique ids a row is determined by its id. */
  lemma SameIdSameRow(db: Database, t: Table, a: Row, b: Row)
    requires ValidDatabase(db) && HasId(t) && a in db.rows(t) && b in db.rows(t) && IdOf(a) == IdOf(b)
    ensures a == b
  {
    assert ValidTable(db, t);
  }

  /** A returned row is the first-seen row with its id. */
  lemma ReturnedIsSeen(db: Database, t: Table, hits: seq<Hit>, h: Hit)
    requires ValidDatabase(db) && HasId(t) && h in hits
    requires forall h' :: h' in hits ==> h'.row in db.rows(t)
    ensures h.row in FirstSeen(hits)
  {
    assert SeenId(hits, IdOf(h.row));
    FirstSeenHasId(hits, IdOf(h.row));
    var y :| y in FirstSeen(hits) && IdOf(y) == IdOf(h.row);
    FirstSeenFrom(hits, y);
    SameIdSameRow(db, t, h.row, y);
  }

  /** Two filters of sequences with unique ids, one inside the other. */
  lemma FilterInside(a: seq<Row>, f: Row -> bool, b: seq<Row>, g: Row -> bool)
    requires UniqueIds(a) && UniqueIds(b)
    requires forall x :: x in a && f(x) ==> x in b && g(x)
    ensures multiset(Filter(a, f)) <= multiset(Filter(b, g))
  {
    FilterUnique(a, f);
    FilterUnique(b, g);
    forall x | x in Filter(a, f) ensures x in Filter(b, g) {
      FilterMember(a, f, x);
      FilterMember(b, g, x);
    }
    DistinctSubset(Filter(a, f), Filter(b, g));
  }

  /** When the id is selected, DISTINCT changes nothing. */
  lemma IdSeparates(db: Database, w: With, row: Row)
    requires ValidDatabase(db) && ValidWith(w) && HasId(Target(w.edge))
    ensures NaiveJoin(db, w, row) == RelatedRows(db, w, row)
  {
    var rows := RelatedRows(db, w, row);
    var columns := SubColumns(db, w);
    assert ValidTable(db, Target(w.edge));
    SelectsKeys(db, w.sub, SubFields(w));
    FilterUnique(db.rows(Target(w.edge)), Match(db, w, row));
    forall i, j | 0 <= i < j < |rows| ensures Project(rows[i], columns) != Project(rows[j], columns) {
      SelectedId(db, w, row, i);
      SelectedId(db, w, row, j);
    }
    FirstOfEachIsAll(rows, columns);
  }

  /** The neighbours of a row along a many-to-many edge. */
  lemma NeighborJoins(db: Database, w: With, row: Row, x: Row)
    requires ValidDatabase(db) && ValidWith(w) && ShapeOf(w.edge).ManyToMany?
    ensures x in NaiveJoin(db, w, row) <==>
      x in db.rows(Target(w.edge)) && SatisfiesAll(db, w.sub.preds, x) && Linked(db, IdOf(row), IdOf(x))
  {
    IdSeparates(db, w, row);
    FilterMember(db.rows(Target(w.edge)), Match(db, w, row), x);
  }

  lemma SelectedId(db: Database, w: With, row: Row, i: nat)
    requires ValidDatabase(db) && ValidWith(w) && HasId(Target(w.edge)) && i < |RelatedRows(db, w, row)|
    ensures IdOf(Project(RelatedRows(db, w, row)[i], SubColumns(db, w))) == IdOf(RelatedRows(db, w, row)[i])
  {
    FilterMember(db.rows(Target(w.edge)), Match(db, w, row), RelatedRows(db, w, row)[i]);
    IdSelected(db, w, RelatedRows(db, w, row)[i]);
  }

  /** The id of a row of the target table can be read from the selected columns. */
  lemma IdSelected(db: Database, w: With, x: Row)
    requires ValidDatabase(db) && ValidWith(w) && HasId(Target(w.edge)) && x in db.rows(Target(w.edge))
    ensures IdOf(Project(x, SubColumns(db, w))) == IdOf(x)
  {
    assert ValidTable(db, Target(w.edge));
    SelectsKeys(db, w.sub, SubFields(w));
    assert ID in SubColumns(db, w) && ID in x;
  }

  /** A matching row of the target table, led by an account that was asked for and that it is linked to. */
  ghost predicate WantedHit(db: Database, w: With, ids: seq<int>, h: Hit) {
    && h.row in db.rows(Target(w.edge)) && SatisfiesAll(db, w.sub.preds, h.row)
    && h.Front() in ids && Linked(db, h.Front(), IdOf(h.row))
  }

  lemma NarrowKeeps(db: Database, w: With, keys: seq<int>, row: Row)
    requires SatisfiesAll(db, Narrow(w, keys).preds, row)
    ensures SatisfiesAll(db, w.sub.preds, row)
  {
    assert forall p :: p in w.sub.preds ==> p in Narrow(w, keys).preds;
  }

  /** What a many-to-many load got: joined rows of the target table, each led by an account asked for. */
  lemma JoinedHits(d: Driver, w: With, rows: seq<Row>)
    requires Loadable(d, w, rows) && ShapeOf(w.edge).ManyToMany?
    ensures var q := EdgeQuery(w, rows);
            var hits := HitsOf(d, SpecOf(d.db, q));
            && JoinsOf(q.preds) == JoinsOf(w.sub.preds) + [RowKeys(w.edge, rows)]
            && Answers(d.db, SpecOf(d.db, q), hits)
            && (hits != [] ==> JoinsOf(w.sub.preds) == [])
            && forall h :: h in hits ==> WantedHit(d.db, w, RowKeys(w.edge, rows), h)
  {
    WasAnswered(d, w, rows);
    NarrowJoins(w, RowKeys(w.edge, rows));
    forall h | h in HitsOf(d, SpecOf(d.db, EdgeQuery(w, rows))) ensures WantedHit(d.db, w, RowKeys(w.edge, rows), h) {
      AnswerWanted(d.db, w, RowKeys(w.edge, rows), HitsOf(d, SpecOf(d.db, EdgeQuery(w, rows))), h);
    }
  }

  lemma AnswerWanted(db: Database, w: With, ids: seq<int>, hits: seq<Hit>, h: Hit)
    requires ValidWith(w) && ShapeOf(w.edge).ManyToMany? && Answers(db, SpecOf(db, Narrow(w, ids)), hits) && h in hits
    ensures WantedHit(db, w, ids, h)
  {
    var preds := Narrow(w, ids).preds;
    NarrowJoins(w, ids);
    JoinedAnswer(db, SpecOf(db, Narrow(w, ids)), hits);
    FilterMember(db.rows(Target(w.edge)), Matching(db, preds), h.row);
    NarrowKeeps(db, w, ids, h.row);
    FrontJoined(db, JoinsOf(w.sub.preds), ids, h);
  }

  lemma FrontJoined(db: Database, joins: seq<seq<int>>, ids: seq<int>, h: Hit)
    requires JoinedWith(db, joins + [ids], h)
    ensures h.Front() in ids && Linked(db, h.Front(), IdOf(h.row))
  {
    assert (joins + [ids])[|joins|] == ids && h.outs[|joins|] == h.Front();
  }

  /** A first-seen row that was returned for an account is a row of its naive join. */
  lemma JoinedSound(db: Database, w: With, ids: seq<int>, hits: seq<Hit>, row: Row, x: Row)
    requires ValidDatabase(db) && ValidWith(w) && ShapeOf(w.edge).ManyToMany?
    requires forall h :: h in hits ==> WantedHit(db, w, ids, h)
    requires x in FirstSeen(hits) && ReturnedFor(hits, IdOf(row))(x)
    ensures x in db.rows(Target(w.edge)) && Match(db, w, row)(x)
  {
    FirstSeenFrom(hits, x);
    var h :| h in hits && h.Front() == IdOf(row) && IdOf(h.row) == IdOf(x);
    var h' :| h' in hits && h'.row == x;
    assert WantedHit(db, w, ids, h) && WantedHit(db, w, ids, h');
    SameIdSameRow(db, Target(w.edge), h.row, x);
  }

  /** A row that satisfies the joins can be returned with accounts that it is linked to. */
  lemma {:induction false} PickOuts(db: Database, preds: seq<Pred>, x: Row) returns (outs: seq<int>)
    requires SatisfiesAll(db, preds, x)
    ensures JoinedWith(db, JoinsOf(preds), Hit(outs, x))
  {
    if preds == [] {
      return [];
    }
    var front, p := preds[..|preds| - 1], preds[|preds| - 1];
    outs := PickOuts(db, front, x);
    if p.JoinedTo? {
      assert Satisfies(db, p, x);
      var a :| a in p.accounts && Linked(db, a, IdOf(x));
      outs := outs + [a];
    }
  }

  /** In a complete answer every row of the naive join of an account asked for is returned for it. */
  lemma PairReturned(db: Database, w: With, ids: seq<int>, hits: seq<Hit>, account: int, x: Row) returns (h: Hit)
    requires ValidWith(w) && ShapeOf(w.edge).ManyToMany? && account in ids
    requires IsJoined(db, SpecOf(db, Narrow(w, ids)), hits)
    requires x in db.rows(Target(w.edge)) && SatisfiesAll(db, w.sub.preds, x) && Linked(db, account, IdOf(x))
    ensures h in hits && h.row == x && h.Front() == account
  {
    var preds := Narrow(w, ids).preds;
    var outs := PickOuts(db, w.sub.preds, x);
    h := Hit(outs + [account], x);
    NarrowJoins(w, ids);
    OneMoreJoin(db, JoinsOf(w.sub.preds), ids, outs, account, x);
    NarrowAdmits(db, w, ids, x, account);
    FilterMember(db.rows(Target(w.edge)), Matching(db, preds), x);
  }

  lemma OneMoreJoin(db: Database, joins: seq<seq<int>>, ids: seq<int>, outs: seq<int>, account: int, x: Row)
    requires JoinedWith(db, joins, Hit(outs, x)) && account in ids && Linked(db, account, IdOf(x))
    ensures JoinedWith(db, joins + [ids], Hit(outs + [account], x))
  {
  }

  lemma JoinedComplete(db: Database, w: With, ids: seq<int>, hits: seq<Hit>, row: Row, x: Row)
    requires ValidDatabase(db) && ValidWith(w) && ShapeOf(w.edge).ManyToMany? && IdOf(row) in ids
    requires IsJoined(db, SpecOf(db, Narrow(w, ids)), hits)
    requires forall h :: h in hits ==> h.row in db.rows(Target(w.edge))
    requires x in db.rows(Target(w.edge)) && Match(db, w, row)(x)
    ensures x in FirstSeen(hits) && ReturnedFor(hits, IdOf(row))(x)
  {
    var h := PairReturned(db, w, ids, hits, IdOf(row), x);
    ReturnedIsSeen(db, Target(w.edge), hits, h);
  }

  lemma NarrowAdmits(db: Database, w: With, ids: seq<int>, x: Row, account: int)
    requires ShapeOf(w.edge).ManyToMany? && SatisfiesAll(db, w.sub.preds, x) && account in ids
      && Linked(db, account, IdOf(x))
    ensures SatisfiesAll(db, Narrow(w, ids).preds, x)
  {
    assert Satisfies(db, JoinedTo(ids), x);
  }

  /** The first-seen rows that were returned for an account are its naive join. */
  lemma JoinedIsJoin(d: Driver, w: With, rows: seq<Row>, row: Row)
    requires Loadable(d, w, rows) && row in rows && ShapeOf(w.edge).ManyToMany?
    ensures Joins(d.db, w, row, Filter(Asked(d, w, rows), BelongsTo(d, w, rows, row)))
  {
    var ids := RowKeys(w.edge, rows);
    var hits := HitsOf(d, SpecOf(d.db, EdgeQuery(w, rows)));
    JoinedHits(d, w, rows);
    assert Asked(d, w, rows) == FirstSeen(hits);
    var i :| 0 <= i < |rows| && rows[i] == row;
    assert ids[i] == IdOf(row);
    FirstSeenJoins(d.db, w, ids, hits, row);
  }

  lemma FirstSeenJoins(db: Database, w: With, ids: seq<int>, hits: seq<Hit>, row: Row)
    requires ValidDatabase(db) && ValidWith(w) && ShapeOf(w.edge).ManyToMany? && IdOf(row) in ids
    requires Answers(db, SpecOf(db, Narrow(w, ids)), hits)
    requires forall h :: h in hits ==> WantedHit(db, w, ids, h)
    ensures Joins(db, w, row, Filter(FirstSeen(hits), ReturnedFor(hits, IdOf(row))))
  {
    var table := db.rows(Target(w.edge));
    assert ValidTable(db, Target(w.edge));
    FirstSeenUnique(hits);
    IdSeparates(db, w, row);
    forall x | x in FirstSeen(hits) && ReturnedFor(hits, IdOf(row))(x) ensures x in table && Match(db, w, row)(x) {
      JoinedSound(db, w, ids, hits, row, x);
    }
    FilterInside(FirstSeen(hits), ReturnedFor(hits, IdOf(row)), table, Match(db, w, row));
    if !Paged(SpecOf(db, w.sub)) {
      NarrowJoins(w, ids);
      JoinedAnswer(db, SpecOf(db, Narrow(w, ids)), hits);
      JoinCovered(db, w, ids, hits, row);
    }
  }

  /** In a complete answer they are all of it. */
  lemma JoinCovered(db: Database, w: With, ids: seq<int>, hits: seq<Hit>, row: Row)
    requires ValidDatabase(db) && ValidWith(w) && ShapeOf(w.edge).ManyToMany? && IdOf(row) in ids
    requires IsJoined(db, SpecOf(db, Narrow(w, ids)), hits)
    requires forall h :: h in hits ==> WantedHit(db, w, ids, h)
    ensures multiset(NaiveJoin(db, w, row)) <= multiset(Filter(FirstSeen(hits), ReturnedFor(hits, IdOf(row))))
  {
    var table := db.rows(Target(w.edge));
    assert ValidTable(db, Target(w.edge));
    FirstSeenUnique(hits);
    IdSeparates(db, w, row);
    assert forall h :: h in hits ==> WantedHit(db, w, ids, h);
    forall x | x in table && Match(db, w, row)(x) ensures x in FirstSeen(hits) && ReturnedFor(hits, IdOf(row))(x) {
      JoinedComplete(db, w, ids, hits, row, x);
    }
    FilterInside(table, Match(db, w, row), FirstSeen(hits), ReturnedFor(hits, IdOf(row)));
  }

  // ---------------------------------------------------------------- many-to-one

  lemma {:induction false} FilterAtMostOne(rows: seq<Row>, f: Row -> bool, k: int)
    requires UniqueIds(rows)
    requires forall r :: r in rows && f(r) ==> IdOf(r) == k
    ensures |Filter(rows, f)| <= 1
  {
    if rows != [] {
      var i := |rows| - 1;
      FilterAtMostOne(rows[..i], f, k);
      assert rows == rows[..i] + [rows[i]];
      if f(rows[i]) {
        FilterNone(rows[..i], f);
      }
    }
  }

  /** At most one returned row has the key of a node. */
  lemma ToOneIsSingle(d: Driver, w: With, rows: seq<Row>, row: Row)
    requires Loadable(d, w, rows) && row in rows && ShapeOf(w.edge).ManyToOne?
    ensures |Filter(Asked(d, w, rows), BelongsTo(d, w, rows, row))| <= 1
  {
    var key := Cell(row, ShapeOf(w.edge).fk);
    if key.None? {
      FilterNone(Asked(d, w, rows), BelongsTo(d, w, rows, row));
      return;
    }
    AskedIsJoin(d, w, rows, row);
    JoinsSingle(d.db, w, row, key.value, Filter(Asked(d, w, rows), BelongsTo(d, w, rows, row)));
  }

  lemma JoinsSingle(db: Database, w: With, row: Row, k: int, got: seq<Row>)
    requires ValidDatabase(db) && ValidWith(w) && ShapeOf(w.edge).ManyToOne? && Cell(row, ShapeOf(w.edge).fk) == Some(k)
    requires Joins(db, w, row, got)
    ensures |got| <= 1
  {
    assert HasId(Target(w.edge)) && ValidTable(db, Target(w.edge));
    IdSeparates(db, w, row);
    FilterAtMostOne(db.rows(Target(w.edge)), Match(db, w, row), k);
    SubsetSize(got, NaiveJoin(db, w, row));
  }
}
