/** Tables, queries and the answers a driver may give; the naive join that eager loading has to agree
    with; and the columns that a query selects. */
module Relational {
  import opened Wrappers
  import opened Schema
  import opened Sequences

  /** The cells of a row; None is NULL. Other cells are numbers without meaning. */
  type Row = map<Column, Option<int>>

  /** The rows and columns of every table, and the meaning of the predicates and orders that callers add: an order puts
      rows of lower rank first. */
  datatype Database = Database(
    rows: Table -> seq<Row>,
    columns: Table -> seq<Column>,
    holds: (nat, Row) -> bool,
    rank: (nat, Row) -> int)

  /** A predicate added by the caller, the `IN` filter of a to-one or one-to-many load, or the join with
      account_groups that a many-to-many load adds. */
  datatype Pred = Holds(tag: nat) | ColumnIn(c: Column, keys: seq<int>) | JoinedTo(accounts: seq<int>)

  /** A query builder: what to select, and the edges to load with it. */
  datatype Query = Query(
    table: Table,
    fields: seq<Column>,
    preds: seq<Pred>,
    order: seq<nat>,
    limit: Option<nat>,
    offset: Option<nat>,
    unique: Option<bool>,
    with: seq<With>)

  datatype With = With(edge: Edge, sub: Query)

  /** What reaches the driver. A limit or offset of 0 is the same as none: both are plain fields that are
      left alone when the builder has no value. */
  datatype Spec = Spec(table: Table, columns: seq<Column>, preds: seq<Pred>, order: seq<nat>, limit: nat, offset: nat,
      unique: bool)

  /** A row of the answer. Every join puts the account id in front of the columns selected before it, so the
      last of `outs` comes first in the row. */
  datatype Hit = Hit(outs: seq<int>, row: Row) {
    function Front(): int {
      if outs == [] then 0 else outs[|outs| - 1]
    }
  }

  /** The database and its answers; None is a driver error. */
  datatype Driver = Driver(db: Database, ask: Spec -> Option<seq<Hit>>)

  // ---------------------------------------------------------------- rows

  function Cell(row: Row, c: Column): Option<int> {
    if c in row then row[c] else None
  }

  /** A required column that is NULL or not selected reads as the zero value. */
  function Key(row: Row, c: Column, nullable: bool): Option<int> {
    match Cell(row, c)
    case Some(k) => Some(k)
    case None => if nullable then None else Some(0)
  }

  function IdOf(row: Row): int {
    Key(row, ID, false).value
  }

  function Project(row: Row, columns: seq<Column>): Row {
    map c | c in columns && c in row :: row[c]
  }

  predicate Satisfies(db: Database, p: Pred, row: Row) {
    match p
    case Holds(tag) => db.holds(tag, row)
    case ColumnIn(c, keys) => Cell(row, c).Some? && Cell(row, c).value in keys
    case JoinedTo(accounts) => exists a :: a in accounts && Linked(db, a, IdOf(row))
  }

  predicate SatisfiesAll(db: Database, preds: seq<Pred>, row: Row) {
    forall p :: p in preds ==> Satisfies(db, p, row)
  }

  function Matching(db: Database, preds: seq<Pred>): Row -> bool {
    (row: Row) => SatisfiesAll(db, preds, row)
  }

  /** account_groups holds the pair. */
  predicate Linked(db: Database, account: int, group: int) {
    exists link :: link in db.rows(AccountGroup) && Cell(link, AccountID) == Some(account)
      && Cell(link, GroupID) == Some(group)
  }

  /** The rows have the table's columns, ids are there and unique, required keys are not NULL. */
  ghost predicate ValidTable(db: Database, t: Table) {
    && (forall row :: row in db.rows(t) ==> row.Keys == set c | c in db.columns(t))
    && (HasId(t) ==>
      && |db.columns(t)| > 0 && db.columns(t)[0] == ID
      && (forall row: Row :: row in db.rows(t) ==> Cell(row, ID).Some?)
      && (forall i, j :: 0 <= i < j < |db.rows(t)| ==> IdOf(db.rows(t)[i]) != IdOf(db.rows(t)[j])))
  }

  ghost predicate ValidKey(db: Database, t: Table, fk: Column, nullable: bool) {
    && fk in db.columns(t)
    && (!nullable ==> forall row :: row in db.rows(t) ==> Cell(row, fk).Some?)
  }

  ghost predicate ValidDatabase(db: Database) {
    && (forall t: Table :: ValidTable(db, t))
    && (forall e: Edge :: ValidEdge(db, e))
  }

  ghost predicate ValidEdge(db: Database, e: Edge) {
    match ShapeOf(e)
    case ManyToMany => true
    case ManyToOne(fk, nullable) => ValidKey(db, Source(e), fk, nullable)
    case OneToMany(fk, nullable) => ValidKey(db, Target(e), fk, nullable)
  }

  // ---------------------------------------------------------------- column selection

  /** `AddColumnOnce` and `AppendFieldOnce`. */
  function AddOnce(columns: seq<Column>, c: Column): seq<Column> {
    if c in columns then columns else columns + [c]
  }

  function IsNot(c: Column): Column -> bool {
    x => x != c
  }

  /** The key columns that the many-to-one edges of a query need. */
  function AddKeys(columns: seq<Column>, ws: seq<With>): seq<Column>
    decreases |ws|
  {
    if ws == [] then columns
    else
      var before := AddKeys(columns, ws[..|ws| - 1]);
      match ShapeOf(ws[|ws| - 1].edge)
      case ManyToOne(fk, _) => AddOnce(before, fk)
      case _ => before
  }

  /** The columns that `querySpec` selects: all of the table when no field is chosen; otherwise the id,
      the chosen fields other than the id, and the keys that the many-to-one edges need. */
  function Selected(all: seq<Column>, t: Table, fields: seq<Column>, ws: seq<With>): seq<Column> {
    if fields == [] then all
    else AddKeys(Base(t, fields), ws)
  }

  /** The id, where there is one, and the other chosen fields. */
  function Base(t: Table, fields: seq<Column>): seq<Column> {
    if HasId(t) then [ID] + Filter(fields, IsNot(ID)) else fields
  }

  method QuerySpecColumns(all: seq<Column>, q: Query) returns (columns: seq<Column>)
    ensures columns == Selected(all, q.table, q.fields, q.with)
  {
    columns := all;
    if |q.fields| > 0 {
      columns := ChosenColumns(q.table, q.fields);
      columns := KeyColumns(columns, q.with);
    }
  }

  method ChosenColumns(t: Table, fields: seq<Column>) returns (columns: seq<Column>)
    ensures columns == Base(t, fields)
  {
    columns := [];
    if HasId(t) {
      columns := columns + [ID];
      for i := 0 to |fields|
        invariant columns == [ID] + Filter(fields[..i], IsNot(ID))
      {
        FilterStep(fields, i, IsNot(ID));
        if fields[i] != ID {
          columns := columns + [fields[i]];
        }
      }
    } else {
      for i := 0 to |fields|
        invariant columns == fields[..i]
      {
        columns := columns + [fields[i]];
      }
    }
    assert fields[..|fields|] == fields;
  }

  method KeyColumns(chosen: seq<Column>, ws: seq<With>) returns (columns: seq<Column>)
    ensures columns == AddKeys(chosen, ws)
  {
    columns := chosen;
    for i := 0 to |ws|
      invariant columns == AddKeys(chosen, ws[..i])
    {
      assert ws[..i + 1][..i] == ws[..i];
      match ShapeOf(ws[i].edge) {
        case ManyToOne(fk, _) =>
          if fk !in columns {
            columns := columns + [fk];
          }
        case _ =>
      }
    }
    assert ws[..|ws|] == ws;
  }

  /** Some many-to-one edge of the list reads the column. */
  predicate NeededKey(ws: seq<With>, c: Column) {
    exists w :: w in ws && ShapeOf(w.edge).ManyToOne? && ShapeOf(w.edge).fk == c
  }

  lemma {:induction false} AddKeysHas(columns: seq<Column>, ws: seq<With>)
    ensures columns <= AddKeys(columns, ws)
    ensures forall c :: c in AddKeys(columns, ws) && c !in columns ==> NeededKey(ws, c)
    ensures forall w :: w in ws && ShapeOf(w.edge).ManyToOne? ==> ShapeOf(w.edge).fk in AddKeys(columns, ws)
    ensures multiset(AddKeys(columns, ws))[ID] == multiset(columns)[ID]
    decreases |ws|
  {
    if ws != [] {
      var n := |ws| - 1;
      AddKeysHas(columns, ws[..n]);
      assert ws == ws[..n] + [ws[n]];
    }
  }

  /** Whatever fields are chosen, the id is selected first and, when fields are chosen, exactly once; every
      chosen field and every key that a many-to-one edge reads is selected, and nothing else is. */
  lemma SelectedHas(all: seq<Column>, t: Table, fields: seq<Column>, ws: seq<With>)
    requires HasId(t) ==> |all| > 0 && all[0] == ID
    requires forall w :: w in ws && ShapeOf(w.edge).ManyToOne? ==> ShapeOf(w.edge).fk in all
    ensures var columns := Selected(all, t, fields, ws);
            && (HasId(t) ==> |columns| > 0 && columns[0] == ID)
            && (HasId(t) && fields != [] ==> multiset(columns)[ID] == 1)
            && (forall w :: w in ws && ShapeOf(w.edge).ManyToOne? ==> ShapeOf(w.edge).fk in columns)
            && (forall c :: c in fields ==> c in columns)
            && (fields != [] ==> forall c :: c in columns ==> (HasId(t) && c == ID) || c in fields || NeededKey(ws, c))
  {
    if fields == [] {
      return;
    }
    var base := Base(t, fields);
    BaseHas(t, fields);
    AddKeysHas(base, ws);
    assert forall c :: c in base ==> c in AddKeys(base, ws);
  }

  lemma BaseHas(t: Table, fields: seq<Column>)
    ensures HasId(t) ==> |Base(t, fields)| > 0 && Base(t, fields)[0] == ID && multiset(Base(t, fields))[ID] == 1
    ensures forall c :: c in Base(t, fields) <==> (HasId(t) && c == ID) || c in fields
  {
    FilterMembers(fields, IsNot(ID));
    FilterCount(fields, IsNot(ID), ID);
  }

  // ---------------------------------------------------------------- what a query asks

  /** A one-to-many load adds its key column to chosen fields. */
  function SubFields(w: With): seq<Column> {
    match ShapeOf(w.edge)
    case OneToMany(fk, _) => if w.sub.fields == [] then [] else AddOnce(w.sub.fields, fk)
    case _ => w.sub.fields
  }

  /** The builder of the edge after a load has restricted it to the keys, which it does for good. */
  function Narrow(w: With, keys: seq<int>): (q: Query)
    ensures q.with == w.sub.with && q.table == w.sub.table
  {
    match ShapeOf(w.edge)
    case ManyToMany => w.sub.(preds := w.sub.preds + [JoinedTo(keys)])
    case ManyToOne(_, _) => w.sub.(preds := w.sub.preds + [ColumnIn(ID, keys)])
    case OneToMany(fk, _) => w.sub.(fields := SubFields(w), preds := w.sub.preds + [ColumnIn(fk, keys)])
  }

  function SelectedBy(db: Database, q: Query): seq<Column> {
    Selected(db.columns(q.table), q.table, q.fields, q.with)
  }

  function SubColumns(db: Database, w: With): seq<Column> {
    Selected(db.columns(w.sub.table), w.sub.table, SubFields(w), w.sub.with)
  }

  function Or(o: Option<nat>, zero: nat): nat {
    if o.Some? then o.value else zero
  }

  /** `querySpec`. */
  function SpecOf(db: Database, q: Query): Spec {
    Spec(q.table, SelectedBy(db, q), q.preds, q.order, Or(q.limit, 0), Or(q.offset, 0), q.unique == Some(true))
  }

  // ---------------------------------------------------------------- answers

  /** The account ids of the joins, in the order in which they were added. */
  function JoinsOf(preds: seq<Pred>): seq<seq<int>> {
    if preds == [] then []
    else JoinsOf(preds[..|preds| - 1]) + if preds[|preds| - 1].JoinedTo? then [preds[|preds| - 1].accounts] else []
  }

  function MatchingRows(db: Database, s: Spec): seq<Row> {
    Filter(db.rows(s.table), Matching(db, s.preds))
  }

  /** `SELECT DISTINCT`: of the rows that agree on the columns, the first. */
  function FirstOfEach(rows: seq<Row>, columns: seq<Column>): seq<Row> {
    if rows == [] then []
    else
      var front, row := rows[..|rows| - 1], rows[|rows| - 1];
      FirstOfEach(front, columns) + if Agrees(front, row, columns) then [] else [row]
  }

  /** Some row of the list agrees with the row on the columns. */
  predicate Agrees(rows: seq<Row>, row: Row, columns: seq<Column>) {
    exists other :: other in rows && Project(other, columns) == Project(row, columns)
  }

  /** No two of the rows agree on the columns. */
  ghost predicate Separated(rows: seq<Row>, columns: seq<Column>) {
    forall i, j :: 0 <= i < j < |rows| ==> Project(rows[i], columns) != Project(rows[j], columns)
  }

  function Candidates(db: Database, s: Spec): seq<Row> {
    if s.unique then FirstOfEach(MatchingRows(db, s), s.columns) else MatchingRows(db, s)
  }

  predicate Paged(s: Spec) {
    s.limit != 0 || s.offset != 0
  }

  function PageSize(n: nat, limit: nat, offset: nat): nat {
    var rest := if offset <= n then n - offset else 0;
    if limit != 0 && limit < rest then limit else rest
  }

  function RowsOf(hits: seq<Hit>): (rows: seq<Row>)
    ensures |rows| == |hits| && forall i :: 0 <= i < |hits| ==> rows[i] == hits[i].row
  {
    seq(|hits|, i requires 0 <= i < |hits| => hits[i].row)
  }

  /** The row is joined, once for each join, with a wanted account that it is linked to. */
  predicate JoinedWith(db: Database, joins: seq<seq<int>>, h: Hit) {
    && |h.outs| == |joins|
    && forall i :: 0 <= i < |joins| ==> h.outs[i] in joins[i] && Linked(db, h.outs[i], IdOf(h.row))
  }

  /** The first row may come before the second: the first order that tells them apart decides. */
  predicate Ahead(db: Database, order: seq<nat>, a: Row, b: Row) {
    order == []
    || db.rank(order[0], a) < db.rank(order[0], b)
    || (db.rank(order[0], a) == db.rank(order[0], b) && Ahead(db, order[1..], a, b))
  }

  ghost predicate InOrder(db: Database, order: seq<nat>, rows: seq<Row>) {
    forall i, j :: 0 <= i < j < |rows| ==> Ahead(db, order, rows[i], rows[j])
  }

  /** LIMIT and OFFSET. */
  function Window<T>(all: seq<T>, limit: nat, offset: nat): seq<T> {
    var rest := if offset <= |all| then all[offset..] else [];
    if limit != 0 && limit < |rest| then rest[..limit] else rest
  }

  /** The list has a page's size and takes its elements from the whole. */
  ghost predicate IsPage<T>(page: seq<T>, all: seq<T>, s: Spec) {
    |page| == PageSize(|all|, s.limit, s.offset) && multiset(page) <= multiset(all)
  }

  /** All rows of a joined query: the matching rows with every choice of wanted accounts that they are linked to, in
      any order and with any repetitions. */
  ghost predicate IsJoined(db: Database, s: Spec, all: seq<Hit>) {
    forall h :: h in all <==> h.row in MatchingRows(db, s) && JoinedWith(db, JoinsOf(s.preds), h)
  }

  /** What a driver may answer. Without a join: a page of the matching rows, sorted as the query asks; with
      DISTINCT, one row stands for all that agree on the selected columns. With joins: a page of the joined rows,
      sorted so. */
  ghost predicate Answers(db: Database, s: Spec, hits: seq<Hit>) {
    if JoinsOf(s.preds) == [] then
      exists all :: Sorted(db, s, all) && RowsOf(hits) == Window(all, s.limit, s.offset)
    else
      exists all :: IsJoined(db, s, all) && InOrder(db, s.order, RowsOf(all)) && hits == Window(all, s.limit, s.offset)
  }

  ghost predicate Sorted(db: Database, s: Spec, all: seq<Row>) {
    multiset(all) == multiset(Candidates(db, s)) && InOrder(db, s.order, all)
  }

  lemma WindowIsPage<T>(all: seq<T>, s: Spec)
    ensures IsPage(Window(all, s.limit, s.offset), all, s)
  {
    var rest := if s.offset <= |all| then all[s.offset..] else [];
    var page := Window(all, s.limit, s.offset);
    assert s.offset <= |all| ==> all == all[..s.offset] + rest;
    assert rest == page + rest[|page|..];
  }

  /** A plain answer is a page of the candidates. */
  lemma PlainAnswer(db: Database, s: Spec, hits: seq<Hit>)
    requires JoinsOf(s.preds) == [] && Answers(db, s, hits)
    ensures IsPage(RowsOf(hits), Candidates(db, s), s)
  {
    var all :| Sorted(db, s, all) && RowsOf(hits) == Window(all, s.limit, s.offset);
    WindowIsPage(all, s);
    SameMultisetSize(all, Candidates(db, s));
  }

  lemma SameMultisetSize<T>(a: seq<T>, b: seq<T>)
    requires multiset(a) == multiset(b)
    ensures |a| == |b|
  {
    assert |multiset(a)| == |a| && |multiset(b)| == |b|;
  }

  /** What a joined answer holds. */
  lemma JoinedAnswer(db: Database, s: Spec, hits: seq<Hit>)
    requires JoinsOf(s.preds) != [] && Answers(db, s, hits)
    ensures forall h :: h in hits ==> h.row in MatchingRows(db, s) && JoinedWith(db, JoinsOf(s.preds), h)
    ensures !Paged(s) ==> IsJoined(db, s, hits)
  {
    var all :| IsJoined(db, s, all) && hits == Window(all, s.limit, s.offset);
    WindowIsPage(all, s);
    MultisetMembers(hits, all);
    if !Paged(s) {
      SubsetOfSameSize(hits, all);
      MultisetMembers(all, hits);
    }
  }

  ghost predicate Honours(d: Driver) {
    forall s: Spec {:trigger Answers(d.db, s, d.ask(s).value)} :: d.ask(s).Some? ==> Answers(d.db, s, d.ask(s).value)
  }

  // ---------------------------------------------------------------- the naive join

  /** Two rows belong together under the edge. */
  predicate Related(db: Database, e: Edge, row: Row, other: Row) {
    match ShapeOf(e)
    case ManyToMany => Linked(db, IdOf(row), IdOf(other))
    case ManyToOne(fk, _) => Cell(row, fk) == Some(IdOf(other))
    case OneToMany(fk, _) => Cell(other, fk) == Some(IdOf(row))
  }

  function Match(db: Database, w: With, row: Row): Row -> bool {
    (other: Row) => SatisfiesAll(db, w.sub.preds, other) && Related(db, w.edge, row, other)
  }

  /** The rows of the target table that satisfy the caller's predicates and belong to the row. */
  function RelatedRows(db: Database, w: With, row: Row): seq<Row> {
    Filter(db.rows(Target(w.edge)), Match(db, w, row))
  }

  /** The join for one node on its own; without duplicates if the edge's query asks for that. */
  function NaiveJoin(db: Database, w: With, row: Row): seq<Row> {
    if w.sub.unique == Some(true) then FirstOfEach(RelatedRows(db, w, row), SubColumns(db, w))
      else RelatedRows(db, w, row)
  }

  // ---------------------------------------------------------------- what a builder asks for

  /** Of all rows, those after the offset and up to the limit of a builder; a limit of 0 is no limit. */
  ghost predicate PageOf<T>(all: seq<T>, limit: Option<nat>, offset: Option<nat>, page: seq<T>) {
    var from := if offset.Some? && offset.value <= |all| then offset.value else if offset.Some? then |all| else 0;
    if limit == None || limit == Some(0) || from + limit.value >= |all| then page == all[from..]
    else page == all[from..from + limit.value]
  }

  function MeetsAll(db: Database, preds: seq<Pred>): Row -> bool {
    (row: Row) => forall p :: p in preds ==> Satisfies(db, p, row)
  }

  /** The rows that a builder selects: those that satisfy its predicates, without duplicates if it asks for that. */
  function WantedRows(db: Database, q: Query): seq<Row> {
    var rows := Filter(db.rows(q.table), MeetsAll(db, q.preds));
    if q.unique == Some(true) then FirstOfEach(rows, SelectedBy(db, q)) else rows
  }

  /** The rows are those that the builder selects, sorted by its orders, from its offset on and up to its limit. */
  ghost predicate Returns(db: Database, q: Query, rows: seq<Row>) {
    exists all ::
      && multiset(all) == multiset(WantedRows(db, q))
      && InOrder(db, q.order, all)
      && PageOf(all, q.limit, q.offset, rows)
  }

  /** A driver that answers the specification returns what the builder asks for. */
  lemma AnswerReturns(db: Database, q: Query, hits: seq<Hit>)
    requires JoinsOf(q.preds) == [] && Answers(db, SpecOf(db, q), hits)
    ensures Returns(db, q, RowsOf(hits))
    ensures |hits| == PageSize(|WantedRows(db, q)|, Or(q.limit, 0), Or(q.offset, 0))
  {
    var s := SpecOf(db, q);
    CandidatesAreWanted(db, q);
    PlainAnswer(db, s, hits);
    var all :| Sorted(db, s, all) && RowsOf(hits) == Window(all, s.limit, s.offset);
    WindowIsPageOf(all, q.limit, q.offset);
  }

  lemma CandidatesAreWanted(db: Database, q: Query)
    ensures Candidates(db, SpecOf(db, q)) == WantedRows(db, q)
  {
    FilterSame(db.rows(q.table), Matching(db, q.preds), MeetsAll(db, q.preds));
  }

  lemma WindowIsPageOf<T>(all: seq<T>, limit: Option<nat>, offset: Option<nat>)
    ensures PageOf(all, limit, offset, Window(all, Or(limit, 0), Or(offset, 0)))
  {
    var from := Or(offset, 0);
    if from <= |all| && Or(limit, 0) != 0 && from + limit.value < |all| {
      assert all[from..][..limit.value] == all[from..from + limit.value];
    }
  }

  // ---------------------------------------------------------------- DISTINCT

  /** Rows of the list that agree on the columns pass the test alike. */
  ghost predicate Respects(rows: seq<Row>, columns: seq<Column>, f: Row -> bool) {
    forall a, b :: a in rows && b in rows && Project(a, columns) == Project(b, columns) ==> f(a) == f(b)
  }

  /** Dropping duplicates and filtering by a test can be done in either order, if the duplicates pass the
      test alike. */
  lemma {:induction false} FirstOfEachFilter(rows: seq<Row>, columns: seq<Column>, f: Row -> bool)
    requires Respects(rows, columns, f)
    ensures Filter(FirstOfEach(rows, columns), f) == FirstOfEach(Filter(rows, f), columns)
  {
    if rows == [] {
      return;
    }
    var front, row := rows[..|rows| - 1], rows[|rows| - 1];
    assert rows == front + [row];
    assert Respects(front, columns, f) by {
      assert forall a :: a in front ==> a in rows;
    }
    FirstOfEachFilter(front, columns, f);
    FirstOfEachFilterStep(front, row, columns, f);
  }

  lemma FirstOfEachFilterStep(front: seq<Row>, row: Row, columns: seq<Column>, f: Row -> bool)
    requires Respects(front + [row], columns, f)
    requires Filter(FirstOfEach(front, columns), f) == FirstOfEach(Filter(front, f), columns)
    ensures Filter(FirstOfEach(front + [row], columns), f) == FirstOfEach(Filter(front + [row], f), columns)
  {
    FirstOfEachStep(front, row, columns);
    FilterLast(front, row, f);
    FilterLast(FirstOfEach(front, columns), row, f);
    if f(row) {
      FirstOfEachStep(Filter(front, f), row, columns);
      SameAgreement(front, row, columns, f);
    }
  }

  lemma SameAgreement(front: seq<Row>, row: Row, columns: seq<Column>, f: Row -> bool)
    requires f(row) && Respects(front + [row], columns, f)
    ensures Agrees(front, row, columns) <==> Agrees(Filter(front, f), row, columns)
  {
    FilterMembers(front, f);
    assert row in front + [row] && forall a :: a in front ==> a in front + [row];
  }

  lemma FirstOfEachStep(front: seq<Row>, row: Row, columns: seq<Column>)
    ensures FirstOfEach(front + [row], columns)
      == if Agrees(front, row, columns) then FirstOfEach(front, columns) else FirstOfEach(front, columns) + [row]
  {
    assert (front + [row])[..|front|] == front;
    assert FirstOfEach(front, columns) + [] == FirstOfEach(front, columns);
  }

  lemma FilterLast(front: seq<Row>, row: Row, f: Row -> bool)
    ensures Filter(front + [row], f) == if f(row) then Filter(front, f) + [row] else Filter(front, f)
  {
    assert (front + [row])[..|front|] == front;
    assert Filter(front, f) + [] == Filter(front, f);
  }

  lemma {:induction false} FirstOfEachSubset(rows: seq<Row>, columns: seq<Column>)
    ensures multiset(FirstOfEach(rows, columns)) <= multiset(rows)
    ensures |FirstOfEach(rows, columns)| <= |rows|
  {
    if rows != [] {
      var n := |rows| - 1;
      FirstOfEachSubset(rows[..n], columns);
      assert rows == rows[..n] + [rows[n]];
    }
  }

  /** DISTINCT changes nothing iff the selected columns tell the rows apart. */
  lemma {:induction false} FirstOfEachIsAll(rows: seq<Row>, columns: seq<Column>)
    ensures FirstOfEach(rows, columns) == rows <==> Separated(rows, columns)
  {
    if rows == [] {
      return;
    }
    var n := |rows| - 1;
    var front, row := rows[..n], rows[n];
    assert rows == front + [row];
    FirstOfEachIsAll(front, columns);
    FirstOfEachSubset(front, columns);
    if FirstOfEach(rows, columns) == rows {
      assert |FirstOfEach(rows, columns)| == n + 1;
      assert !Agrees(front, row, columns);
      assert FirstOfEach(front, columns) == rows[..n];
      forall i | 0 <= i < n ensures Project(rows[i], columns) != Project(row, columns) {
        assert front[i] in front;
      }
    }
  }
}
