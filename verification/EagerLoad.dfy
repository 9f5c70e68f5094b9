/** The eager-loading engine: `All`, `sqlAll` and the `load*` functions of the query files, in the three
    shapes that the generator emits. Every method is proved to do what the plan says, and the nodes it fills
    to hold, on every level, what joining each node on its own would give. */
module EagerLoad {
  import opened Wrappers
  import opened Schema
  import opened Sequences
  import opened Relational
  import opened LoadPlan
  import opened HandOut

  function EdgesOf(ws: seq<With>): set<Edge> {
    set i | 0 <= i < |ws| :: ws[i].edge
  }

  predicate ShapeFits(e: Edge, v: Option<EdgeValue>) {
    if ShapeOf(e).ManyToOne? then v.None? || v.value.One? else v.Some? && v.value.Many?
  }

  // ---------------------------------------------------------------- what a filled node is

  /** The node, one of the nodes with the given rows, holds the selected columns of its row and exactly the
      requested edges, each filled with the rows that its load got, level by level. */
  ghost predicate Filled(d: Driver, columns: seq<Column>, q: Query, rows: seq<Row>, n: Node, S: set<Node>)
    reads S
    decreases q
  {
    && n in S
    && n.vals == Project(n.row, columns)
    && n.loaded == EdgesOf(q.with)
    && n.edges.Keys <= EdgesOf(q.with)
    && forall i :: 0 <= i < |q.with| ==> EdgeFilled(d, q.with[i], rows, n.row, Lookup(n.edges, q.with[i].edge), S)
  }

  /** The targets of the edge are, in the driver's order, the rows got that belong to the node's row. */
  ghost predicate EdgeFilled(d: Driver, w: With, rows: seq<Row>, row: Row, v: Option<EdgeValue>, S: set<Node>)
    reads S
    decreases w
  {
    && ShapeFits(w.edge, v)
    && SourceRows(TargetsOf(v)) == Filter(Asked(d, w, rows), BelongsTo(d, w, rows, row))
    && forall t :: t in TargetsOf(v) ==> Filled(d, SubColumns(d.db, w), w.sub, Asked(d, w, rows), t, S)
  }

  lemma {:induction false} FilledGrows(d: Driver, columns: seq<Column>, q: Query, rows: seq<Row>, n: Node, S: set<Node>,
      S': set<Node>)
    requires Filled(d, columns, q, rows, n, S) && S <= S'
    ensures Filled(d, columns, q, rows, n, S')
    decreases q
  {
    forall i | 0 <= i < |q.with| ensures EdgeFilled(d, q.with[i], rows, n.row, Lookup(n.edges, q.with[i].edge), S') {
      EdgeFilledGrows(d, q.with[i], rows, n.row, Lookup(n.edges, q.with[i].edge), S, S');
    }
  }

  lemma {:induction false} EdgeFilledGrows(d: Driver, w: With, rows: seq<Row>, row: Row, v: Option<EdgeValue>,
      S: set<Node>, S': set<Node>)
    requires EdgeFilled(d, w, rows, row, v, S) && S <= S'
    ensures EdgeFilled(d, w, rows, row, v, S')
    decreases w
  {
    forall t | t in TargetsOf(v) ensures Filled(d, SubColumns(d.db, w), w.sub, Asked(d, w, rows), t, S') {
      FilledGrows(d, SubColumns(d.db, w), w.sub, Asked(d, w, rows), t, S, S');
    }
  }

  /** Only the edges of the query matter. */
  lemma SameFilled(d: Driver, columns: seq<Column>, q: Query, q': Query, rows: seq<Row>, n: Node, S: set<Node>)
    requires q.with == q'.with && Filled(d, columns, q, rows, n, S)
    ensures Filled(d, columns, q', rows, n, S)
  {
    forall i | 0 <= i < |q.with| ensures EdgeFilled(d, q'.with[i], rows, n.row, Lookup(n.edges, q'.with[i].edge), S) {
      assert EdgeFilled(d, q.with[i], rows, n.row, Lookup(n.edges, q.with[i].edge), S);
    }
  }

  // ---------------------------------------------------------------- the naive join

  /** The node holds the selected columns of its row and exactly the requested edges; each edge is the naive
      join of that row alone, and every target is in turn loaded by the edge's query. */
  ghost predicate LoadedBy(db: Database, columns: seq<Column>, q: Query, n: Node, S: set<Node>)
    reads S
    decreases q
  {
    && n in S
    && n.vals == Project(n.row, columns)
    && n.loaded == EdgesOf(q.with)
    && n.edges.Keys <= EdgesOf(q.with)
    && forall i :: 0 <= i < |q.with| ==> EdgeBy(db, q.with[i], n.row, Lookup(n.edges, q.with[i].edge), S)
  }

  ghost predicate EdgeBy(db: Database, w: With, row: Row, v: Option<EdgeValue>, S: set<Node>)
    reads S
    decreases w
  {
    && ShapeFits(w.edge, v)
    && Joins(db, w, row, SourceRows(TargetsOf(v)))
    && forall t :: t in TargetsOf(v) ==> LoadedBy(db, SubColumns(db, w), w.sub, t, S)
  }

  /** A run below nodes with these rows is valid and reports no error. */
  ghost predicate Sound(d: Driver, q: Query, rows: seq<Row>) {
    && Honours(d) && ValidDatabase(d.db) && ValidQuery(q)
    && (forall row :: row in rows ==> row in d.db.rows(q.table))
    && (rows != [] ==> EdgesError(d, q, rows, 0).None?)
  }

  lemma {:induction false} NoEdgeFails(d: Driver, q: Query, rows: seq<Row>, i: nat, j: nat)
    requires i <= j < |q.with| && EdgesError(d, q, rows, i).None?
    ensures EdgeError(d, q.with[j], rows).None?
    decreases j - i
  {
    if i < j {
      NoEdgeFails(d, q, rows, i + 1, j);
    }
  }

  /** Filled nodes are loaded: what the bookkeeping leaves is the naive join, on every level. */
  lemma {:induction false} FilledIsLoaded(d: Driver, columns: seq<Column>, q: Query, rows: seq<Row>, n: Node,
      S: set<Node>)
    requires Sound(d, q, rows) && n.row in rows && Filled(d, columns, q, rows, n, S)
    ensures LoadedBy(d.db, columns, q, n, S)
    decreases q
  {
    forall i | 0 <= i < |q.with| ensures EdgeBy(d.db, q.with[i], n.row, Lookup(n.edges, q.with[i].edge), S) {
      NoEdgeFails(d, q, rows, 0, i);
      EdgeFilledIsJoin(d, q.with[i], rows, n.row, Lookup(n.edges, q.with[i].edge), S);
    }
  }

  lemma {:induction false} EdgeFilledIsJoin(d: Driver, w: With, rows: seq<Row>, row: Row, v: Option<EdgeValue>,
      S: set<Node>)
    requires Loadable(d, w, rows) && row in rows && EdgeFilled(d, w, rows, row, v, S)
    ensures EdgeBy(d.db, w, row, v, S)
    decreases w
  {
    AskedIsJoin(d, w, rows, row);
    SoundBelow(d, w, rows);
    forall t | t in TargetsOf(v) ensures LoadedBy(d.db, SubColumns(d.db, w), w.sub, t, S) {
      TargetAsked(d, w, rows, row, TargetsOf(v), t);
      FilledIsLoaded(d, SubColumns(d.db, w), w.sub, Asked(d, w, rows), t, S);
    }
  }

  lemma SoundBelow(d: Driver, w: With, rows: seq<Row>)
    requires Loadable(d, w, rows)
    ensures Sound(d, w.sub, Asked(d, w, rows))
  {
    AskedMatch(d, w, rows);
    if Asked(d, w, rows) != [] {
      BelowError(d, w, rows);
    }
  }

  lemma TargetAsked(d: Driver, w: With, rows: seq<Row>, row: Row, ts: seq<Node>, t: Node)
    requires SourceRows(ts) == Filter(Asked(d, w, rows), BelongsTo(d, w, rows, row)) && t in ts
    ensures t.row in Asked(d, w, rows) && BelongsTo(d, w, rows, row)(t.row)
  {
    var i :| 0 <= i < |ts| && ts[i] == t;
    assert SourceRows(ts)[i] == t.row;
    FilterMember(Asked(d, w, rows), BelongsTo(d, w, rows, row), t.row);
  }

  // ---------------------------------------------------------------- scanning

  /** `scanValues` and the driver: the cells of the selected columns, in order. */
  function Scan(row: Row, columns: seq<Column>): seq<Option<int>> {
    seq(|columns|, i requires 0 <= i < |columns| => Cell(row, columns[i]))
  }

  /** `assignValues`. */
  function Assign(columns: seq<Column>, values: seq<Option<int>>): Row
    requires |columns| == |values|
  {
    if columns == [] then map[]
    else
      var n := |columns| - 1;
      Assign(columns[..n], values[..n])[columns[n] := values[n]]
  }

  lemma {:induction false} AssignScanned(row: Row, columns: seq<Column>)
    requires forall c :: c in columns ==> c in row
    ensures Assign(columns, Scan(row, columns)) == Project(row, columns)
  {
    if columns != [] {
      var n := |columns| - 1;
      assert Scan(row, columns)[..n] == Scan(row, columns[..n]);
      AssignScanned(row, columns[..n]);
      assert columns == columns[..n] + [columns[n]];
    }
  }

  /** Nodes fresh from the scan: no edges yet. */
  ghost predicate JustMade(nodes: seq<Node>, columns: seq<Column>, loaded: set<Edge>)
    reads NodeSet(nodes)
  {
    Distinct(nodes) && forall n :: n in nodes ==>
      n.edges == map[] && n.loaded == loaded && n.vals == Project(n.row, columns)
  }

  lemma OneMoreMade(nodes: seq<Node>, n: Node, columns: seq<Column>, loaded: set<Edge>)
    requires JustMade(nodes, columns, loaded) && n !in nodes
    requires n.edges == map[] && n.loaded == loaded && n.vals == Project(n.row, columns)
    ensures JustMade(nodes + [n], columns, loaded)
    ensures SourceRows(nodes + [n]) == SourceRows(nodes) + [n.row]
    ensures NodeSet(nodes + [n]) == NodeSet(nodes) + {n}
  {
  }

  /** The `Assign` callback of a plain query: one new node per row. */
  method BuildNodes(hits: seq<Hit>, columns: seq<Column>, loaded: set<Edge>) returns (nodes: seq<Node>)
    requires forall h, c :: h in hits && c in columns ==> c in h.row
    ensures fresh(NodeSet(nodes)) && JustMade(nodes, columns, loaded) && SourceRows(nodes) == RowsOf(hits)
  {
    nodes := [];
    for i := 0 to |hits|
      invariant fresh(NodeSet(nodes)) && JustMade(nodes, columns, loaded) && SourceRows(nodes) == RowsOf(hits[..i])
    {
      AssignScanned(hits[i].row, columns);
      var node := new Node(hits[i].row, Assign(columns, Scan(hits[i].row, columns)), loaded);
      OneMoreMade(nodes, node, columns, loaded);
      assert RowsOf(hits[..i + 1]) == RowsOf(hits[..i]) + [hits[i].row];
      nodes := nodes + [node];
    }
    assert hits[..|hits|] == hits;
  }

  function Owner(byId: map<int, Node>, account: int): Node? {
    if account in byId then byId[account] else null
  }

  /** The owners of each returned id: `nids`. */
  function OwnersOf(hits: seq<Hit>, byId: map<int, Node>): map<int, set<Node?>> {
    if hits == [] then map[]
    else
      var h := hits[|hits| - 1];
      var before := OwnersOf(hits[..|hits| - 1], byId);
      var id := IdOf(h.row);
      before[id := (if id in before then before[id] else {}) + {Owner(byId, h.Front())}]
  }

  lemma OwnersStep(hits: seq<Hit>, i: nat, byId: map<int, Node>)
    requires i < |hits|
    ensures var id := IdOf(hits[i].row);
            var before := OwnersOf(hits[..i], byId);
            OwnersOf(hits[..i + 1], byId)
              == before[id := (if id in before then before[id] else {}) + {Owner(byId, hits[i].Front())}]
  {
    assert hits[..i + 1][..i] == hits[..i];
  }

  /** The wrapped `Assign` callback of a many-to-many query: it reads the account from the first slot and the id
      of the neighbour from the second, makes a node for the first row with that id, and otherwise only notes
      the owner. With two or more joins the second slot belongs to an account column, for which `scanValues`
      makes no integer slot. */
  method BuildJoined(hits: seq<Hit>, columns: seq<Column>, loaded: set<Edge>, byId: map<int, Node>, ghost joins: nat)
    returns (err: Option<Error>, nodes: seq<Node>, nids: map<int, set<Node?>>)
    requires |columns| > 0 && columns[0] == ID && joins > 0
    requires forall h, c :: h in hits && c in columns ==> c in h.row
    requires forall h :: h in hits ==> |h.outs| == joins
    ensures err == if joins > 1 && hits != [] then Some(WrongSlot) else None
    ensures fresh(NodeSet(nodes)) && JustMade(nodes, columns, loaded)
    ensures err.None? ==> SourceRows(nodes) == FirstSeen(hits) && nids == OwnersOf(hits, byId)
  {
    err, nodes, nids := None, [], map[];
    for i := 0 to |hits|
      invariant joins > 1 ==> i == 0
      invariant fresh(NodeSet(nodes)) && JustMade(nodes, columns, loaded) && SourceRows(nodes) == FirstSeen(hits[..i])
      invariant nids == OwnersOf(hits[..i], byId)
    {
      if |hits[i].outs| > 1 {
        return Some(WrongSlot), nodes, nids;
      }
      OwnersStep(hits, i, byId);
      FirstSeenStep(hits, i);
      OwnedIffSeen(hits[..i], byId, IdOf(hits[i].row));
      AssignScanned(hits[i].row, columns);
      var outValue := hits[i].Front();
      var values := Scan(hits[i].row, columns);
      var inValue := if values[0].Some? then values[0].value else 0;
      assert inValue == IdOf(hits[i].row);
      if inValue !in nids {
        ghost var none: set<Node?> := {};
        assert none + {Owner(byId, outValue)} == {Owner(byId, outValue)};
        nids := nids[inValue := {Owner(byId, outValue)}];
        var node := new Node(hits[i].row, Assign(columns, values), loaded);
        OneMoreMade(nodes, node, columns, loaded);
        nodes := nodes + [node];
      } else {
        nids := nids[inValue := nids[inValue] + {Owner(byId, outValue)}];
      }
    }
    assert hits[..|hits|] == hits;
  }

  lemma {:induction false} OwnedIffSeen(hits: seq<Hit>, byId: map<int, Node>, id: int)
    ensures id in OwnersOf(hits, byId) <==> SeenId(hits, id)
  {
    if hits != [] {
      var i := |hits| - 1;
      OwnedIffSeen(hits[..i], byId, id);
      assert hits == hits[..i] + [hits[i]];
    }
  }

  lemma {:induction false} OwnersAre(hits: seq<Hit>, byId: map<int, Node>)
    ensures forall k :: k in OwnersOf(hits, byId) <==> SeenId(hits, k)
    ensures forall k, n: Node? :: k in OwnersOf(hits, byId) ==>
      (n in OwnersOf(hits, byId)[k] <==> exists h :: h in hits && IdOf(h.row) == k && Owner(byId, h.Front()) == n)
  {
    if hits != [] {
      var i := |hits| - 1;
      OwnersAre(hits[..i], byId);
      assert hits == hits[..i] + [hits[i]];
    }
  }

  // ---------------------------------------------------------------- the nodes to load for

  /** Nodes of rows of their table, holding the selected columns, with distinct ids. */
  ghost predicate Prepared(db: Database, t: Table, columns: seq<Column>, nodes: seq<Node>) {
    && Distinct(nodes)
    && (forall n :: n in nodes ==> n.row in db.rows(t) && n.vals == Project(n.row, columns))
    && (HasId(t) ==> ID in columns && UniqueIds(SourceRows(nodes)))
  }

  /** The nodes can be loaded for the edge: its key column, if it is on the node, has been selected. */
  ghost predicate CanLoad(d: Driver, w: With, columns: seq<Column>, nodes: seq<Node>) {
    && Honours(d) && ValidDatabase(d.db) && ValidWith(w)
    && Prepared(d.db, Source(w.edge), columns, nodes)
    && (ShapeOf(w.edge).ManyToOne? ==> ShapeOf(w.edge).fk in columns)
  }

  /** The neighbours that the query of an edge returned, filled below. */
  ghost predicate Returned(d: Driver, w: With, rows: seq<Row>, neighbors: seq<Node>, S: set<Node>)
    reads S
  {
    && SourceRows(neighbors) == Asked(d, w, rows)
    && forall t :: t in neighbors ==> Filled(d, SubColumns(d.db, w), w.sub, Asked(d, w, rows), t, S)
  }

  lemma RowOfNode(nodes: seq<Node>, n: Node)
    requires n in nodes
    ensures n.row in SourceRows(nodes)
  {
    var i :| 0 <= i < |nodes| && nodes[i] == n;
    assert SourceRows(nodes)[i] == n.row;
  }

  lemma LoadableNodes(d: Driver, w: With, columns: seq<Column>, nodes: seq<Node>)
    requires CanLoad(d, w, columns, nodes) && EdgeError(d, w, SourceRows(nodes)).None?
    ensures Loadable(d, w, SourceRows(nodes))
  {
    var rows := SourceRows(nodes);
    forall row | row in rows ensures row in d.db.rows(Source(w.edge)) {
      var i :| 0 <= i < |rows| && rows[i] == row;
      assert nodes[i] in nodes;
    }
  }

  /** A key or id read from the selected columns is the one of the row. */
  lemma KeyOfSelected(row: Row, columns: seq<Column>, c: Column, nullable: bool)
    requires c in columns && c in row
    requires !nullable ==> Cell(row, c).Some?
    ensures Key(Project(row, columns), c, nullable) == Cell(row, c)
  {
  }

  /** The key that a many-to-one load reads from a node is the key of its row. */
  lemma NodeKey(d: Driver, w: With, columns: seq<Column>, nodes: seq<Node>, n: Node)
    requires CanLoad(d, w, columns, nodes) && ShapeOf(w.edge).ManyToOne? && n in nodes
    ensures Key(n.vals, ShapeOf(w.edge).fk, ShapeOf(w.edge).nullable) == Cell(n.row, ShapeOf(w.edge).fk)
  {
    assert ValidEdge(d.db, w.edge) && ValidTable(d.db, Source(w.edge));
    KeyOfSelected(n.row, columns, ShapeOf(w.edge).fk, ShapeOf(w.edge).nullable);
  }

  lemma {:induction false} SameKeys(nodes: seq<Node>, fk: Column, nullable: bool)
    requires forall n :: n in nodes ==> Key(n.vals, fk, nullable) == Cell(n.row, fk)
    ensures KeysOf(nodes, fk, nullable) == KeysOfRows(SourceRows(nodes), fk)
  {
    if nodes != [] {
      var i := |nodes| - 1;
      SameKeys(nodes[..i], fk, nullable);
      assert SourceRows(nodes)[..i] == SourceRows(nodes[..i]);
      assert nodes[i] in nodes;
    }
  }

  /** The ids and keys that the loads collect from the nodes are those of the rows. */
  lemma CollectedKeys(d: Driver, w: With, columns: seq<Column>, nodes: seq<Node>)
    requires CanLoad(d, w, columns, nodes)
    ensures ShapeOf(w.edge).ManyToOne? ==>
      KeysOf(nodes, ShapeOf(w.edge).fk, ShapeOf(w.edge).nullable) == RowKeys(w.edge, SourceRows(nodes))
    ensures !ShapeOf(w.edge).ManyToOne? ==> IdsOf(nodes) == RowKeys(w.edge, SourceRows(nodes))
  {
    if ShapeOf(w.edge).ManyToOne? {
      var fk, nullable := ShapeOf(w.edge).fk, ShapeOf(w.edge).nullable;
      forall n | n in nodes ensures Key(n.vals, fk, nullable) == Cell(n.row, fk) {
        NodeKey(d, w, columns, nodes, n);
      }
      SameKeys(nodes, fk, nullable);
      return;
    }
    assert HasId(Source(w.edge)) && ValidTable(d.db, Source(w.edge));
    forall i | 0 <= i < |nodes| ensures IdOf(nodes[i].vals) == IdOf(nodes[i].row) {
      assert nodes[i] in nodes;
    }
  }

  /** The id, or the key of a one-to-many edge, of a returned neighbour is the one of its row. */
  lemma NeighborKeys(d: Driver, w: With, rows: seq<Row>, neighbors: seq<Node>, S: set<Node>)
    requires Loadable(d, w, rows) && Returned(d, w, rows, neighbors, S)
    ensures forall t :: t in neighbors ==> t.row in Asked(d, w, rows) && t.row in d.db.rows(Target(w.edge))
    ensures HasId(Target(w.edge)) ==> forall t :: t in neighbors ==> IdOf(t.vals) == IdOf(t.row)
    ensures ShapeOf(w.edge).OneToMany? ==> forall t :: t in neighbors ==>
      Key(t.vals, ShapeOf(w.edge).fk, ShapeOf(w.edge).nullable) == Cell(t.row, ShapeOf(w.edge).fk)
  {
    AskedMatch(d, w, rows);
    assert ValidTable(d.db, Target(w.edge)) && ValidEdge(d.db, w.edge);
    SelectsKeys(d.db, w.sub, SubFields(w));
    forall t | t in neighbors
      ensures t.row in Asked(d, w, rows) && t.row in d.db.rows(Target(w.edge))
      ensures HasId(Target(w.edge)) ==> IdOf(t.vals) == IdOf(t.row)
    {
      RowOfNode(neighbors, t);
    }
    if ShapeOf(w.edge).OneToMany? {
      KeyColumnSelected(d.db, w);
      forall t | t in neighbors
        ensures Key(t.vals, ShapeOf(w.edge).fk, ShapeOf(w.edge).nullable) == Cell(t.row, ShapeOf(w.edge).fk)
      {
        KeyOfSelected(t.row, SubColumns(d.db, w), ShapeOf(w.edge).fk, ShapeOf(w.edge).nullable);
      }
    }
  }

  /** Filtering nodes by what they hold is filtering their rows. */
  lemma {:induction false} FilterSources(nodes: seq<Node>, g: Node -> bool, f: Row -> bool)
    requires forall n :: n in nodes ==> g(n) == f(n.row)
    ensures SourceRows(Filter(nodes, g)) == Filter(SourceRows(nodes), f)
  {
    if nodes != [] {
      var i := |nodes| - 1;
      FilterSources(nodes[..i], g, f);
      assert SourceRows(nodes)[..i] == SourceRows(nodes[..i]);
      assert nodes[i] in nodes;
    }
  }

  /** A selection of the neighbours that agrees with `BelongsTo` fills the edge. */
  lemma SelectionFills(d: Driver, w: With, rows: seq<Row>, row: Row, neighbors: seq<Node>, g: Node -> bool,
      v: Option<EdgeValue>, S: set<Node>)
    requires Returned(d, w, rows, neighbors, S) && ShapeFits(w.edge, v) && TargetsOf(v) == Filter(neighbors, g)
    requires forall t :: t in neighbors ==> g(t) == BelongsTo(d, w, rows, row)(t.row)
    ensures EdgeFilled(d, w, rows, row, v, S)
  {
    FilterSources(neighbors, g, BelongsTo(d, w, rows, row));
    forall t | t in TargetsOf(v) ensures t in neighbors {
      FilterMember(neighbors, g, t);
    }
  }

  /** Nothing but the entry of the edge differs. */
  predicate OnlyEdge(before: map<Edge, EdgeValue>, after: map<Edge, EdgeValue>, e: Edge) {
    before - {e} == after - {e}
  }

  lemma OnlyEdgeElsewhere(before: map<Edge, EdgeValue>, after: map<Edge, EdgeValue>, e: Edge, f: Edge)
    requires OnlyEdge(before, after, e) && f != e
    ensures Lookup(before, f) == Lookup(after, f)
  {
    assert f in before <==> f in before - {e};
    assert f in after <==> f in after - {e};
  }

  // ---------------------------------------------------------------- many-to-one

  /** Every returned neighbour of a many-to-one edge was asked for: its error cannot occur. */
  lemma ToOneExpected(d: Driver, w: With, rows: seq<Row>, neighbors: seq<Node>, S: set<Node>)
    requires Loadable(d, w, rows) && Returned(d, w, rows, neighbors, S) && ShapeOf(w.edge).ManyToOne?
    ensures forall t :: t in neighbors ==> IdOf(t.vals) in RowKeys(w.edge, rows)
  {
    NeighborKeys(d, w, rows, neighbors, S);
    AskedHasKey(d, w, rows);
    assert HasId(Target(w.edge));
    forall t | t in neighbors ensures IdOf(t.vals) in RowKeys(w.edge, rows) {
      assert Cell(t.row, ID).Some?;
    }
  }

  /** The neighbour that a node wants is the returned row with its key. */
  lemma WantedRow(d: Driver, w: With, columns: seq<Column>, nodes: seq<Node>, n: Node, neighbors: seq<Node>,
      S: set<Node>)
    requires CanLoad(d, w, columns, nodes) && ShapeOf(w.edge).ManyToOne? && n in nodes
    requires Loadable(d, w, SourceRows(nodes)) && Returned(d, w, SourceRows(nodes), neighbors, S)
    ensures var key := Key(n.vals, ShapeOf(w.edge).fk, ShapeOf(w.edge).nullable);
            forall t :: t in neighbors ==> Wanted(key)(t) == BelongsTo(d, w, SourceRows(nodes), n.row)(t.row)
  {
    var key := Key(n.vals, ShapeOf(w.edge).fk, ShapeOf(w.edge).nullable);
    NodeKey(d, w, columns, nodes, n);
    forall t | t in neighbors ensures Wanted(key)(t) == BelongsTo(d, w, SourceRows(nodes), n.row)(t.row) {
      ReturnedNode(d, w, SourceRows(nodes), neighbors, t, S);
      TargetId(d, w, SourceRows(nodes), t.row);
      BelongsById(d, w, SourceRows(nodes), n.row, t.row);
    }
  }

  lemma TargetId(d: Driver, w: With, rows: seq<Row>, x: Row)
    requires Loadable(d, w, rows) && ShapeOf(w.edge).ManyToOne? && x in Asked(d, w, rows)
    ensures IdOf(Project(x, SubColumns(d.db, w))) == IdOf(x)
  {
    ToOneHasId(w.edge);
    AskedId(d, w, rows, x);
  }

  lemma ToOneHasId(e: Edge)
    ensures ShapeOf(e).ManyToOne? ==> HasId(Target(e))
  {
  }

  lemma ReturnedNode(d: Driver, w: With, rows: seq<Row>, neighbors: seq<Node>, t: Node, S: set<Node>)
    requires Returned(d, w, rows, neighbors, S) && t in neighbors
    ensures t.row in Asked(d, w, rows) && t.vals == Project(t.row, SubColumns(d.db, w))
  {
    RowOfNode(neighbors, t);
  }

  lemma AskedId(d: Driver, w: With, rows: seq<Row>, x: Row)
    requires Loadable(d, w, rows) && HasId(Target(w.edge)) && x in Asked(d, w, rows)
    ensures IdOf(Project(x, SubColumns(d.db, w))) == IdOf(x)
  {
    AskedMatch(d, w, rows);
    IdSelected(d.db, w, x);
  }

  lemma BelongsById(d: Driver, w: With, rows: seq<Row>, row: Row, other: Row)
    requires ShapeOf(w.edge).ManyToOne?
    ensures BelongsTo(d, w, rows, row)(other) <==> Cell(row, ShapeOf(w.edge).fk) == Some(IdOf(other))
  {
  }

  lemma AssignedOnce(edges: map<Edge, EdgeValue>, e: Edge, got: seq<Node>)
    requires ShapeOf(e).ManyToOne? && e !in edges && |got| <= 1
    ensures var after := AssignOne(edges, e, got);
            OnlyEdge(edges, after, e) && ShapeFits(e, Lookup(after, e)) && TargetsOf(Lookup(after, e)) == got
  {
    assert got == [] || got == [got[0]];
  }

  /** After a many-to-one load the edge of a node is the returned row with its key, if there is one. */
  lemma ToOneFills(d: Driver, w: With, columns: seq<Column>, nodes: seq<Node>, n: Node, edges: map<Edge, EdgeValue>,
      neighbors: seq<Node>, S: set<Node>)
    requires CanLoad(d, w, columns, nodes) && ShapeOf(w.edge).ManyToOne? && n in nodes && w.edge !in edges
    requires Loadable(d, w, SourceRows(nodes)) && Returned(d, w, SourceRows(nodes), neighbors, S)
    ensures var key := Key(n.vals, ShapeOf(w.edge).fk, ShapeOf(w.edge).nullable);
            var after := EdgesToOne(edges, key, neighbors, w.edge);
            OnlyEdge(edges, after, w.edge) && EdgeFilled(d, w, SourceRows(nodes), n.row, Lookup(after, w.edge), S)
  {
    var rows := SourceRows(nodes);
    var key := Key(n.vals, ShapeOf(w.edge).fk, ShapeOf(w.edge).nullable);
    var got := Filter(neighbors, Wanted(key));
    WantedRow(d, w, columns, nodes, n, neighbors, S);
    RowOfNode(nodes, n);
    FilterSources(neighbors, Wanted(key), BelongsTo(d, w, rows, n.row));
    ToOneIsSingle(d, w, rows, n.row);
    assert |got| == |SourceRows(got)|;
    AssignedOnce(edges, w.edge, got);
    SelectionFills(d, w, rows, n.row, neighbors, Wanted(key), Lookup(AssignOne(edges, w.edge, got), w.edge), S);
  }

  /** A load that asks nothing leaves the edge unset, and that is right. */
  lemma SkippedFills(d: Driver, w: With, rows: seq<Row>, row: Row, S: set<Node>)
    requires Skipped(w.edge, rows)
    ensures EdgeFilled(d, w, rows, row, None, S)
  {
    assert SourceRows([]) == [];
  }

  // ---------------------------------------------------------------- one-to-many

  /** `byId` maps each id to the last node that has it. */
  ghost predicate ById(nodes: seq<Node>, byId: map<int, Node>) {
    && (forall k :: k in byId <==> LastWithId(nodes, k).Some?)
    && (forall k :: k in byId ==> LastWithId(nodes, k) == Some(byId[k]))
  }

  lemma {:induction false} LastWithIdIs(nodes: seq<Node>, k: int)
    ensures LastWithId(nodes, k).Some? ==>
      LastWithId(nodes, k).value in nodes && IdOf(LastWithId(nodes, k).value.vals) == k
    ensures LastWithId(nodes, k).Some? <==> k in IdsOf(nodes)
  {
    if nodes != [] {
      var i := |nodes| - 1;
      LastWithIdIs(nodes[..i], k);
      assert IdsOf(nodes) == IdsOf(nodes[..i]) + [IdOf(nodes[i].vals)];
    }
  }

  lemma ByIdInNodes(nodes: seq<Node>, byId: map<int, Node>)
    requires ById(nodes, byId)
    ensures forall k :: k in byId ==> byId[k] in nodes
  {
    forall k | k in byId ensures byId[k] in nodes {
      LastWithIdIs(nodes, k);
    }
  }

  /** Among nodes with distinct ids the node of an id is the only one that has it. */
  lemma OwnerIsNode(db: Database, t: Table, columns: seq<Column>, nodes: seq<Node>, byId: map<int, Node>, n: Node)
    requires ValidDatabase(db) && Prepared(db, t, columns, nodes) && HasId(t) && ById(nodes, byId) && n in nodes
    ensures IdOf(n.row) in byId && byId[IdOf(n.row)] == n
    ensures forall k :: k in byId && byId[k] == n ==> k == IdOf(n.row)
  {
    var k := IdOf(n.row);
    assert ValidTable(db, t) && IdOf(n.vals) == k;
    var i :| 0 <= i < |nodes| && nodes[i] == n;
    assert IdsOf(nodes)[i] == k;
    LastWithIdIs(nodes, k);
    var j :| 0 <= j < |nodes| && nodes[j] == LastWithId(nodes, k).value;
    assert SourceRows(nodes)[i] == nodes[i].row && SourceRows(nodes)[j] == nodes[j].row;
    forall k' | k' in byId && byId[k'] == n ensures k' == k {
      LastWithIdIs(nodes, k');
    }
  }

  /** The key column of a returned neighbour is selected and not NULL, and is the id of a node: the two
      errors of a one-to-many load cannot occur. */
  lemma ToManyPlaced(d: Driver, w: With, nodes: seq<Node>, byId: map<int, Node>, neighbors: seq<Node>, S: set<Node>)
    requires Loadable(d, w, SourceRows(nodes)) && Returned(d, w, SourceRows(nodes), neighbors, S)
      && ShapeOf(w.edge).OneToMany?
    requires ById(nodes, byId) && IdsOf(nodes) == RowKeys(w.edge, SourceRows(nodes))
    ensures forall t :: t in neighbors ==> Placed(byId, t, ShapeOf(w.edge).fk, ShapeOf(w.edge).nullable)
  {
    NeighborKeys(d, w, SourceRows(nodes), neighbors, S);
    AskedHasKey(d, w, SourceRows(nodes));
    forall t | t in neighbors ensures Placed(byId, t, ShapeOf(w.edge).fk, ShapeOf(w.edge).nullable) {
      LastWithIdIs(nodes, Cell(t.row, ShapeOf(w.edge).fk).value);
    }
  }

  /** After a one-to-many load the edge of a node is the list of returned rows that point at it. */
  lemma ToManyFills(d: Driver, w: With, columns: seq<Column>, nodes: seq<Node>, byId: map<int, Node>, n: Node,
      neighbors: seq<Node>, S: set<Node>)
    requires CanLoad(d, w, columns, nodes) && ShapeOf(w.edge).OneToMany? && ById(nodes, byId) && n in nodes
    requires Loadable(d, w, SourceRows(nodes)) && Returned(d, w, SourceRows(nodes), neighbors, S)
    ensures var OneToMany(fk, nullable) := ShapeOf(w.edge);
            EdgeFilled(d, w, SourceRows(nodes), n.row, Some(Many(Filter(neighbors, GoesTo(byId, n, fk, nullable)))), S)
  {
    var OneToMany(fk, nullable) := ShapeOf(w.edge);
    GoesToRow(d, w, columns, nodes, byId, n, neighbors, S);
    SelectionFills(d, w, SourceRows(nodes), n.row, neighbors, GoesTo(byId, n, fk, nullable),
      Some(Many(Filter(neighbors, GoesTo(byId, n, fk, nullable)))), S);
  }

  /** A neighbour goes to a node iff its row has the node's id as key. */
  lemma GoesToRow(d: Driver, w: With, columns: seq<Column>, nodes: seq<Node>, byId: map<int, Node>, n: Node,
      neighbors: seq<Node>, S: set<Node>)
    requires CanLoad(d, w, columns, nodes) && ShapeOf(w.edge).OneToMany? && ById(nodes, byId) && n in nodes
    requires Loadable(d, w, SourceRows(nodes)) && Returned(d, w, SourceRows(nodes), neighbors, S)
    ensures forall t :: t in neighbors ==>
      GoesTo(byId, n, ShapeOf(w.edge).fk, ShapeOf(w.edge).nullable)(t)
        == BelongsTo(d, w, SourceRows(nodes), n.row)(t.row)
  {
    forall t | t in neighbors
      ensures GoesTo(byId, n, ShapeOf(w.edge).fk, ShapeOf(w.edge).nullable)(t)
        == BelongsTo(d, w, SourceRows(nodes), n.row)(t.row)
    {
      NodeOwns(d, w, columns, nodes, byId, n);
      KeyOfNeighbor(d, w, SourceRows(nodes), neighbors, t, S);
      KeyIsOwner(byId, n, t, ShapeOf(w.edge).fk, ShapeOf(w.edge).nullable, IdOf(n.row));
      BelongsByKey(d, w, SourceRows(nodes), n.row, t.row);
    }
  }

  /** The node is the one that the id, and no other, leads to. */
  ghost predicate Owns(byId: map<int, Node>, n: Node, id: int) {
    id in byId && byId[id] == n && forall k :: k in byId && byId[k] == n ==> k == id
  }

  lemma NodeOwns(d: Driver, w: With, columns: seq<Column>, nodes: seq<Node>, byId: map<int, Node>, n: Node)
    requires CanLoad(d, w, columns, nodes) && !ShapeOf(w.edge).ManyToOne? && ById(nodes, byId) && n in nodes
    ensures Owns(byId, n, IdOf(n.row))
  {
    assert HasId(Source(w.edge));
    OwnerIsNode(d.db, Source(w.edge), columns, nodes, byId, n);
  }

  lemma KeyOfNeighbor(d: Driver, w: With, rows: seq<Row>, neighbors: seq<Node>, t: Node, S: set<Node>)
    requires Loadable(d, w, rows) && Returned(d, w, rows, neighbors, S) && ShapeOf(w.edge).OneToMany? && t in neighbors
    ensures Key(t.vals, ShapeOf(w.edge).fk, ShapeOf(w.edge).nullable) == Cell(t.row, ShapeOf(w.edge).fk)
  {
    NeighborKeys(d, w, rows, neighbors, S);
  }

  lemma KeyIsOwner(byId: map<int, Node>, n: Node, t: Node, fk: Column, nullable: bool, id: int)
    requires Key(t.vals, fk, nullable) == Cell(t.row, fk) && Owns(byId, n, id)
    ensures GoesTo(byId, n, fk, nullable)(t) <==> Cell(t.row, fk) == Some(id)
  {
  }

  lemma BelongsByKey(d: Driver, w: With, rows: seq<Row>, row: Row, other: Row)
    requires ShapeOf(w.edge).OneToMany?
    ensures BelongsTo(d, w, rows, row)(other) <==> Cell(other, ShapeOf(w.edge).fk) == Some(IdOf(row))
  {
  }

  /** Appending to an edge that was set to the empty list. */
  lemma InitiallyEmpty(edges: map<Edge, EdgeValue>, e: Edge, neighbors: seq<Node>, f: Node -> bool)
    ensures EdgesToMany(edges[e := Many([])], e, neighbors, f) == edges[e := Many(Filter(neighbors, f))]
    ensures OnlyEdge(edges, edges[e := Many(Filter(neighbors, f))], e)
  {
    assert [] + Filter(neighbors, f) == Filter(neighbors, f);
  }

  // ---------------------------------------------------------------- many-to-many

  /** Every neighbour has owners, and none of them is nil: the error and the panic of a many-to-many load
      cannot occur. */
  lemma JoinedOwned(d: Driver, w: With, nodes: seq<Node>, byId: map<int, Node>, neighbors: seq<Node>, S: set<Node>)
    requires Loadable(d, w, SourceRows(nodes)) && Returned(d, w, SourceRows(nodes), neighbors, S)
      && ShapeOf(w.edge).ManyToMany?
    requires ById(nodes, byId) && IdsOf(nodes) == RowKeys(w.edge, SourceRows(nodes))
    ensures var owners := OwnersOf(HitsOf(d, SpecOf(d.db, EdgeQuery(w, SourceRows(nodes)))), byId);
            forall t :: t in neighbors ==> IdOf(t.vals) in owners && null !in owners[IdOf(t.vals)]
  {
    var rows := SourceRows(nodes);
    var hits := HitsOf(d, SpecOf(d.db, EdgeQuery(w, rows)));
    JoinedHits(d, w, rows);
    NeighborKeys(d, w, rows, neighbors, S);
    NarrowJoins(w, RowKeys(w.edge, rows));
    OwnersAre(hits, byId);
    assert HasId(Target(w.edge));
    forall h | h in hits ensures Owner(byId, h.Front()) != null {
      assert WantedHit(d.db, w, RowKeys(w.edge, rows), h);
      LastWithIdIs(nodes, h.Front());
    }
    forall t | t in neighbors ensures SeenId(hits, IdOf(t.row)) {
      FirstSeenFrom(hits, t.row);
    }
  }

  /** A neighbour is owned by a node iff its row was returned for the node's id. */
  lemma ComesWithRow(db: Database, t: Table, columns: seq<Column>, hits: seq<Hit>, nodes: seq<Node>,
      byId: map<int, Node>, n: Node, neighbor: Node)
    requires ValidDatabase(db) && Prepared(db, t, columns, nodes) && HasId(t) && ById(nodes, byId) && n in nodes
    requires IdOf(neighbor.vals) == IdOf(neighbor.row)
    ensures ComesWith(OwnersOf(hits, byId), n)(neighbor) == ReturnedFor(hits, IdOf(n.row))(neighbor.row)
  {
    OwnersAre(hits, byId);
    OwnerIsNode(db, t, columns, nodes, byId, n);
    var id := IdOf(neighbor.row);
    if ComesWith(OwnersOf(hits, byId), n)(neighbor) {
      var h :| h in hits && IdOf(h.row) == id && Owner(byId, h.Front()) == n;
      assert h.Front() == IdOf(n.row);
    }
    if ReturnedFor(hits, IdOf(n.row))(neighbor.row) {
      var h :| h in hits && h.Front() == IdOf(n.row) && IdOf(h.row) == id;
      assert Owner(byId, h.Front()) == n;
      assert SeenId(hits, id);
    }
  }

  /** After a many-to-many load the edge of a node is the list of first-seen neighbours that were returned for
      its id, each once, however often and in whatever order the joined rows came. */
  lemma ManyToManyFills(d: Driver, w: With, columns: seq<Column>, nodes: seq<Node>, byId: map<int, Node>, n: Node,
      neighbors: seq<Node>, S: set<Node>)
    requires CanLoad(d, w, columns, nodes) && ShapeOf(w.edge).ManyToMany? && ById(nodes, byId) && n in nodes
    requires Loadable(d, w, SourceRows(nodes)) && Returned(d, w, SourceRows(nodes), neighbors, S)
    ensures var owners := OwnersOf(HitsOf(d, SpecOf(d.db, EdgeQuery(w, SourceRows(nodes)))), byId);
            EdgeFilled(d, w, SourceRows(nodes), n.row, Some(Many(Filter(neighbors, ComesWith(owners, n)))), S)
  {
    var hits := HitsOf(d, SpecOf(d.db, EdgeQuery(w, SourceRows(nodes))));
    NeighborKeys(d, w, SourceRows(nodes), neighbors, S);
    assert HasId(Source(w.edge)) && HasId(Target(w.edge));
    forall t | t in neighbors ensures ComesWith(OwnersOf(hits, byId), n)(t)
      == BelongsTo(d, w, SourceRows(nodes), n.row)(t.row) {
      ComesWithRow(d.db, Source(w.edge), columns, hits, nodes, byId, n, t);
    }
    SelectionFills(d, w, SourceRows(nodes), n.row, neighbors, ComesWith(OwnersOf(hits, byId), n),
      Some(Many(Filter(neighbors, ComesWith(OwnersOf(hits, byId), n)))), S);
  }

  lemma OwnersInNodes(hits: seq<Hit>, nodes: seq<Node>, byId: map<int, Node>)
    requires ById(nodes, byId)
    ensures forall k, n :: k in OwnersOf(hits, byId) && n in OwnersOf(hits, byId)[k] && n != null ==> n in nodes
  {
    OwnersAre(hits, byId);
    ByIdInNodes(nodes, byId);
  }

  // ---------------------------------------------------------------- the program

  function ErrorOf<T>(r: Result<T, Error>): Option<Error> {
    if r.Err? then Some(r.error) else None
  }

  /** What a caller sees of a node's row: the whole row if the query chose no fields; otherwise the chosen fields and,
      besides them, only the id, the keys of the loaded edges and the key by which the node was found. */
  ghost predicate ShowsRow(q: Query, key: Option<Column>, n: Node)
    reads n
  {
    && (q.fields == [] ==> n.vals == n.row)
    && (forall c :: c in q.fields && c in n.row ==> c in n.vals)
    && (forall c :: c in n.vals ==> c in n.row && n.vals[c] == n.row[c])
    && (q.fields != [] ==> forall c :: c in n.vals ==>
      c in q.fields || (c == ID && HasId(q.table)) || NeededKey(q.with, c) || key == Some(c))
  }

  /** The key column that the load of an edge adds to chosen fields. */
  function AddedKey(e: Edge): Option<Column> {
    if ShapeOf(e).OneToMany? then Some(ShapeOf(e).fk) else None
  }

  /** The same for all nodes below, on every level. */
  ghost predicate Shows(q: Query, key: Option<Column>, n: Node, S: set<Node>)
    reads S, n
    decreases q
  {
    && ShowsRow(q, key, n)
    && forall i, t :: 0 <= i < |q.with| && t in TargetsOf(Lookup(n.edges, q.with[i].edge)) ==>
      t in S && Shows(q.with[i].sub, AddedKey(q.with[i].edge), t, S)
  }

  lemma ProjectedShows(db: Database, q: Query, key: Option<Column>, fields: seq<Column>, n: Node)
    requires ValidDatabase(db) && ValidQuery(q) && n.row in db.rows(q.table)
    requires n.vals == Project(n.row, Selected(db.columns(q.table), q.table, fields, q.with))
    requires fields == if q.fields == [] || key.None? then q.fields else AddOnce(q.fields, key.value)
    ensures ShowsRow(q, key, n)
  {
    KeysAreColumns(db, q);
    assert ValidTable(db, q.table);
    SelectedHas(db.columns(q.table), q.table, fields, q.with);
    if q.fields == [] {
      assert n.vals == n.row;
    }
  }

  /** Loaded nodes show what their queries ask for. */
  lemma {:induction false} LoadedShows(db: Database, columns: seq<Column>, q: Query, key: Option<Column>,
      fields: seq<Column>, n: Node, S: set<Node>)
    requires ValidDatabase(db) && ValidQuery(q) && n.row in db.rows(q.table)
    requires columns == Selected(db.columns(q.table), q.table, fields, q.with) && LoadedBy(db, columns, q, n, S)
    requires fields == if q.fields == [] || key.None? then q.fields else AddOnce(q.fields, key.value)
    ensures Shows(q, key, n, S)
    decreases q
  {
    ProjectedShows(db, q, key, fields, n);
    forall i, t | 0 <= i < |q.with| && t in TargetsOf(Lookup(n.edges, q.with[i].edge))
      ensures t in S && Shows(q.with[i].sub, AddedKey(q.with[i].edge), t, S)
    {
      EdgeShows(db, q.with[i], n.row, Lookup(n.edges, q.with[i].edge), t, S);
    }
  }

  lemma {:induction false} EdgeShows(db: Database, w: With, row: Row, v: Option<EdgeValue>, t: Node, S: set<Node>)
    requires ValidDatabase(db) && ValidWith(w) && EdgeBy(db, w, row, v, S) && t in TargetsOf(v)
    ensures t in S && Shows(w.sub, AddedKey(w.edge), t, S)
    decreases w
  {
    TargetInTable(db, w, row, TargetsOf(v), t);
    LoadedShows(db, SubColumns(db, w), w.sub, AddedKey(w.edge), SubFields(w), t, S);
  }

  /** The rows of a naive join are rows of the target table. */
  lemma TargetInTable(db: Database, w: With, row: Row, ts: seq<Node>, t: Node)
    requires Joins(db, w, row, SourceRows(ts)) && t in ts
    ensures t.row in db.rows(Target(w.edge))
  {
    RowOfNode(ts, t);
    MultisetMembers(SourceRows(ts), NaiveJoin(db, w, row));
    FirstOfEachSubset(RelatedRows(db, w, row), SubColumns(db, w));
    MultisetMembers(NaiveJoin(db, w, row), RelatedRows(db, w, row));
    FilterMember(db.rows(Target(w.edge)), Match(db, w, row), t.row);
  }

  /** The answer to a query, as nodes: the page of the rows that the builder asks for, in its order, each loaded and
      showing what is asked for. */
  ghost predicate Answered(d: Driver, q: Query, nodes: seq<Node>, S: set<Node>)
    reads S, NodeSet(nodes)
  {
    && Distinct(nodes)
    && Returns(d.db, q, SourceRows(nodes))
    && |nodes| == PageSize(|WantedRows(d.db, q)|, Or(q.limit, 0), Or(q.offset, 0))
    && forall n :: n in nodes ==> LoadedBy(d.db, SelectedBy(d.db, q), q, n, S) && Shows(q, None, n, S)
  }

  /** `query.All(ctx)`, that is `prepareQuery` and `sqlAll`. For any driver that honours its specification and
      any tree of requests the run ends as `QueryError` says; if it succeeds, the nodes are the rows got, each
      filled with the rows got for it and so loaded by the whole tree, and the builders are those that `After`
      tells. The errors that the loads raise for unexpected, nil or unknown keys do not occur. */
  method All(d: Driver, q: Query) returns (r: Result<seq<Node>, Error>, left: Query, ghost S: set<Node>)
    requires Honours(d) && ValidDatabase(d.db) && ValidQuery(q) && JoinsOf(q.preds) == []
    ensures fresh(S)
    ensures ErrorOf(r) == QueryError(d, q, q)
    ensures r.Ok? ==> SourceRows(r.value) == RowsGot(d, q) && Answered(d, q, r.value, S)
    ensures r.Ok? ==> forall n :: n in r.value ==> Filled(d, SelectedBy(d.db, q), q, RowsGot(d, q), n, S)
    ensures r.Ok? ==> left == After(d, q, q)
    decreases Height(q), 3
  {
    left, S := q, {};
    var columns;
    r, columns := ScanPlain(d, q);
    if r.Err? || |r.value| == 0 {
      return;
    }
    var nodes, err := r.value, None;
    err, left, S := LoadNodes(d, q, columns, nodes);
    if err.Some? {
      return Err(err.value), left, S;
    }
    AllLoaded(d, q, nodes, S);
  }

  /** `prepareQuery` and the scan: the answer as nodes. */
  method ScanPlain(d: Driver, q: Query) returns (r: Result<seq<Node>, Error>, columns: seq<Column>)
    requires Honours(d) && ValidDatabase(d.db) && ValidQuery(q) && JoinsOf(q.preds) == []
    ensures columns == SelectedBy(d.db, q)
    ensures r.Ok? ==> SourceRows(r.value) == RowsGot(d, q) && Sized(d, q, r.value)
    ensures r.Ok? ==> Prepared(d.db, q.table, columns, r.value) && KeysSelected(q.with, columns)
    ensures r.Ok? ==> fresh(NodeSet(r.value)) && JustMade(r.value, columns, EdgesOf(q.with))
    ensures r.Ok? ==> forall row :: row in RowsGot(d, q) ==> row in d.db.rows(q.table)
    ensures r.Err? ==> QueryError(d, q, q) == Some(r.error)
    ensures r.Ok? ==> QueryError(d, q, q) == if RowsGot(d, q) == [] then None else EdgesError(d, q, RowsGot(d, q), 0)
  {
    columns := QuerySpecColumns(d.db.columns(q.table), q);
    var bad := InvalidFieldOf(d.db, q);
    if bad.Some? {
      return Err(InvalidField(bad.value)), columns;
    }
    var spec := SpecOf(d.db, q);
    var answer := d.ask(spec);
    if answer.None? {
      return Err(DriverFailed(spec)), columns;
    }
    AnswerColumns(d.db, q, answer.value);
    var nodes := BuildNodes(answer.value, columns, EdgesOf(q.with));
    AnswerPrepares(d, q, columns, nodes);
    r := Ok(nodes);
  }

  /** The part of `sqlAll` after the scan. */
  method LoadNodes(d: Driver, q: Query, columns: seq<Column>, nodes: seq<Node>)
    returns (err: Option<Error>, left: Query, ghost S: set<Node>)
    requires Honours(d) && ValidDatabase(d.db) && ValidQuery(q)
    requires Prepared(d.db, q.table, columns, nodes) && nodes != [] && SourceRows(nodes) == RowsGot(d, q)
    requires KeysSelected(q.with, columns)
    requires JustMade(nodes, columns, EdgesOf(q.with))
    modifies NodeSet(nodes)
    ensures fresh(S - NodeSet(nodes))
    ensures err == EdgesError(d, q, RowsGot(d, q), 0)
    ensures err.None? ==> left == After(d, q, q)
    ensures err.None? ==> forall n :: n in nodes ==> Filled(d, columns, q, RowsGot(d, q), n, S)
    decreases Height(q), 2
  {
    ghost var below;
    err, left, below := LoadEdges(d, q, columns, nodes);
    S := below + NodeSet(nodes);
    if err.None? {
      forall n | n in nodes ensures Filled(d, columns, q, RowsGot(d, q), n, S) {
        BecomesFilled(d, columns, q, RowsGot(d, q), n, below, S);
      }
    }
  }

  /** A node whose edges are filled is a filled node. */
  lemma BecomesFilled(d: Driver, columns: seq<Column>, q: Query, rows: seq<Row>, n: Node, S: set<Node>, S': set<Node>)
    requires n in S' && S <= S' && n.vals == Project(n.row, columns) && n.loaded == EdgesOf(q.with)
    requires EdgesFilled(d, q, |q.with|, rows, n.row, n.edges, S)
    ensures Filled(d, columns, q, rows, n, S')
  {
    assert q.with[..|q.with|] == q.with;
    forall i | 0 <= i < |q.with| ensures EdgeFilled(d, q.with[i], rows, n.row, Lookup(n.edges, q.with[i].edge), S') {
      EdgeFilledGrows(d, q.with[i], rows, n.row, Lookup(n.edges, q.with[i].edge), S, S');
    }
  }

  /** Every row of the answer has the selected columns, if all chosen fields are columns. */
  lemma AnswerColumns(db: Database, q: Query, hits: seq<Hit>)
    requires ValidDatabase(db) && ValidQuery(q) && Answers(db, SpecOf(db, q), hits)
    requires forall c :: c in q.fields ==> c in db.columns(q.table)
    ensures forall h :: h in hits ==> h.row in db.rows(q.table)
    ensures forall h, c :: h in hits && c in SelectedBy(db, q) ==> c in h.row
  {
    var spec := SpecOf(db, q);
    CandidatesMatch(db, spec);
    if JoinsOf(q.preds) != [] {
      JoinedAnswer(db, spec, hits);
    } else {
      PlainAnswer(db, spec, hits);
    }
    forall h | h in hits ensures h.row in db.rows(q.table) {
      if JoinsOf(q.preds) == [] {
        var i :| 0 <= i < |hits| && hits[i] == h;
        assert RowsOf(hits)[i] == h.row;
        MultisetMembers(RowsOf(hits), Candidates(db, spec));
      } else {
        FilterMember(db.rows(spec.table), Matching(db, spec.preds), h.row);
      }
    }
    forall h | h in hits ensures forall c :: c in SelectedBy(db, q) ==> c in h.row {
      SelectedAreColumns(db, q, h.row);
    }
  }

  /** Valid fields select columns of the table only, so every row has them. */
  lemma SelectedAreColumns(db: Database, q: Query, row: Row)
    requires ValidDatabase(db) && ValidQuery(q) && row in db.rows(q.table)
    requires forall c :: c in q.fields ==> c in db.columns(q.table)
    ensures forall c :: c in SelectedBy(db, q) ==> c in row
  {
    KeysAreColumns(db, q);
    assert ValidTable(db, q.table);
    SelectedHas(db.columns(q.table), q.table, q.fields, q.with);
    forall c | c in SelectedBy(db, q) ensures c in row {
      if q.fields != [] && !(HasId(q.table) && c == ID) && c !in q.fields {
        var w :| w in q.with && ShapeOf(w.edge).ManyToOne? && ShapeOf(w.edge).fk == c;
      }
      assert c in db.columns(q.table);
      assert c in row.Keys;
    }
  }

  /** Nodes made from a plain answer are ready to be loaded. */
  lemma AnswerPrepares(d: Driver, q: Query, columns: seq<Column>, nodes: seq<Node>)
    requires Honours(d) && ValidDatabase(d.db) && ValidQuery(q) && JoinsOf(q.preds) == []
      && columns == SelectedBy(d.db, q)
    requires d.ask(SpecOf(d.db, q)).Some? && SourceRows(nodes) == RowsGot(d, q) && Distinct(nodes)
    requires forall n :: n in nodes ==> n.vals == Project(n.row, columns)
    ensures Prepared(d.db, q.table, columns, nodes) && KeysSelected(q.with, columns)
    ensures Sized(d, q, nodes)
    ensures forall row :: row in RowsGot(d, q) ==> row in d.db.rows(q.table)
  {
    var spec := SpecOf(d.db, q);
    SelectsKeys(d.db, q, q.fields);
    PlainRows(d, q);
    CandidatesMatch(d.db, spec);
    MultisetMembers(RowsGot(d, q), Candidates(d.db, spec));
    forall n | n in nodes ensures n.row in d.db.rows(q.table) {
      RowOfNode(nodes, n);
    }
    if HasId(q.table) {
      assert ValidTable(d.db, q.table);
      FilterUnique(d.db.rows(q.table), Matching(d.db, spec.preds));
      FirstOfEachSubset(MatchingRows(d.db, spec), spec.columns);
      SubsetUnique(RowsGot(d, q), MatchingRows(d.db, spec));
    }
    AnswerReturns(d.db, q, d.ask(spec).value);
    assert |nodes| == |SourceRows(nodes)|;
  }

  /** The nodes are the rows that the builder asks for. */
  ghost predicate Sized(d: Driver, q: Query, nodes: seq<Node>) {
    && Returns(d.db, q, SourceRows(nodes))
    && |nodes| == PageSize(|WantedRows(d.db, q)|, Or(q.limit, 0), Or(q.offset, 0))
  }

  /** Filled nodes of a run without error are loaded. */
  lemma AllLoaded(d: Driver, q: Query, nodes: seq<Node>, S: set<Node>)
    requires Honours(d) && ValidDatabase(d.db) && ValidQuery(q) && SourceRows(nodes) == RowsGot(d, q)
    requires forall row :: row in RowsGot(d, q) ==> row in d.db.rows(q.table)
    requires EdgesError(d, q, RowsGot(d, q), 0).None?
    requires forall n :: n in nodes ==> Filled(d, SelectedBy(d.db, q), q, RowsGot(d, q), n, S)
    ensures forall n :: n in nodes ==> LoadedBy(d.db, SelectedBy(d.db, q), q, n, S) && Shows(q, None, n, S)
  {
    forall n | n in nodes ensures LoadedBy(d.db, SelectedBy(d.db, q), q, n, S) && Shows(q, None, n, S) {
      RowOfNode(nodes, n);
      FilledIsLoaded(d, SelectedBy(d.db, q), q, RowsGot(d, q), n, S);
      LoadedShows(d.db, SelectedBy(d.db, q), q, None, q.fields, n, S);
    }
  }

  /** Rows taken from a list with unique ids, none more often than in the list, have unique ids. */
  lemma SubsetUnique(a: seq<Row>, b: seq<Row>)
    requires multiset(a) <= multiset(b) && UniqueIds(b)
    ensures UniqueIds(a)
  {
    UniqueRowsDistinct(b);
    MultisetMembers(a, b);
    forall i, j | 0 <= i < j < |a| ensures IdOf(a[i]) != IdOf(a[j]) {
      if a[i] == a[j] {
        DistinctCount(b, a[i]);
        TwiceCounted(a, i, j);
        assert false;
      }
      assert a[i] in b && a[j] in b;
    }
  }

  lemma TwiceCounted(a: seq<Row>, i: nat, j: nat)
    requires i < j < |a| && a[i] == a[j]
    ensures multiset(a)[a[i]] >= 2
  {
    assert a == a[..j] + [a[j]] + a[j + 1..];
    assert a[..j][i] == a[i];
    assert a[i] in multiset(a[..j]);
  }

  /** The edges of a query, loaded one after the other; each load changes its own edge field only. */
  method LoadEdges(d: Driver, q: Query, columns: seq<Column>, nodes: seq<Node>)
    returns (err: Option<Error>, left: Query, ghost S: set<Node>)
    requires Honours(d) && ValidDatabase(d.db) && ValidQuery(q)
    requires Prepared(d.db, q.table, columns, nodes) && nodes != []
    requires KeysSelected(q.with, columns)
    requires forall n :: n in nodes ==> n.edges == map[]
    modifies NodeSet(nodes)
    ensures fresh(S)
    ensures err == EdgesError(d, q, SourceRows(nodes), 0)
    ensures err.None? ==> left == q.(with := left.with) && LeftBehind(d, q, |q.with|, SourceRows(nodes), left.with)
    ensures err.None? ==> NodesFilled(d, q, |q.with|, nodes, S)
    decreases Height(q), 1
  {
    var ws: seq<With> := [];
    err, left, S := None, q, {};
    NothingFilled(d, q, nodes);
    for i := 0 to |q.with|
      invariant fresh(S)
      invariant err.None? && LeftBehind(d, q, i, SourceRows(nodes), ws)
      invariant EdgesError(d, q, SourceRows(nodes), 0) == EdgesError(d, q, SourceRows(nodes), i)
      invariant NodeSet(nodes) !! S && NodesFilled(d, q, i, nodes, S)
    {
      err, ws, S := LoadStep(d, q, i, columns, nodes, ws, S);
      if err.Some? {
        return;
      }
    }
    left := q.(with := ws);
  }

  /** One load in the list: the edges loaded before it stay as they are. */
  method LoadStep(d: Driver, q: Query, i: nat, columns: seq<Column>, nodes: seq<Node>, ws: seq<With>,
      ghost before: set<Node>)
    returns (err: Option<Error>, ws': seq<With>, ghost S: set<Node>)
    requires Honours(d) && ValidDatabase(d.db) && ValidQuery(q) && i < |q.with|
    requires Prepared(d.db, q.table, columns, nodes) && nodes != []
    requires KeysSelected(q.with, columns)
    requires NodeSet(nodes) !! before && NodesFilled(d, q, i, nodes, before)
      && LeftBehind(d, q, i, SourceRows(nodes), ws)
    modifies NodeSet(nodes)
    ensures fresh(S - before)
    ensures err == EdgeError(d, q.with[i], SourceRows(nodes))
    ensures err.None? ==> LeftBehind(d, q, i + 1, SourceRows(nodes), ws')
    ensures err.None? ==> NodesFilled(d, q, i + 1, nodes, S)
    decreases Height(q), 0
  {
    SubHeight(q, |q.with|, i);
    EdgeCanLoad(d, q, i, columns, nodes);
    EdgeNotYetLoaded(q, i);
    ghost var edges := FieldsOf(nodes);
    ghost var more;
    assert forall n :: n in nodes ==> n.edges == edges[n] && q.with[i].edge !in n.edges;
    var left;
    err, left, more := LoadEdge(d, q.with[i], columns, nodes);
    S := before + more;
    ws' := ws + [With(q.with[i].edge, left)];
    if err.Some? {
      return;
    }
    StepForAll(d, q, i, nodes, edges, before, more);
    OneMoreLeft(d, q, i, SourceRows(nodes), ws, left);
  }

  /** The builders that the loads of the first i edges leave behind. */
  ghost predicate LeftBehind(d: Driver, q: Query, i: nat, rows: seq<Row>, ws: seq<With>)
    requires i <= |q.with|
  {
    ws == AfterEdges(d, q, rows, i)
  }

  lemma OneMoreLeft(d: Driver, q: Query, i: nat, rows: seq<Row>, ws: seq<With>, left: Query)
    requires i < |q.with| && LeftBehind(d, q, i, rows, ws) && left == AfterEdge(d, q.with[i], rows)
    ensures LeftBehind(d, q, i + 1, rows, ws + [With(q.with[i].edge, left)])
  {
  }

  lemma StepForAll(d: Driver, q: Query, i: nat, nodes: seq<Node>, edges: map<Node, map<Edge, EdgeValue>>,
      before: set<Node>, more: set<Node>)
    requires ValidQuery(q) && i < |q.with|
    requires forall n :: n in nodes ==> n in edges && EdgesFilled(d, q, i, SourceRows(nodes), n.row, edges[n], before)
    requires forall n :: n in nodes ==> OnlyEdge(edges[n], n.edges, q.with[i].edge)
    requires forall n :: n in nodes ==>
      EdgeFilled(d, q.with[i], SourceRows(nodes), n.row, Lookup(n.edges, q.with[i].edge), more)
    ensures NodesFilled(d, q, i + 1, nodes, before + more)
  {
    forall n | n in nodes ensures EdgesFilled(d, q, i + 1, SourceRows(nodes), n.row, n.edges, before + more) {
      EdgesFilledStep(d, q, i, SourceRows(nodes), n.row, edges[n], n.edges, before, more);
    }
  }

  lemma EdgeCanLoad(d: Driver, q: Query, i: nat, columns: seq<Column>, nodes: seq<Node>)
    requires Honours(d) && ValidDatabase(d.db) && ValidQuery(q) && i < |q.with|
    requires Prepared(d.db, q.table, columns, nodes) && KeysSelected(q.with, columns)
    ensures CanLoad(d, q.with[i], columns, nodes)
  {
    assert q.with[i] in q.with;
  }

  /** The first i edges of the query are filled, and no others. */
  ghost predicate EdgesFilled(d: Driver, q: Query, i: nat, rows: seq<Row>, row: Row, edges: map<Edge, EdgeValue>,
      S: set<Node>)
    requires i <= |q.with|
    reads S
  {
    && edges.Keys <= EdgesOf(q.with[..i])
    && forall j :: 0 <= j < i ==> EdgeFilled(d, q.with[j], rows, row, Lookup(edges, q.with[j].edge), S)
  }

  ghost predicate NodesFilled(d: Driver, q: Query, i: nat, nodes: seq<Node>, S: set<Node>)
    requires i <= |q.with|
    reads NodeSet(nodes), S
  {
    forall n :: n in nodes ==> EdgesFilled(d, q, i, SourceRows(nodes), n.row, n.edges, S)
  }

  ghost function FieldsOf(nodes: seq<Node>): map<Node, map<Edge, EdgeValue>>
    reads NodeSet(nodes)
  {
    map n | n in nodes :: n.edges
  }

  lemma NothingFilled(d: Driver, q: Query, nodes: seq<Node>)
    requires forall n :: n in nodes ==> n.edges == map[]
    ensures NodesFilled(d, q, 0, nodes, {})
  {
  }

  lemma EdgeNotYetLoaded(q: Query, i: nat)
    requires ValidQuery(q) && i < |q.with|
    ensures q.with[i].edge !in EdgesOf(q.with[..i])
    ensures EdgesOf(q.with[..i + 1]) == EdgesOf(q.with[..i]) + {q.with[i].edge}
  {
    assert forall j :: 0 <= j < i ==> q.with[..i + 1][j] == q.with[..i][j];
  }

  lemma EdgesFilledStep(d: Driver, q: Query, i: nat, rows: seq<Row>, row: Row, before: map<Edge, EdgeValue>,
      after: map<Edge, EdgeValue>, S: set<Node>, more: set<Node>)
    requires ValidQuery(q) && i < |q.with|
    requires EdgesFilled(d, q, i, rows, row, before, S) && OnlyEdge(before, after, q.with[i].edge)
    requires EdgeFilled(d, q.with[i], rows, row, Lookup(after, q.with[i].edge), more)
    ensures EdgesFilled(d, q, i + 1, rows, row, after, S + more)
  {
    EdgeNotYetLoaded(q, i);
    var e := q.with[i].edge;
    assert after.Keys <= (after - {e}).Keys + {e};
    forall j | 0 <= j < i + 1 ensures EdgeFilled(d, q.with[j], rows, row, Lookup(after, q.with[j].edge), S + more) {
      if j == i {
        EdgeFilledGrows(d, q.with[i], rows, row, Lookup(after, e), more, S + more);
      } else {
        OnlyEdgeElsewhere(before, after, e, q.with[j].edge);
        EdgeFilledGrows(d, q.with[j], rows, row, Lookup(before, q.with[j].edge), S, S + more);
      }
    }
  }

  /** Loads one edge for all nodes. */
  method LoadEdge(d: Driver, w: With, columns: seq<Column>, nodes: seq<Node>)
    returns (err: Option<Error>, left: Query, ghost S: set<Node>)
    requires CanLoad(d, w, columns, nodes) && nodes != []
    requires forall n :: n in nodes ==> w.edge !in n.edges
    modifies NodeSet(nodes)
    ensures fresh(S)
    ensures err == EdgeError(d, w, SourceRows(nodes))
    ensures err.None? ==> left == AfterEdge(d, w, SourceRows(nodes))
    ensures err.None? ==> forall n :: n in nodes ==> OnlyEdge(old(n.edges), n.edges, w.edge)
    ensures err.None? ==> forall n :: n in nodes ==>
      EdgeFilled(d, w, SourceRows(nodes), n.row, Lookup(n.edges, w.edge), S)
    decreases Height(w.sub), 6
  {
    match ShapeOf(w.edge) {
      case ManyToOne(_, _) => err, left, S := LoadToOne(d, w, columns, nodes);
      case OneToMany(_, _) => err, left, S := LoadToMany(d, w, columns, nodes);
      case ManyToMany => err, left, S := LoadManyToMany(d, w, columns, nodes);
    }
  }

  /** The query of a many-to-one or one-to-many edge, restricted to the keys: `query.Where` and `query.All`. */
  method AskEdge(d: Driver, w: With, keys: seq<int>, ghost rows: seq<Row>)
    returns (r: Result<seq<Node>, Error>, left: Query, ghost S: set<Node>)
    requires Honours(d) && ValidDatabase(d.db) && ValidWith(w) && !ShapeOf(w.edge).ManyToMany?
    requires keys == RowKeys(w.edge, rows) && !Skipped(w.edge, rows)
    ensures fresh(S)
    ensures ErrorOf(r) == EdgeError(d, w, rows)
    ensures r.Ok? ==> Returned(d, w, rows, r.value, S) && left == AfterEdge(d, w, rows)
    decreases Height(w.sub), 4
  {
    var q := Narrow(w, keys);
    EdgeRun(d, w, rows);
    r, left, S := All(d, q);
    if r.Ok? {
      FilledAreReturned(d, w, rows, r.value, S);
    }
  }

  /** The restricted query of an edge is one that can be run, and it runs as the plan says. */
  lemma EdgeRun(d: Driver, w: With, rows: seq<Row>)
    requires ValidWith(w) && !Skipped(w.edge, rows)
    ensures var q := EdgeQuery(w, rows);
            && ValidQuery(q) && q.table == Target(w.edge) && Height(q) == Height(w.sub)
            && (JoinsOf(q.preds) == [] <==> !ShapeOf(w.edge).ManyToMany?)
            && QueryError(d, q, q) == EdgeError(d, w, rows) && After(d, q, q) == AfterEdge(d, w, rows)
  {
    var q := EdgeQuery(w, rows);
    SameHeight(w.sub, q, |w.sub.with|);
    NarrowIsValid(w, RowKeys(w.edge, rows));
    NarrowJoins(w, RowKeys(w.edge, rows));
    SameRun(d, q, w.sub);
  }

  lemma FilledAreReturned(d: Driver, w: With, rows: seq<Row>, neighbors: seq<Node>, S: set<Node>)
    requires !Skipped(w.edge, rows)
    requires var q := EdgeQuery(w, rows);
             SourceRows(neighbors) == RowsGot(d, q) && forall t :: t in neighbors ==>
               Filled(d, SelectedBy(d.db, q), q, RowsGot(d, q), t, S)
    ensures Returned(d, w, rows, neighbors, S)
  {
    var q := EdgeQuery(w, rows);
    assert SelectedBy(d.db, q) == SubColumns(d.db, w);
    forall t | t in neighbors ensures Filled(d, SubColumns(d.db, w), w.sub, Asked(d, w, rows), t, S) {
      SameFilled(d, SubColumns(d.db, w), q, w.sub, RowsGot(d, q), t, S);
    }
  }

  lemma NarrowIsValid(w: With, keys: seq<int>)
    requires ValidQuery(w.sub)
    ensures ValidQuery(Narrow(w, keys))
  {
  }

  /** How a run ends and what it leaves behind depends on the query and its edges alone. */
  lemma SameRun(d: Driver, q: Query, tree: Query)
    requires q.with == tree.with
    ensures QueryError(d, q, q) == QueryError(d, q, tree) && After(d, q, q) == After(d, q, tree)
  {
    SameError(d, q, tree, RowsGot(d, q), 0);
    SameAfter(d, q, tree, RowsGot(d, q), |q.with|);
  }

  /** `loadProxy`, `loadParent`, `loadUser`, `loadAccount` and both `loadGroup`. */
  method LoadToOne(d: Driver, w: With, columns: seq<Column>, nodes: seq<Node>)
    returns (err: Option<Error>, left: Query, ghost S: set<Node>)
    requires CanLoad(d, w, columns, nodes) && ShapeOf(w.edge).ManyToOne?
    requires forall n :: n in nodes ==> w.edge !in n.edges
    modifies NodeSet(nodes)
    ensures fresh(S)
    ensures err == EdgeError(d, w, SourceRows(nodes))
    ensures err.None? ==> left == AfterEdge(d, w, SourceRows(nodes))
    ensures err.None? ==> forall n :: n in nodes ==> OnlyEdge(old(n.edges), n.edges, w.edge)
    ensures err.None? ==> forall n :: n in nodes ==>
      EdgeFilled(d, w, SourceRows(nodes), n.row, Lookup(n.edges, w.edge), S)
    decreases Height(w.sub), 5
  {
    var ManyToOne(fk, nullable) := ShapeOf(w.edge);
    err, left, S := None, w.sub, {};
    var ids, nodeids := CollectKeys(nodes, fk, nullable);
    CollectedKeys(d, w, columns, nodes);
    if |ids| == 0 {
      forall n | n in nodes ensures EdgeFilled(d, w, SourceRows(nodes), n.row, Lookup(n.edges, w.edge), S) {
        SkippedFills(d, w, SourceRows(nodes), n.row, S);
      }
      return;
    }
    var r;
    r, left, S := AskEdge(d, w, ids, SourceRows(nodes));
    if r.Err? {
      return Some(r.error), left, S;
    }
    err := PlaceToOne(d, w, columns, nodes, nodeids, r.value, S);
  }

  /** The hand-out of a many-to-one load: it cannot fail, and fills every edge. */
  method PlaceToOne(ghost d: Driver, w: With, ghost columns: seq<Column>, nodes: seq<Node>,
      nodeids: map<int, seq<Node>>, neighbors: seq<Node>, ghost S: set<Node>)
    returns (err: Option<Error>)
    requires CanLoad(d, w, columns, nodes) && ShapeOf(w.edge).ManyToOne? && NodeSet(nodes) !! S
    requires nodeids == BucketsOf(nodes, ShapeOf(w.edge).fk, ShapeOf(w.edge).nullable)
    requires forall n :: n in nodes ==> w.edge !in n.edges
    requires EdgeError(d, w, SourceRows(nodes)).None? && Returned(d, w, SourceRows(nodes), neighbors, S)
    modifies NodeSet(nodes)
    ensures err.None?
    ensures forall n :: n in nodes ==> OnlyEdge(old(n.edges), n.edges, w.edge)
    ensures forall n :: n in nodes ==> EdgeFilled(d, w, SourceRows(nodes), n.row, Lookup(n.edges, w.edge), S)
  {
    var ManyToOne(fk, nullable) := ShapeOf(w.edge);
    ghost var before := FieldsOf(nodes);
    LoadableNodes(d, w, columns, nodes);
    CollectedKeys(d, w, columns, nodes);
    KeysAre(nodes, fk, nullable);
    ToOneExpected(d, w, SourceRows(nodes), neighbors, S);
    err := HandOutToOne(nodes, nodeids, neighbors, w.edge, fk, nullable);
    ToOneAll(d, w, columns, nodes, before, neighbors, S);
  }

  /** The outcome of a many-to-one load, for all nodes at once. */
  lemma ToOneAll(d: Driver, w: With, columns: seq<Column>, nodes: seq<Node>, before: map<Node, map<Edge, EdgeValue>>,
      neighbors: seq<Node>, S: set<Node>)
    requires CanLoad(d, w, columns, nodes) && ShapeOf(w.edge).ManyToOne?
    requires Loadable(d, w, SourceRows(nodes)) && Returned(d, w, SourceRows(nodes), neighbors, S)
    requires forall n :: n in nodes ==> n in before && w.edge !in before[n]
    requires forall n :: n in nodes ==>
      n.edges == EdgesToOne(before[n], Key(n.vals, ShapeOf(w.edge).fk, ShapeOf(w.edge).nullable), neighbors, w.edge)
    ensures forall n :: n in nodes ==> OnlyEdge(before[n], n.edges, w.edge)
    ensures forall n :: n in nodes ==> EdgeFilled(d, w, SourceRows(nodes), n.row, Lookup(n.edges, w.edge), S)
  {
    forall n | n in nodes
      ensures OnlyEdge(before[n], n.edges, w.edge)
        && EdgeFilled(d, w, SourceRows(nodes), n.row, Lookup(n.edges, w.edge), S)
    {
      ToOneFills(d, w, columns, nodes, n, before[n], neighbors, S);
    }
  }

  /** `loadChildren`, `loadAccountGroups`, `loadChannels`, `loadAdoptionDecisions` and both `loadUsageLogs`. */
  method LoadToMany(d: Driver, w: With, columns: seq<Column>, nodes: seq<Node>)
    returns (err: Option<Error>, left: Query, ghost S: set<Node>)
    requires CanLoad(d, w, columns, nodes) && ShapeOf(w.edge).OneToMany? && nodes != []
    requires forall n :: n in nodes ==> w.edge !in n.edges
    modifies NodeSet(nodes)
    ensures fresh(S)
    ensures err == EdgeError(d, w, SourceRows(nodes))
    ensures err.None? ==> left == AfterEdge(d, w, SourceRows(nodes))
    ensures err.None? ==> forall n :: n in nodes ==> OnlyEdge(old(n.edges), n.edges, w.edge)
    ensures err.None? ==> forall n :: n in nodes ==>
      EdgeFilled(d, w, SourceRows(nodes), n.row, Lookup(n.edges, w.edge), S)
    decreases Height(w.sub), 5
  {
    var fks, nodeids := CollectIds(nodes, w.edge);
    ghost var before := map n | n in nodes :: old(n.edges);
    CollectedKeys(d, w, columns, nodes);
    var r;
    r, left, S := AskEdge(d, w, fks, SourceRows(nodes));
    if r.Err? {
      return Some(r.error), left, S;
    }
    err := PlaceToMany(d, w, columns, nodes, nodeids, r.value, before, S);
  }

  /** The hand-out of a one-to-many load: it cannot fail, and fills every edge. */
  method PlaceToMany(ghost d: Driver, w: With, ghost columns: seq<Column>, ghost nodes: seq<Node>,
      nodeids: map<int, Node>, neighbors: seq<Node>, ghost before: map<Node, map<Edge, EdgeValue>>, ghost S: set<Node>)
    returns (err: Option<Error>)
    requires CanLoad(d, w, columns, nodes) && ShapeOf(w.edge).OneToMany? && NodeSet(nodes) !! S
    requires ById(nodes, nodeids)
    requires forall n :: n in nodes ==> n in before && n.edges == before[n][w.edge := Many([])]
    requires EdgeError(d, w, SourceRows(nodes)).None? && Returned(d, w, SourceRows(nodes), neighbors, S)
    modifies NodeSet(nodes)
    ensures err.None?
    ensures forall n :: n in nodes ==> OnlyEdge(before[n], n.edges, w.edge)
    ensures forall n :: n in nodes ==> EdgeFilled(d, w, SourceRows(nodes), n.row, Lookup(n.edges, w.edge), S)
  {
    var OneToMany(fk, nullable) := ShapeOf(w.edge);
    LoadableNodes(d, w, columns, nodes);
    CollectedKeys(d, w, columns, nodes);
    ByIdInNodes(nodes, nodeids);
    ToManyPlaced(d, w, nodes, nodeids, neighbors, S);
    err := HandOutToMany(nodes, nodeids, neighbors, w.edge, fk, nullable);
    ToManyAll(d, w, columns, nodes, nodeids, before, neighbors, S);
  }

  /** The outcome of a one-to-many load, for all nodes at once. */
  lemma ToManyAll(d: Driver, w: With, columns: seq<Column>, nodes: seq<Node>, byId: map<int, Node>,
      before: map<Node, map<Edge, EdgeValue>>, neighbors: seq<Node>, S: set<Node>)
    requires CanLoad(d, w, columns, nodes) && ShapeOf(w.edge).OneToMany? && ById(nodes, byId)
    requires Loadable(d, w, SourceRows(nodes)) && Returned(d, w, SourceRows(nodes), neighbors, S)
    requires forall n :: n in nodes ==> n in before
    requires forall n :: n in nodes ==>
      n.edges == EdgesToMany(before[n][w.edge := Many([])], w.edge, neighbors,
        GoesTo(byId, n, ShapeOf(w.edge).fk, ShapeOf(w.edge).nullable))
    ensures forall n :: n in nodes ==> OnlyEdge(before[n], n.edges, w.edge)
    ensures forall n :: n in nodes ==> EdgeFilled(d, w, SourceRows(nodes), n.row, Lookup(n.edges, w.edge), S)
  {
    var OneToMany(fk, nullable) := ShapeOf(w.edge);
    forall n | n in nodes
      ensures OnlyEdge(before[n], n.edges, w.edge)
        && EdgeFilled(d, w, SourceRows(nodes), n.row, Lookup(n.edges, w.edge), S)
    {
      InitiallyEmpty(before[n], w.edge, neighbors, GoesTo(byId, n, fk, nullable));
      ToManyFills(d, w, columns, nodes, byId, n, neighbors, S);
    }
  }

  /** `loadGroups`. The owners of each neighbour are collected while the joined rows are scanned; a repeated
      neighbour makes no second node, and the neighbours' own edges are loaded before they are handed out. */
  method LoadManyToMany(d: Driver, w: With, columns: seq<Column>, nodes: seq<Node>)
    returns (err: Option<Error>, left: Query, ghost S: set<Node>)
    requires CanLoad(d, w, columns, nodes) && ShapeOf(w.edge).ManyToMany? && nodes != []
    requires forall n :: n in nodes ==> w.edge !in n.edges
    modifies NodeSet(nodes)
    ensures fresh(S)
    ensures err == EdgeError(d, w, SourceRows(nodes))
    ensures err.None? ==> left == AfterEdge(d, w, SourceRows(nodes))
    ensures err.None? ==> forall n :: n in nodes ==> OnlyEdge(old(n.edges), n.edges, w.edge)
    ensures err.None? ==> forall n :: n in nodes ==>
      EdgeFilled(d, w, SourceRows(nodes), n.row, Lookup(n.edges, w.edge), S)
    decreases Height(w.sub), 5
  {
    var edgeIds, byId := CollectIds(nodes, w.edge);
    ghost var before := map n | n in nodes :: old(n.edges);
    CollectedKeys(d, w, columns, nodes);
    var r, nids;
    r, nids, left, S := AllJoined(d, w, edgeIds, byId, SourceRows(nodes));
    if r.Err? {
      return Some(r.error), left, S;
    }
    err := PlaceManyToMany(d, w, columns, nodes, byId, nids, r.value, before, S);
  }

  /** The hand-out of a many-to-many load: it cannot fail, and fills every edge. */
  method PlaceManyToMany(ghost d: Driver, w: With, ghost columns: seq<Column>, ghost nodes: seq<Node>,
      ghost byId: map<int, Node>, nids: map<int, set<Node?>>, neighbors: seq<Node>,
      ghost before: map<Node, map<Edge, EdgeValue>>, ghost S: set<Node>)
    returns (err: Option<Error>)
    requires CanLoad(d, w, columns, nodes) && ShapeOf(w.edge).ManyToMany? && NodeSet(nodes) !! S
    requires ById(nodes, byId) && nids == OwnersOf(HitsOf(d, SpecOf(d.db, EdgeQuery(w, SourceRows(nodes)))), byId)
    requires forall n :: n in nodes ==> n in before && n.edges == before[n][w.edge := Many([])]
    requires EdgeError(d, w, SourceRows(nodes)).None? && Returned(d, w, SourceRows(nodes), neighbors, S)
    modifies NodeSet(nodes)
    ensures err.None?
    ensures forall n :: n in nodes ==> OnlyEdge(before[n], n.edges, w.edge)
    ensures forall n :: n in nodes ==> EdgeFilled(d, w, SourceRows(nodes), n.row, Lookup(n.edges, w.edge), S)
  {
    ghost var hits := HitsOf(d, SpecOf(d.db, EdgeQuery(w, SourceRows(nodes))));
    LoadableNodes(d, w, columns, nodes);
    CollectedKeys(d, w, columns, nodes);
    JoinedOwned(d, w, nodes, byId, neighbors, S);
    OwnersInNodes(hits, nodes, byId);
    err := HandOutToOwners(nodes, nids, neighbors, w.edge);
    ManyToManyAll(d, w, columns, nodes, byId, before, neighbors, S);
  }

  /** The outcome of a many-to-many load, for all nodes at once. */
  lemma ManyToManyAll(d: Driver, w: With, columns: seq<Column>, nodes: seq<Node>, byId: map<int, Node>,
      before: map<Node, map<Edge, EdgeValue>>, neighbors: seq<Node>, S: set<Node>)
    requires CanLoad(d, w, columns, nodes) && ShapeOf(w.edge).ManyToMany? && ById(nodes, byId)
    requires Loadable(d, w, SourceRows(nodes)) && Returned(d, w, SourceRows(nodes), neighbors, S)
    requires forall n :: n in nodes ==> n in before
    requires var owners := OwnersOf(HitsOf(d, SpecOf(d.db, EdgeQuery(w, SourceRows(nodes)))), byId);
             forall n :: n in nodes ==>
               n.edges == EdgesToMany(before[n][w.edge := Many([])], w.edge, neighbors, ComesWith(owners, n))
    ensures forall n :: n in nodes ==> OnlyEdge(before[n], n.edges, w.edge)
    ensures forall n :: n in nodes ==> EdgeFilled(d, w, SourceRows(nodes), n.row, Lookup(n.edges, w.edge), S)
  {
    var owners := OwnersOf(HitsOf(d, SpecOf(d.db, EdgeQuery(w, SourceRows(nodes)))), byId);
    forall n | n in nodes
      ensures OnlyEdge(before[n], n.edges, w.edge)
        && EdgeFilled(d, w, SourceRows(nodes), n.row, Lookup(n.edges, w.edge), S)
    {
      InitiallyEmpty(before[n], w.edge, neighbors, ComesWith(owners, n));
      ManyToManyFills(d, w, columns, nodes, byId, n, neighbors, S);
    }
  }

  /** The query of a many-to-many edge, joined for good with account_groups, with the wrapped callbacks:
      `query.Where`, `prepareQuery`, and `sqlAll` with a hook. */
  method AllJoined(d: Driver, w: With, ids: seq<int>, byId: map<int, Node>, ghost rows: seq<Row>)
    returns (r: Result<seq<Node>, Error>, nids: map<int, set<Node?>>, left: Query, ghost S: set<Node>)
    requires Honours(d) && ValidDatabase(d.db) && ValidWith(w) && ShapeOf(w.edge).ManyToMany?
      && ids == RowKeys(w.edge, rows)
    ensures fresh(S)
    ensures ErrorOf(r) == EdgeError(d, w, rows)
    ensures r.Ok? ==> Returned(d, w, rows, r.value, S) && left == AfterEdge(d, w, rows)
    ensures r.Ok? ==> nids == OwnersOf(HitsOf(d, SpecOf(d.db, EdgeQuery(w, rows))), byId)
    decreases Height(w.sub), 4
  {
    var q := Narrow(w, ids);
    EdgeRun(d, w, rows);
    r, nids, left, S := RunJoined(d, q, byId);
    if r.Ok? {
      FilledAreReturned(d, w, rows, r.value, S);
    }
  }

  /** `prepareQuery` and `sqlAll` with the hook. */
  method RunJoined(d: Driver, q: Query, byId: map<int, Node>)
    returns (r: Result<seq<Node>, Error>, nids: map<int, set<Node?>>, left: Query, ghost S: set<Node>)
    requires Honours(d) && ValidDatabase(d.db) && ValidQuery(q) && HasId(q.table) && JoinsOf(q.preds) != []
    ensures fresh(S)
    ensures ErrorOf(r) == QueryError(d, q, q)
    ensures r.Ok? ==> nids == OwnersOf(HitsOf(d, SpecOf(d.db, q)), byId) && left == After(d, q, q)
    ensures r.Ok? ==> SourceRows(r.value) == RowsGot(d, q)
    ensures r.Ok? ==> forall n :: n in r.value ==> Filled(d, SelectedBy(d.db, q), q, RowsGot(d, q), n, S)
    decreases Height(q), 3
  {
    left, S := q, {};
    var columns;
    r, columns, nids := ScanJoined(d, q, byId);
    if r.Err? || |r.value| == 0 {
      return;
    }
    var err;
    err, left, S := LoadNodes(d, q, columns, r.value);
    if err.Some? {
      r := Err(err.value);
    }
  }

  /** The first half of it: the answer as nodes and owners. */
  method ScanJoined(d: Driver, q: Query, byId: map<int, Node>)
    returns (r: Result<seq<Node>, Error>, columns: seq<Column>, nids: map<int, set<Node?>>)
    requires Honours(d) && ValidDatabase(d.db) && ValidQuery(q) && HasId(q.table) && JoinsOf(q.preds) != []
    ensures columns == SelectedBy(d.db, q) && KeysSelected(q.with, columns)
    ensures r.Ok? ==> nids == OwnersOf(HitsOf(d, SpecOf(d.db, q)), byId)
    ensures r.Ok? ==> SourceRows(r.value) == RowsGot(d, q) && Prepared(d.db, q.table, columns, r.value)
    ensures r.Ok? ==> fresh(NodeSet(r.value)) && JustMade(r.value, columns, EdgesOf(q.with))
    ensures r.Err? ==> QueryError(d, q, q) == Some(r.error)
    ensures r.Ok? ==> QueryError(d, q, q) == if RowsGot(d, q) == [] then None else EdgesError(d, q, RowsGot(d, q), 0)
  {
    nids := map[];
    columns := QuerySpecColumns(d.db.columns(q.table), q);
    SelectsKeys(d.db, q, q.fields);
    var bad := InvalidFieldOf(d.db, q);
    if bad.Some? {
      r := Err(InvalidField(bad.value));
      return;
    }
    var spec := SpecOf(d.db, q);
    var answer := d.ask(spec);
    if answer.None? {
      r := Err(DriverFailed(spec));
      return;
    }
    AnswerColumns(d.db, q, answer.value);
    JoinedAnswer(d.db, spec, answer.value);
    assert forall h :: h in answer.value ==> JoinedWith(d.db, JoinsOf(q.preds), h);
    var err, nodes;
    err, nodes, nids := BuildJoined(answer.value, columns, EdgesOf(q.with), byId, |JoinsOf(q.preds)|);
    if err.Some? {
      r := Err(err.value);
      return;
    }
    JoinPrepares(d, q, columns, nodes);
    r := Ok(nodes);
  }

  lemma JoinPrepares(d: Driver, q: Query, columns: seq<Column>, nodes: seq<Node>)
    requires ValidDatabase(d.db) && ValidQuery(q) && columns == SelectedBy(d.db, q)
    requires Answers(d.db, SpecOf(d.db, q), HitsOf(d, SpecOf(d.db, q))) && JoinsOf(q.preds) != []
    requires SourceRows(nodes) == RowsGot(d, q) && Distinct(nodes)
    requires forall n :: n in nodes ==> n.vals == Project(n.row, columns)
    ensures Prepared(d.db, q.table, columns, nodes)
  {
    SelectsKeys(d.db, q, q.fields);
    FirstSeenUnique(HitsOf(d, SpecOf(d.db, q)));
    JoinedAnswer(d.db, SpecOf(d.db, q), HitsOf(d, SpecOf(d.db, q)));
    forall n | n in nodes ensures n.row in d.db.rows(q.table) {
      RowOfNode(nodes, n);
      FirstSeenFrom(HitsOf(d, SpecOf(d.db, q)), n.row);
      FilterMember(d.db.rows(q.table), Matching(d.db, q.preds), n.row);
    }
  }

  /** The field check of `prepareQuery`. */
  method InvalidFieldOf(db: Database, q: Query) returns (bad: Option<Column>)
    ensures bad == FirstInvalid(q.fields, db.columns(q.table))
    ensures bad.None? <==> forall c :: c in q.fields ==> c in db.columns(q.table)
  {
    FirstInvalidIs(q.fields, db.columns(q.table));
    for i := 0 to |q.fields|
      invariant FirstInvalid(q.fields, db.columns(q.table)) == FirstInvalid(q.fields[i..], db.columns(q.table))
    {
      assert q.fields[i..][1..] == q.fields[i + 1..];
      if q.fields[i] !in db.columns(q.table) {
        return Some(q.fields[i]);
      }
    }
    return None;
  }
}
