/** Consequences of the eager-loading contracts: what the edge accessors report, what repeated ids do, and
    conservation of the returned rows. */
module LoadProperties {
  import opened Wrappers
  import opened Schema
  import opened Sequences
  import opened Relational
  import opened LoadPlan
  import opened HandOut
  import opened EagerLoad

  // ---------------------------------------------------------------- keys and tables

  /** The table whose ids a column holds. */
  function RefersTo(c: Column): Option<Table> {
    match c
    case ProxyID => Some(Proxy)
    case ParentAccountID | AccountID => Some(Account)
    case GroupID => Some(Group)
    case APIKeyID => Some(APIKey)
    case UserID => Some(User)
    case IdentityID => Some(AuthIdentity)
    case ID | Data(_) => None
  }

  /** The key of an edge refers to the table at its other end. */
  lemma KeysRefer(e: Edge)
    ensures ShapeOf(e).ManyToOne? ==> RefersTo(ShapeOf(e).fk) == Some(Target(e))
    ensures ShapeOf(e).OneToMany? ==> RefersTo(ShapeOf(e).fk) == Some(Source(e))
  {
  }

  /** What the schema says of each edge: which column of which row holds the other row's id. */
  predicate JoinedBy(db: Database, e: Edge, row: Row, other: Row) {
    match e
    case AccountGroups =>
      exists link :: link in db.rows(AccountGroup)
        && Cell(link, AccountID) == Some(IdOf(row)) && Cell(link, GroupID) == Some(IdOf(other))
    case AccountProxy => Cell(row, ProxyID) == Some(IdOf(other))
    case AccountParent => Cell(row, ParentAccountID) == Some(IdOf(other))
    case AccountChildren => Cell(other, ParentAccountID) == Some(IdOf(row))
    case AccountUsageLogs => Cell(other, AccountID) == Some(IdOf(row))
    case AccountAccountGroups => Cell(other, AccountID) == Some(IdOf(row))
    case APIKeyUser => Cell(row, UserID) == Some(IdOf(other))
    case APIKeyGroup => Cell(row, GroupID) == Some(IdOf(other))
    case APIKeyUsageLogs => Cell(other, APIKeyID) == Some(IdOf(row))
    case AccountGroupAccount => Cell(row, AccountID) == Some(IdOf(other))
    case AccountGroupGroup => Cell(row, GroupID) == Some(IdOf(other))
    case AuthIdentityUser => Cell(row, UserID) == Some(IdOf(other))
    case AuthIdentityChannels => Cell(other, IdentityID) == Some(IdOf(row))
    case AuthIdentityAdoptionDecisions => Cell(other, IdentityID) == Some(IdOf(row))
  }

  /** The naive join, edge by edge: the rows of the edge's table that satisfy the caller's predicates and whose key, or
      link, says that they belong to the row. */
  lemma JoinsByKeys(db: Database, w: With, row: Row, x: Row)
    ensures x in RelatedRows(db, w, row) <==>
      x in db.rows(Target(w.edge)) && JoinedBy(db, w.edge, row, x) && forall p :: p in w.sub.preds ==>
        Satisfies(db, p, x)
  {
    FilterMember(db.rows(Target(w.edge)), Match(db, w, row), x);
  }

  /** A to-one load for rows without keys asks nothing: it cannot fail, whatever the driver does, and gets nothing. */
  lemma NoKeysNoQuery(d: Driver, w: With, rows: seq<Row>)
    requires ShapeOf(w.edge).ManyToOne? && forall row :: row in rows ==> Cell(row, ShapeOf(w.edge).fk).None?
    ensures EdgeError(d, w, rows).None? && Asked(d, w, rows) == [] && AfterEdge(d, w, rows) == w.sub
  {
    NoKeys(rows, ShapeOf(w.edge).fk);
  }

  lemma {:induction false} NoKeys(rows: seq<Row>, fk: Column)
    requires forall row :: row in rows ==> Cell(row, fk).None?
    ensures KeysOfRows(rows, fk) == []
  {
    if rows != [] {
      NoKeys(rows[..|rows| - 1], fk);
    }
  }

  // ---------------------------------------------------------------- accessors

  datatype Access<T> = Found(value: T) | NotFound | NotLoaded

  /** `ProxyOrErr`, `ParentOrErr` and the other accessors of unique edges. */
  function OneOrErr(n: Node, e: Edge): Access<Node>
    reads n
  {
    if e in n.edges && n.edges[e].One? then Found(n.edges[e].target)
    else if e in n.loaded then NotFound
    else NotLoaded
  }

  /** `GroupsOrErr`, `ChildrenOrErr` and the other accessors of list edges. */
  function ManyOrErr(n: Node, e: Edge): Access<seq<Node>>
    reads n
  {
    if e in n.loaded then Found(TargetsOf(Lookup(n.edges, e))) else NotLoaded
  }

  /** An accessor says NotLoaded iff the query did not ask for the edge. */
  lemma NotLoadedIffNotRequested(db: Database, columns: seq<Column>, q: Query, n: Node, S: set<Node>, e: Edge)
    requires LoadedBy(db, columns, q, n, S)
    ensures ShapeOf(e).ManyToOne? ==> (OneOrErr(n, e).NotLoaded? <==> e !in EdgesOf(q.with))
    ensures !ShapeOf(e).ManyToOne? ==> (ManyOrErr(n, e).NotLoaded? <==> e !in EdgesOf(q.with))
  {
  }

  /** The accessor of a requested unique edge returns the node of the returned row that has the node's key, and
      says NotFound iff no row with that key was returned, whatever paging did to the answer. */
  lemma UniqueAccessor(d: Driver, columns: seq<Column>, q: Query, rows: seq<Row>, i: nat, n: Node, S: set<Node>)
    requires Filled(d, columns, q, rows, n, S) && i < |q.with| && ShapeOf(q.with[i].edge).ManyToOne?
    ensures var w := q.with[i];
            var asked := Asked(d, w, rows);
            match OneOrErr(n, w.edge)
            case NotLoaded => false
            case NotFound => forall x :: x in asked ==> Cell(n.row, ShapeOf(w.edge).fk) != Some(IdOf(x))
            case Found(t) =>
              (t.row in asked && Cell(n.row, ShapeOf(w.edge).fk) == Some(IdOf(t.row))
                && Filled(d, SubColumns(d.db, w), w.sub, asked, t, S))
  {
    var w := q.with[i];
    var v := Lookup(n.edges, w.edge);
    assert EdgeFilled(d, w, rows, n.row, v, S);
    assert w.edge in EdgesOf(q.with);
    if v.Some? {
      assert v.value.target in TargetsOf(v);
      TargetAsked(d, w, rows, n.row, TargetsOf(v), v.value.target);
      return;
    }
    assert SourceRows(TargetsOf(v)) == [];
    forall x | x in Asked(d, w, rows) ensures Cell(n.row, ShapeOf(w.edge).fk) != Some(IdOf(x)) {
      FilterMember(Asked(d, w, rows), BelongsTo(d, w, rows, n.row), x);
    }
  }

  /** If the edge's query is not paged, the row is the one row of the target table that joins. */
  lemma UnpagedAccessor(db: Database, columns: seq<Column>, q: Query, i: nat, n: Node, S: set<Node>)
    requires ValidDatabase(db) && LoadedBy(db, columns, q, n, S) && i < |q.with| && ShapeOf(q.with[i].edge).ManyToOne?
    requires !Paged(SpecOf(db, q.with[i].sub))
    ensures var joined := NaiveJoin(db, q.with[i], n.row);
            match OneOrErr(n, q.with[i].edge)
            case NotLoaded => false
            case NotFound => joined == []
            case Found(t) => joined == [t.row] && LoadedBy(db, SubColumns(db, q.with[i]), q.with[i].sub, t, S)
  {
    var v := Lookup(n.edges, q.with[i].edge);
    assert EdgeBy(db, q.with[i], n.row, v, S);
    assert q.with[i].edge in EdgesOf(q.with);
    if v.Some? {
      assert SourceRows(TargetsOf(v)) == [v.value.target.row];
      assert v.value.target in TargetsOf(v);
    }
    SingletonJoin(SourceRows(TargetsOf(v)), NaiveJoin(db, q.with[i], n.row));
  }

  lemma SingletonJoin(a: seq<Row>, b: seq<Row>)
    requires multiset(a) == multiset(b) && |a| <= 1
    ensures a == b
  {
    assert |multiset(a)| == |a| && |multiset(b)| == |b|;
    if |a| == 1 {
      assert b[0] in multiset(b);
    }
  }

  /** The accessor of a requested list edge returns the naive join, the empty list included. */
  lemma ListAccessor(db: Database, columns: seq<Column>, q: Query, i: nat, n: Node, S: set<Node>)
    requires LoadedBy(db, columns, q, n, S) && i < |q.with| && !ShapeOf(q.with[i].edge).ManyToOne?
    ensures var got := ManyOrErr(n, q.with[i].edge); got.Found? && Joins(db, q.with[i], n.row, SourceRows(got.value))
  {
    assert EdgeBy(db, q.with[i], n.row, Lookup(n.edges, q.with[i].edge), S);
    assert q.with[i].edge in EdgesOf(q.with);
  }

  // ---------------------------------------------------------------- repeated ids

  /** When several nodes of the slice have the same id, a one-to-many load gives every neighbour to the last
      of them: the earlier ones keep the empty list they were initialised with. */
  lemma LastOccurrenceTakesAll(nodes: seq<Node>, byId: map<int, Node>, n: Node, neighbors: seq<Node>, fk: Column,
      nullable: bool)
    requires ById(nodes, byId) && n in nodes
    ensures LastWithId(nodes, IdOf(n.vals)) != Some(n) ==> Filter(neighbors, GoesTo(byId, n, fk, nullable)) == []
    ensures LastWithId(nodes, IdOf(n.vals)) == Some(n) ==>
      Filter(neighbors, GoesTo(byId, n, fk, nullable)) == Filter(neighbors, HasKey(fk, nullable, IdOf(n.vals)))
  {
    forall neighbor | neighbor in neighbors
      ensures GoesTo(byId, n, fk, nullable)(neighbor) <==>
        LastWithId(nodes, IdOf(n.vals)) == Some(n) && HasKey(fk, nullable, IdOf(n.vals))(neighbor)
    {
      var key := Key(neighbor.vals, fk, nullable);
      if key.Some? {
        LastWithIdIs(nodes, key.value);
      }
    }
    if LastWithId(nodes, IdOf(n.vals)) == Some(n) {
      FilterSame(neighbors, GoesTo(byId, n, fk, nullable), HasKey(fk, nullable, IdOf(n.vals)));
    } else {
      FilterNone(neighbors, GoesTo(byId, n, fk, nullable));
    }
  }

  /** The neighbour was returned for the account. */
  function CameFor(hits: seq<Hit>, account: int): Node -> bool {
    (neighbor: Node) => exists h :: h in hits && h.Front() == account && IdOf(h.row) == IdOf(neighbor.vals)
  }

  /** The same for a many-to-many load: the last node with an id owns every neighbour that was returned for the
      id, an earlier one owns none. */
  lemma LastOccurrenceOwnsAll(nodes: seq<Node>, byId: map<int, Node>, hits: seq<Hit>, n: Node, neighbors: seq<Node>)
    requires ById(nodes, byId) && n in nodes
    ensures LastWithId(nodes, IdOf(n.vals)) != Some(n) ==> Filter(neighbors, ComesWith(OwnersOf(hits, byId), n)) == []
    ensures LastWithId(nodes, IdOf(n.vals)) == Some(n) ==>
      Filter(neighbors, ComesWith(OwnersOf(hits, byId), n)) == Filter(neighbors, CameFor(hits, IdOf(n.vals)))
  {
    OwnersAre(hits, byId);
    forall account ensures Owner(byId, account) == n ==>
      account == IdOf(n.vals) && LastWithId(nodes, account) == Some(n) {
      LastWithIdIs(nodes, account);
    }
    if LastWithId(nodes, IdOf(n.vals)) == Some(n) {
      forall t | t in neighbors ensures ComesWith(OwnersOf(hits, byId), n)(t) == CameFor(hits, IdOf(n.vals))(t) {
        OwnedByLast(nodes, byId, hits, n, t);
      }
      FilterSame(neighbors, ComesWith(OwnersOf(hits, byId), n), CameFor(hits, IdOf(n.vals)));
    } else {
      FilterNone(neighbors, ComesWith(OwnersOf(hits, byId), n));
    }
  }

  lemma OwnedByLast(nodes: seq<Node>, byId: map<int, Node>, hits: seq<Hit>, n: Node, t: Node)
    requires ById(nodes, byId) && LastWithId(nodes, IdOf(n.vals)) == Some(n)
    requires forall account :: Owner(byId, account) == n ==> account == IdOf(n.vals)
    ensures ComesWith(OwnersOf(hits, byId), n)(t) == CameFor(hits, IdOf(n.vals))(t)
  {
    OwnersAre(hits, byId);
    assert Owner(byId, IdOf(n.vals)) == n;
    if CameFor(hits, IdOf(n.vals))(t) {
      var h :| h in hits && h.Front() == IdOf(n.vals) && IdOf(h.row) == IdOf(t.vals);
      assert SeenId(hits, IdOf(t.vals));
    }
  }

  /** The list of a node after a to-many load over nodes whose ids may repeat. */
  function LastTakes(nodes: seq<Node>, n: Node, mine: seq<Node>): EdgeValue {
    Many(if LastWithId(nodes, IdOf(n.vals)) == Some(n) then mine else [])
  }

  /** The bookkeeping of a one-to-many load on any nodes: with repeated ids the last node takes everything that
      points at the id, the earlier ones are left with the empty list. */
  method AssignToMany(nodes: seq<Node>, neighbors: seq<Node>, e: Edge, fk: Column, nullable: bool)
    returns (err: Option<Error>)
    modifies NodeSet(nodes)
    ensures err.Some? <==> exists t :: t in neighbors && !Points(nodes, t, fk, nullable)
    ensures err.None? ==> forall n :: n in nodes ==>
      n.edges == old(n.edges)[e := LastTakes(nodes, n, Filter(neighbors, HasKey(fk, nullable, IdOf(n.vals))))]
  {
    var ids, byId := CollectIds(nodes, e);
    ghost var before := map n | n in nodes :: old(n.edges);
    ByIdInNodes(nodes, byId);
    PlacedPoints(nodes, byId, neighbors, fk, nullable);
    err := HandOutToMany(nodes, byId, neighbors, e, fk, nullable);
    if err.None? {
      forall n | n in nodes
        ensures n.edges == before[n][e := LastTakes(nodes, n, Filter(neighbors, HasKey(fk, nullable, IdOf(n.vals))))] {
        InitiallyEmpty(before[n], e, neighbors, GoesTo(byId, n, fk, nullable));
        LastOccurrenceTakesAll(nodes, byId, n, neighbors, fk, nullable);
      }
    }
  }

  /** The neighbour's key is the id of a node. */
  predicate Points(nodes: seq<Node>, t: Node, fk: Column, nullable: bool) {
    Key(t.vals, fk, nullable).Some? && Key(t.vals, fk, nullable).value in IdsOf(nodes)
  }

  lemma PlacedPoints(nodes: seq<Node>, byId: map<int, Node>, neighbors: seq<Node>, fk: Column, nullable: bool)
    requires ById(nodes, byId)
    ensures forall t :: t in neighbors ==> (Placed(byId, t, fk, nullable) <==> Points(nodes, t, fk, nullable))
  {
    forall t | t in neighbors ensures Placed(byId, t, fk, nullable) <==> Points(nodes, t, fk, nullable) {
      if Key(t.vals, fk, nullable).Some? {
        LastWithIdIs(nodes, Key(t.vals, fk, nullable).value);
      }
    }
  }

  /** The neighbour was returned, and only for ids of nodes. */
  predicate Owned(nodes: seq<Node>, hits: seq<Hit>, t: Node) {
    SeenId(hits, IdOf(t.vals)) && forall h :: h in hits && IdOf(h.row) == IdOf(t.vals) ==> h.Front() in IdsOf(nodes)
  }

  lemma OwnedHasOwners(nodes: seq<Node>, byId: map<int, Node>, hits: seq<Hit>, t: Node)
    requires ById(nodes, byId)
    ensures var nids := OwnersOf(hits, byId);
            Owned(nodes, hits, t) <==> IdOf(t.vals) in nids && null !in nids[IdOf(t.vals)]
  {
    OwnersAre(hits, byId);
    forall account ensures Owner(byId, account) == null <==> account !in IdsOf(nodes) {
      LastWithIdIs(nodes, account);
    }
  }

  /** The bookkeeping of a many-to-many load on any nodes, after the joined rows were scanned. */
  method AssignToOwners(nodes: seq<Node>, hits: seq<Hit>, neighbors: seq<Node>, e: Edge) returns (err: Option<Error>)
    modifies NodeSet(nodes)
    ensures err.Some? <==> exists t :: t in neighbors && !Owned(nodes, hits, t)
    ensures err.None? ==> forall n :: n in nodes ==>
      n.edges == old(n.edges)[e := LastTakes(nodes, n, Filter(neighbors, CameFor(hits, IdOf(n.vals))))]
  {
    var ids, byId := CollectIds(nodes, e);
    ghost var before := map n | n in nodes :: old(n.edges);
    var nids := OwnersOf(hits, byId);
    OwnersInNodes(hits, nodes, byId);
    forall t | t in neighbors ensures Owned(nodes, hits, t) <==> IdOf(t.vals) in nids && null !in nids[IdOf(t.vals)] {
      OwnedHasOwners(nodes, byId, hits, t);
    }
    err := HandOutToOwners(nodes, nids, neighbors, e);
    if err.None? {
      forall n | n in nodes
        ensures n.edges == before[n][e := LastTakes(nodes, n, Filter(neighbors, CameFor(hits, IdOf(n.vals))))] {
        InitiallyEmpty(before[n], e, neighbors, ComesWith(nids, n));
        LastOccurrenceOwnsAll(nodes, byId, hits, n, neighbors);
      }
    }
  }

  // ---------------------------------------------------------------- conservation

  /** The number of neighbours that a one-to-many load assigns, over all nodes. */
  function Assigned(nodes: seq<Node>, byId: map<int, Node>, neighbors: seq<Node>, fk: Column, nullable: bool): nat {
    if nodes == [] then 0
    else
      var n := nodes[|nodes| - 1];
      Assigned(nodes[..|nodes| - 1], byId, neighbors, fk, nullable) + |Filter(neighbors, GoesTo(byId, n, fk, nullable))|
  }

  lemma {:induction false} OneMore(nodes: seq<Node>, byId: map<int, Node>, neighbors: seq<Node>, x: Node, fk: Column,
      nullable: bool)
    requires Distinct(nodes) && Placed(byId, x, fk, nullable)
    ensures Assigned(nodes, byId, neighbors + [x], fk, nullable) == Assigned(nodes, byId, neighbors, fk, nullable)
      + if byId[Key(x.vals, fk, nullable).value] in nodes then 1 else 0
  {
    if nodes != [] {
      var i := |nodes| - 1;
      OneMore(nodes[..i], byId, neighbors, x, fk, nullable);
      FilterStep(neighbors + [x], |neighbors|, GoesTo(byId, nodes[i], fk, nullable));
      assert (neighbors + [x])[..|neighbors|] == neighbors && (neighbors + [x])[..|neighbors| + 1] == neighbors + [x];
      assert nodes == nodes[..i] + [nodes[i]];
    }
  }

  lemma {:induction false} NoneAssigned(nodes: seq<Node>, byId: map<int, Node>, fk: Column, nullable: bool)
    ensures Assigned(nodes, byId, [], fk, nullable) == 0
  {
    if nodes != [] {
      NoneAssigned(nodes[..|nodes| - 1], byId, fk, nullable);
    }
  }

  /** Nothing is lost or doubled: a one-to-many load that reports no error assigns as many neighbours as were
      returned, whether or not ids repeat among the nodes. */
  lemma {:induction false} EveryNeighborAssignedOnce(nodes: seq<Node>, byId: map<int, Node>, neighbors: seq<Node>,
      fk: Column, nullable: bool)
    requires Distinct(nodes) && ById(nodes, byId)
    requires forall n :: n in neighbors ==> Placed(byId, n, fk, nullable)
    ensures Assigned(nodes, byId, neighbors, fk, nullable) == |neighbors|
  {
    if neighbors == [] {
      NoneAssigned(nodes, byId, fk, nullable);
    } else {
      var i := |neighbors| - 1;
      EveryNeighborAssignedOnce(nodes, byId, neighbors[..i], fk, nullable);
      assert neighbors == neighbors[..i] + [neighbors[i]];
      assert Placed(byId, neighbors[i], fk, nullable);
      OneMore(nodes, byId, neighbors[..i], neighbors[i], fk, nullable);
      ByIdInNodes(nodes, byId);
    }
  }
}
