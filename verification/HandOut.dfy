/** The bookkeeping of the `load*` functions: nodes whose edges are filled in place, the maps that group
    keys, and the loops that hand returned neighbours to the nodes they belong to. */
module HandOut {
  import opened Wrappers
  import opened Schema
  import opened Sequences
  import opened Relational
  import opened LoadPlan

  /** The value of a loaded edge field. */
  datatype EdgeValue = One(target: Node) | Many(targets: seq<Node>)

  /** An entity: the scanned columns, the edges requested by the query that made it (`loadedTypes`), and
      the edge fields that are set. `row` is the database row behind it. */
  class Node {
    ghost const row: Row
    const vals: Row
    const loaded: set<Edge>
    var edges: map<Edge, EdgeValue>

    constructor (ghost row: Row, vals: Row, loaded: set<Edge>)
      ensures this.row == row && this.vals == vals && this.loaded == loaded && edges == map[]
    {
      this.row := row;
      this.vals := vals;
      this.loaded := loaded;
      edges := map[];
    }
  }

  ghost function NodeSet(nodes: seq<Node>): set<Node> {
    set n | n in nodes
  }

  ghost function SourceRows(nodes: seq<Node>): seq<Row> {
    seq(|nodes|, i requires 0 <= i < |nodes| => nodes[i].row)
  }

  function Lookup(edges: map<Edge, EdgeValue>, e: Edge): Option<EdgeValue> {
    if e in edges then Some(edges[e]) else None
  }

  function TargetsOf(v: Option<EdgeValue>): seq<Node> {
    match v
    case None => []
    case Some(One(t)) => [t]
    case Some(Many(ts)) => ts
  }

  // ---------------------------------------------------------------- handing out: many-to-one

  function HasKey(fk: Column, nullable: bool, k: int): Node -> bool {
    (n: Node) => Key(n.vals, fk, nullable) == Some(k)
  }

  /** The keys of the nodes in the order of first appearance. */
  function KeysOf(nodes: seq<Node>, fk: Column, nullable: bool): seq<int> {
    if nodes == [] then []
    else
      var before := KeysOf(nodes[..|nodes| - 1], fk, nullable);
      match Key(nodes[|nodes| - 1].vals, fk, nullable)
      case None => before
      case Some(k) => if k in before then before else before + [k]
  }

  /** Each key with the nodes that have it. */
  function BucketsOf(nodes: seq<Node>, fk: Column, nullable: bool): map<int, seq<Node>> {
    if nodes == [] then map[]
    else
      var n := nodes[|nodes| - 1];
      var before := BucketsOf(nodes[..|nodes| - 1], fk, nullable);
      match Key(n.vals, fk, nullable)
      case None => before
      case Some(k) => before[k := (if k in before then before[k] else []) + [n]]
  }

  /** The first loop of a many-to-one load. */
  method CollectKeys(nodes: seq<Node>, fk: Column, nullable: bool) returns (ids: seq<int>, nodeids: map<int, seq<Node>>)
    ensures ids == KeysOf(nodes, fk, nullable) && nodeids == BucketsOf(nodes, fk, nullable)
  {
    ids, nodeids := [], map[];
    for i := 0 to |nodes|
      invariant ids == KeysOf(nodes[..i], fk, nullable) && nodeids == BucketsOf(nodes[..i], fk, nullable)
      invariant forall k :: k in ids <==> k in nodeids
    {
      assert nodes[..i + 1][..i] == nodes[..i];
      var key := Key(nodes[i].vals, fk, nullable);
      if key.None? {
        continue;
      }
      var k := key.value;
      if k !in nodeids {
        ids := ids + [k];
      }
      nodeids := nodeids[k := (if k in nodeids then nodeids[k] else []) + [nodes[i]]];
    }
    assert nodes[..|nodes|] == nodes;
  }

  /** The ids are duplicate-free and are exactly the keys that are not nil. */
  lemma {:induction false} KeysAre(nodes: seq<Node>, fk: Column, nullable: bool)
    ensures Distinct(KeysOf(nodes, fk, nullable))
    ensures forall k :: k in KeysOf(nodes, fk, nullable) <==> k in BucketsOf(nodes, fk, nullable)
    ensures forall k :: k in KeysOf(nodes, fk, nullable) <==>
      exists n :: n in nodes && Key(n.vals, fk, nullable) == Some(k)
  {
    if nodes != [] {
      var i := |nodes| - 1;
      KeysAre(nodes[..i], fk, nullable);
      assert nodes == nodes[..i] + [nodes[i]];
    }
  }

  /** A bucket holds, in order, the nodes with its key: the buckets partition the nodes whose key is not nil. */
  lemma {:induction false} BucketIs(nodes: seq<Node>, fk: Column, nullable: bool, k: int)
    ensures Filter(nodes, HasKey(fk, nullable, k))
      == if k in BucketsOf(nodes, fk, nullable) then BucketsOf(nodes, fk, nullable)[k] else []
  {
    if nodes != [] {
      BucketIs(nodes[..|nodes| - 1], fk, nullable, k);
    }
  }

  lemma BucketMembers(nodes: seq<Node>, fk: Column, nullable: bool, k: int)
    requires k in BucketsOf(nodes, fk, nullable)
    ensures forall n :: n in BucketsOf(nodes, fk, nullable)[k] <==> n in nodes && Key(n.vals, fk, nullable) == Some(k)
  {
    BucketIs(nodes, fk, nullable, k);
    FilterMembers(nodes, HasKey(fk, nullable, k));
  }

  /** The neighbour has the wanted id. */
  function Wanted(key: Option<int>): Node -> bool {
    (n: Node) => key == Some(IdOf(n.vals))
  }

  /** A unique edge after the neighbours `ts` have been assigned to it in turn. */
  function AssignOne(edges: map<Edge, EdgeValue>, e: Edge, ts: seq<Node>): map<Edge, EdgeValue> {
    if ts == [] then edges else edges[e := One(ts[|ts| - 1])]
  }

  /** The edges of a node with the given key after a many-to-one load. */
  function EdgesToOne(edges: map<Edge, EdgeValue>, key: Option<int>, neighbors: seq<Node>, e: Edge)
    : map<Edge, EdgeValue>
  {
    AssignOne(edges, e, Filter(neighbors, Wanted(key)))
  }

  lemma EdgesToOneStart(edges: map<Edge, EdgeValue>, key: Option<int>, e: Edge)
    ensures EdgesToOne(edges, key, [], e) == edges
  {
  }

  lemma EdgesToOneStep(edges: map<Edge, EdgeValue>, key: Option<int>, neighbors: seq<Node>, i: nat, e: Edge)
    requires i < |neighbors|
    ensures EdgesToOne(edges, key, neighbors[..i + 1], e)
      == if key == Some(IdOf(neighbors[i].vals)) then EdgesToOne(edges, key, neighbors[..i], e)[e := One(neighbors[i])]
         else EdgesToOne(edges, key, neighbors[..i], e)
  {
    FilterStep(neighbors, i, Wanted(key));
  }

  /** `for i := range nodes { assign(nodes[i], n) }` */
  method AssignBucket(bucket: seq<Node>, e: Edge, neighbor: Node)
    modifies NodeSet(bucket)
    ensures forall n :: n in bucket ==> n.edges == old(n.edges)[e := One(neighbor)]
  {
    for j := 0 to |bucket|
      invariant forall n :: n in bucket ==> n.edges == if n in bucket[..j] then old(n.edges)[e := One(neighbor)]
        else old(n.edges)
    {
      bucket[j].edges := bucket[j].edges[e := One(neighbor)];
    }
  }

  /** One round of the second loop: the nodes that have the neighbour's id as their key are served. */
  method ServeKey(ghost nodes: seq<Node>, nodeids: map<int, seq<Node>>, neighbor: Node, e: Edge, fk: Column,
      nullable: bool)
    requires nodeids == BucketsOf(nodes, fk, nullable) && IdOf(neighbor.vals) in nodeids
    modifies NodeSet(nodes)
    ensures forall n :: n in nodes ==>
      n.edges == if Key(n.vals, fk, nullable) == Some(IdOf(neighbor.vals)) then old(n.edges)[e := One(neighbor)]
        else old(n.edges)
  {
    BucketMembers(nodes, fk, nullable, IdOf(neighbor.vals));
    AssignBucket(nodeids[IdOf(neighbor.vals)], e, neighbor);
  }

  /** The error names the first neighbour that no node asked for. */
  ghost predicate FirstUnasked(neighbors: seq<Node>, nodeids: map<int, seq<Node>>, e: Error) {
    exists i :: 0 <= i < |neighbors| && IdOf(neighbors[i].vals) !in nodeids
      && e == UnexpectedNode(IdOf(neighbors[i].vals))
      && forall n :: n in neighbors[..i] ==> IdOf(n.vals) in nodeids
  }

  /** The second loop of a many-to-one load. Every node with a returned key is served, also when several
      nodes share an id; the error occurs iff a neighbour is returned that no node asked for. */
  method HandOutToOne(nodes: seq<Node>, nodeids: map<int, seq<Node>>, neighbors: seq<Node>, e: Edge, fk: Column,
      nullable: bool)
    returns (err: Option<Error>)
    requires nodeids == BucketsOf(nodes, fk, nullable)
    modifies NodeSet(nodes)
    ensures err.Some? <==> exists n :: n in neighbors && IdOf(n.vals) !in nodeids
    ensures err.Some? ==> FirstUnasked(neighbors, nodeids, err.value)
    ensures err.None? ==> forall n :: n in nodes ==>
      n.edges == EdgesToOne(old(n.edges), Key(n.vals, fk, nullable), neighbors, e)
  {
    forall n | n in nodes ensures EdgesToOne(n.edges, Key(n.vals, fk, nullable), neighbors[..0], e) == n.edges {
      EdgesToOneStart(n.edges, Key(n.vals, fk, nullable), e);
    }
    for i := 0 to |neighbors|
      invariant forall n :: n in neighbors[..i] ==> IdOf(n.vals) in nodeids
      invariant forall n :: n in nodes ==>
        n.edges == EdgesToOne(old(n.edges), Key(n.vals, fk, nullable), neighbors[..i], e)
    {
      assert neighbors[i] in neighbors;
      var id := IdOf(neighbors[i].vals);
      if id !in nodeids {
        return Some(UnexpectedNode(id));
      }
      forall n | n in nodes
        ensures EdgesToOne(old(n.edges), Key(n.vals, fk, nullable), neighbors[..i + 1], e)
          == if Key(n.vals, fk, nullable) == Some(id) then n.edges[e := One(neighbors[i])] else n.edges
      {
        EdgesToOneStep(old(n.edges), Key(n.vals, fk, nullable), neighbors, i, e);
      }
      ServeKey(nodes, nodeids, neighbors[i], e, fk, nullable);
    }
    assert neighbors[..|neighbors|] == neighbors;
    return None;
  }

  // ---------------------------------------------------------------- handing out: one-to-many

  /** The last node with the id, which is the one that `byID` keeps. */
  function LastWithId(nodes: seq<Node>, id: int): Option<Node> {
    if nodes == [] then None
    else if IdOf(nodes[|nodes| - 1].vals) == id then Some(nodes[|nodes| - 1])
    else LastWithId(nodes[..|nodes| - 1], id)
  }

  function IdsOf(nodes: seq<Node>): seq<int> {
    seq(|nodes|, i requires 0 <= i < |nodes| => IdOf(nodes[i].vals))
  }

  /** The first loop of a one-to-many or many-to-many load: the ids, the node of each id, and the edge set
      to the empty list in every node. */
  method CollectIds(nodes: seq<Node>, e: Edge) returns (ids: seq<int>, byId: map<int, Node>)
    modifies NodeSet(nodes)
    ensures ids == IdsOf(nodes)
    ensures forall k :: k in byId <==> LastWithId(nodes, k).Some?
    ensures forall k :: k in byId ==> LastWithId(nodes, k) == Some(byId[k])
    ensures forall n :: n in nodes ==> n.edges == old(n.edges)[e := Many([])]
  {
    ids, byId := [], map[];
    for i := 0 to |nodes|
      invariant ids == IdsOf(nodes[..i])
      invariant forall k :: k in byId <==> LastWithId(nodes[..i], k).Some?
      invariant forall k :: k in byId ==> LastWithId(nodes[..i], k) == Some(byId[k])
      invariant forall n :: n in nodes ==> n.edges == if n in nodes[..i] then old(n.edges)[e := Many([])]
        else old(n.edges)
    {
      assert nodes[..i + 1][..i] == nodes[..i];
      ids := ids + [IdOf(nodes[i].vals)];
      byId := byId[IdOf(nodes[i].vals) := nodes[i]];
      nodes[i].edges := nodes[i].edges[e := Many([])];
    }
    assert nodes[..|nodes|] == nodes;
  }

  /** The neighbour goes to the node. */
  function GoesTo(byId: map<int, Node>, n: Node, fk: Column, nullable: bool): Node -> bool {
    (neighbor: Node) => var k := Key(neighbor.vals, fk, nullable); k.Some? && k.value in byId && byId[k.value] == n
  }

  predicate Placed(byId: map<int, Node>, neighbor: Node, fk: Column, nullable: bool) {
    var k := Key(neighbor.vals, fk, nullable);
    k.Some? && k.value in byId
  }

  function Append(edges: map<Edge, EdgeValue>, e: Edge, ts: seq<Node>): map<Edge, EdgeValue> {
    edges[e := Many(TargetsOf(Lookup(edges, e)) + ts)]
  }

  /** The edges of a node after a one-to-many or many-to-many load has gone over `neighbors`: those with `f`
      are appended to the list. */
  function EdgesToMany(edges: map<Edge, EdgeValue>, e: Edge, neighbors: seq<Node>, f: Node -> bool)
    : map<Edge, EdgeValue>
  {
    Append(edges, e, Filter(neighbors, f))
  }

  lemma EdgesToManyStart(edges: map<Edge, EdgeValue>, e: Edge, f: Node -> bool)
    requires e in edges && edges[e].Many?
    ensures EdgesToMany(edges, e, [], f) == edges
  {
    assert edges[e].targets + [] == edges[e].targets;
  }

  lemma EdgesToManyStep(edges: map<Edge, EdgeValue>, e: Edge, neighbors: seq<Node>, i: nat, f: Node -> bool)
    requires i < |neighbors|
    ensures EdgesToMany(edges, e, neighbors[..i + 1], f)
      == if f(neighbors[i]) then Append(EdgesToMany(edges, e, neighbors[..i], f), e, [neighbors[i]])
         else EdgesToMany(edges, e, neighbors[..i], f)
  {
    FilterStep(neighbors, i, f);
    var had, got := TargetsOf(Lookup(edges, e)), Filter(neighbors[..i], f);
    assert had + (got + [neighbors[i]]) == (had + got) + [neighbors[i]];
    assert got + [] == got;
  }

  /** The error names the key of the first neighbour that is not placed, or says that it is nil. */
  ghost predicate FirstUnplaced(neighbors: seq<Node>, byId: map<int, Node>, fk: Column, nullable: bool, e: Error) {
    exists i :: 0 <= i < |neighbors| && !Placed(byId, neighbors[i], fk, nullable)
      && (forall n :: n in neighbors[..i] ==> Placed(byId, n, fk, nullable))
      && var k := Key(neighbors[i].vals, fk, nullable);
         e == if k.None? then NilKey else UnexpectedNode(k.value)
  }

  /** The second loop of a one-to-many load: a stable partition of the neighbours over the nodes that
      `byId` holds. The error occurs iff some neighbour has a nil key or the key of no node. */
  method HandOutToMany(ghost nodes: seq<Node>, byId: map<int, Node>, neighbors: seq<Node>, e: Edge, fk: Column,
      nullable: bool)
    returns (err: Option<Error>)
    requires forall k :: k in byId ==> byId[k] in nodes
    requires forall n :: n in nodes ==> e in n.edges && n.edges[e].Many?
    modifies NodeSet(nodes)
    ensures err.Some? <==> exists n :: n in neighbors && !Placed(byId, n, fk, nullable)
    ensures err.Some? ==> FirstUnplaced(neighbors, byId, fk, nullable, err.value)
    ensures err.None? ==> forall n :: n in nodes ==>
      n.edges == EdgesToMany(old(n.edges), e, neighbors, GoesTo(byId, n, fk, nullable))
  {
    forall n | n in nodes {
      EdgesToManyStart(n.edges, e, GoesTo(byId, n, fk, nullable));
    }
    for i := 0 to |neighbors|
      invariant forall n :: n in neighbors[..i] ==> Placed(byId, n, fk, nullable)
      invariant forall n :: n in nodes ==>
        n.edges == EdgesToMany(old(n.edges), e, neighbors[..i], GoesTo(byId, n, fk, nullable))
    {
      assert neighbors[i] in neighbors;
      var k := Key(neighbors[i].vals, fk, nullable);
      if k.None? {
        return Some(NilKey);
      }
      if k.value !in byId {
        return Some(UnexpectedNode(k.value));
      }
      forall n | n in nodes
        ensures EdgesToMany(old(n.edges), e, neighbors[..i + 1], GoesTo(byId, n, fk, nullable))
          == if n == byId[k.value] then Append(n.edges, e, [neighbors[i]]) else n.edges
      {
        EdgesToManyStep(old(n.edges), e, neighbors, i, GoesTo(byId, n, fk, nullable));
      }
      var node := byId[k.value];
      node.edges := Append(node.edges, e, [neighbors[i]]);
    }
    assert neighbors[..|neighbors|] == neighbors;
    return None;
  }

  // ---------------------------------------------------------------- handing out: many-to-many

  /** The neighbour was returned together with the node. */
  function ComesWith(nids: map<int, set<Node?>>, n: Node): Node -> bool {
    (neighbor: Node) => IdOf(neighbor.vals) in nids && n in nids[IdOf(neighbor.vals)]
  }

  /** `for kn := range nodes { assign(kn, n) }`, in any order of the Go map. Assigning to a nil node panics. */
  method AssignSet(owners: set<Node?>, e: Edge, neighbor: Node, ghost nodes: seq<Node>) returns (err: Option<Error>)
    requires forall n :: n in owners && n != null ==> n in nodes
    requires forall n :: n in nodes ==> e in n.edges && n.edges[e].Many?
    modifies NodeSet(nodes)
    ensures err == if null in owners then Some(NilNode) else None
    ensures err.None? ==> forall n :: n in nodes ==>
      n.edges == if n in owners then Append(old(n.edges), e, [neighbor]) else old(n.edges)
  {
    var todo := owners;
    while todo != {}
      invariant todo <= owners
      invariant null in owners ==> null in todo
      invariant forall n :: n in nodes ==>
        n.edges == if n in owners && n !in todo then Append(old(n.edges), e, [neighbor]) else old(n.edges)
      decreases todo
    {
      var kn :| kn in todo;
      todo := todo - {kn};
      if kn == null {
        return Some(NilNode);
      }
      kn.edges := Append(kn.edges, e, [neighbor]);
    }
    return None;
  }

  /** The error names the first neighbour that was not returned, or is a nil owner of the first that has one. */
  ghost predicate FirstUnowned(neighbors: seq<Node>, nids: map<int, set<Node?>>, e: Error) {
    exists i :: 0 <= i < |neighbors|
      && (forall n :: n in neighbors[..i] ==> IdOf(n.vals) in nids && null !in nids[IdOf(n.vals)])
      && var id := IdOf(neighbors[i].vals);
         (id !in nids && e == UnexpectedNode(id)) || (id in nids && null in nids[id] && e == NilNode)
  }

  lemma UnownedAt(neighbors: seq<Node>, nids: map<int, set<Node?>>, i: nat, e: Error)
    requires i < |neighbors|
    requires forall n :: n in neighbors[..i] ==> IdOf(n.vals) in nids && null !in nids[IdOf(n.vals)]
    requires var id := IdOf(neighbors[i].vals);
             (id !in nids && e == UnexpectedNode(id)) || (id in nids && null in nids[id] && e == NilNode)
    ensures FirstUnowned(neighbors, nids, e)
  {
  }

  /** The last loop of a many-to-many load. The lists do not depend on the order in which the owners of a
      neighbour are visited. */
  method HandOutToOwners(ghost nodes: seq<Node>, nids: map<int, set<Node?>>, neighbors: seq<Node>, e: Edge)
    returns (err: Option<Error>)
    requires forall k, n :: k in nids && n in nids[k] && n != null ==> n in nodes
    requires forall n :: n in nodes ==> e in n.edges && n.edges[e].Many?
    modifies NodeSet(nodes)
    ensures err.Some? <==> exists n :: n in neighbors && (IdOf(n.vals) !in nids || null in nids[IdOf(n.vals)])
    ensures err.Some? ==> FirstUnowned(neighbors, nids, err.value)
    ensures err.None? ==> forall n :: n in nodes ==>
      n.edges == EdgesToMany(old(n.edges), e, neighbors, ComesWith(nids, n))
  {
    forall n | n in nodes {
      EdgesToManyStart(n.edges, e, ComesWith(nids, n));
    }
    for i := 0 to |neighbors|
      invariant forall n :: n in neighbors[..i] ==> IdOf(n.vals) in nids && null !in nids[IdOf(n.vals)]
      invariant forall n :: n in nodes ==> n.edges == EdgesToMany(old(n.edges), e, neighbors[..i], ComesWith(nids, n))
    {
      assert neighbors[i] in neighbors;
      var id := IdOf(neighbors[i].vals);
      if id !in nids {
        UnownedAt(neighbors, nids, i, UnexpectedNode(id));
        return Some(UnexpectedNode(id));
      }
      forall n | n in nodes
        ensures EdgesToMany(old(n.edges), e, neighbors[..i + 1], ComesWith(nids, n))
          == if n in nids[id] then Append(n.edges, e, [neighbors[i]]) else n.edges
      {
        EdgesToManyStep(old(n.edges), e, neighbors, i, ComesWith(nids, n));
      }
      err := AssignSet(nids[id], e, neighbors[i], nodes);
      if err.Some? {
        UnownedAt(neighbors, nids, i, NilNode);
        return;
      }
    }
    assert neighbors[..|neighbors|] == neighbors;
    return None;
  }
}
