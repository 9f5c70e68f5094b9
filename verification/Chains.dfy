/** How deep nested requests for parents and for children go, cyclic keys included. */
module Chains {
  import opened Wrappers
  import opened Schema
  import opened Sequences
  import opened Relational
  import opened LoadPlan
  import opened HandOut
  import opened EagerLoad
  import opened LoadProperties

  // ---------------------------------------------------------------- rows

  ghost predicate ParentRow(db: Database, row: Row, parent: Row) {
    parent in db.rows(Account) && Cell(row, ParentAccountID) == Some(IdOf(parent))
  }

  ghost predicate HasParent(db: Database, row: Row) {
    exists parent :: ParentRow(db, row, parent)
  }

  /** From the row one can go up k times. */
  ghost predicate HasAncestors(db: Database, row: Row, k: nat)
    decreases k
  {
    k == 0 || exists parent :: ParentRow(db, row, parent) && HasAncestors(db, parent, k - 1)
  }

  ghost predicate HasParentIn(db: Database, row: Row, rows: set<Row>) {
    exists parent :: ParentRow(db, row, parent) && parent in rows
  }

  /** Every row of the set has a parent in the set: since a table is finite, the parent links run in cycles. Other
      accounts may have no parent. */
  ghost predicate ClosedUpwards(db: Database, rows: set<Row>) {
    forall row {:trigger HasParentIn(db, row, rows)} :: row in rows ==> HasParentIn(db, row, rows)
  }

  lemma {:induction false} CyclesGoUpForever(db: Database, rows: set<Row>, row: Row, k: nat)
    requires ClosedUpwards(db, rows) && row in rows
    ensures HasAncestors(db, row, k)
    decreases k
  {
    if k > 0 {
      assert HasParentIn(db, row, rows);
      var parent :| ParentRow(db, row, parent) && parent in rows;
      CyclesGoUpForever(db, rows, parent, k - 1);
    }
  }

  ghost predicate ChildRow(db: Database, row: Row, child: Row) {
    child in db.rows(Account) && Cell(child, ParentAccountID) == Some(IdOf(row))
  }

  /** Every row of the path after the first is a child of the one before. */
  ghost predicate ChildPath(db: Database, path: seq<Row>) {
    forall i, j :: 0 <= i < j < |path| && j == i + 1 ==> ChildRow(db, path[i], path[j])
  }

  ghost predicate HasChildIn(db: Database, row: Row, rows: set<Row>) {
    exists child :: ChildRow(db, row, child) && child in rows
  }

  /** Every row of the set has a child in the set. */
  ghost predicate ClosedDownwards(db: Database, rows: set<Row>) {
    forall row {:trigger HasChildIn(db, row, rows)} :: row in rows ==> HasChildIn(db, row, rows)
  }

  lemma {:induction false} CyclesGoDownForever(db: Database, rows: set<Row>, row: Row, k: nat) returns (path: seq<Row>)
    requires ClosedDownwards(db, rows) && row in rows
    ensures |path| == k + 1 && path[0] == row && ChildPath(db, path)
    decreases k
  {
    if k == 0 {
      return [row];
    }
    assert HasChildIn(db, row, rows);
    var child :| ChildRow(db, row, child) && child in rows;
    var rest := CyclesGoDownForever(db, rows, child, k - 1);
    path := [row] + rest;
    LongerPath(db, row, rest);
  }

  lemma LongerPath(db: Database, row: Row, rest: seq<Row>)
    requires rest != [] && ChildPath(db, rest) && ChildRow(db, row, rest[0])
    ensures ChildPath(db, [row] + rest)
  {
    var path := [row] + rest;
    forall i, j | 0 <= i < j < |path| && j == i + 1 ensures ChildRow(db, path[i], path[j]) {
      assert path[j] == rest[i];
      assert i > 0 ==> path[i] == rest[i - 1];
    }
  }

  // ---------------------------------------------------------------- parents

  /** `WithParent` nested k times. */
  function Parents(k: nat): Query {
    Query(Account, [], [], [], None, None, None, if k == 0 then [] else [With(AccountParent, Parents(k - 1))])
  }

  /** The node is what `WithParent` nested k times loads. */
  ghost predicate AtDepth(db: Database, columns: seq<Column>, k: nat, n: Node, S: set<Node>)
    reads S
  {
    LoadedBy(db, columns, Parents(k), n, S)
  }

  /** Each node's parent accessor returns the next node, the node of the parent row. The last node's parent is not
      loaded if k parents were followed; otherwise it is not found, and there is none. */
  ghost predicate ParentChain(db: Database, chain: seq<Node>, k: nat)
    reads NodeSet(chain)
  {
    && 0 < |chain| <= k + 1
    && (forall i :: 0 <= i < |chain| - 1 ==> ParentStep(db, chain[i], chain[i + 1]))
    && var last := chain[|chain| - 1];
       if |chain| == k + 1 then OneOrErr(last, AccountParent).NotLoaded?
       else OneOrErr(last, AccountParent).NotFound? && !HasParent(db, last.row)
  }

  ghost predicate ParentStep(db: Database, n: Node, t: Node)
    reads n, t
  {
    OneOrErr(n, AccountParent) == Found(t) && ParentRow(db, n.row, t.row)
  }

  /** Any node that `WithParent` nested k times loads: the parents can be followed exactly k times, or up to the first
      account without a parent if that comes before. */
  lemma {:induction false} ParentsStopAtDepth(db: Database, columns: seq<Column>, k: nat, n: Node, S: set<Node>)
    returns (chain: seq<Node>)
    requires ValidDatabase(db) && AtDepth(db, columns, k, n, S)
    ensures ParentChain(db, chain, k) && chain[0] == n
    ensures |chain| == k + 1 <==> HasAncestors(db, n.row, k)
    decreases k
  {
    if k == 0 {
      NotLoadedIffNotRequested(db, columns, Parents(0), n, S, AccountParent);
      return [n];
    }
    if !HasParent(db, n.row) {
      NoParentFound(db, columns, k, n, S);
      return [n];
    }
    var t, below := FollowParent(db, columns, k, n, S);
    var rest := ParentsStopAtDepth(db, below, k - 1, t, S);
    chain := [n] + rest;
    LongerChain(db, n, rest, k - 1);
    OneParent(db, n.row, t.row, k);
  }

  lemma NoParentFound(db: Database, columns: seq<Column>, k: nat, n: Node, S: set<Node>)
    requires k > 0 && ValidDatabase(db) && AtDepth(db, columns, k, n, S) && !HasParent(db, n.row)
    ensures OneOrErr(n, AccountParent).NotFound?
  {
    var w := Parents(k).with[0];
    assert w == With(AccountParent, Parents(k - 1));
    UnpagedAccessor(db, columns, Parents(k), 0, n, S);
    if OneOrErr(n, AccountParent).Found? {
      JoinedIsParent(db, w, n.row, OneOrErr(n, AccountParent).value.row);
    }
  }

  lemma JoinedIsParent(db: Database, w: With, row: Row, x: Row)
    requires w.edge == AccountParent && w.sub.preds == [] && w.sub.unique.None?
    ensures x in NaiveJoin(db, w, row) <==> ParentRow(db, row, x)
  {
    FilterMember(db.rows(Account), Match(db, w, row), x);
  }

  /** Ids are unique, so a row has at most one parent. */
  lemma OneParent(db: Database, row: Row, parent: Row, k: nat)
    requires ValidDatabase(db) && ParentRow(db, row, parent) && k > 0
    ensures HasAncestors(db, row, k) <==> HasAncestors(db, parent, k - 1)
  {
    forall other | ParentRow(db, row, other) ensures other == parent {
      SameIdSameRow(db, Account, other, parent);
    }
  }

  lemma LongerChain(db: Database, n: Node, rest: seq<Node>, k: nat)
    requires ParentChain(db, rest, k) && ParentStep(db, n, rest[0])
    ensures ParentChain(db, [n] + rest, k + 1)
  {
    var chain := [n] + rest;
    forall i | 0 <= i < |chain| - 1 ensures ParentStep(db, chain[i], chain[i + 1]) {
      assert chain[i + 1] == rest[i];
      assert i > 0 ==> chain[i] == rest[i - 1];
    }
    assert chain[|chain| - 1] == rest[|rest| - 1];
  }

  lemma FollowParent(db: Database, columns: seq<Column>, k: nat, n: Node, S: set<Node>)
    returns (t: Node, below: seq<Column>)
    requires k > 0 && ValidDatabase(db) && AtDepth(db, columns, k, n, S) && HasParent(db, n.row)
    ensures ParentStep(db, n, t) && AtDepth(db, below, k - 1, t, S)
  {
    var w := Parents(k).with[0];
    below := SubColumns(db, w);
    assert w == With(AccountParent, Parents(k - 1));
    UnpagedAccessor(db, columns, Parents(k), 0, n, S);
    var parent :| ParentRow(db, n.row, parent);
    JoinedIsParent(db, w, n.row, parent);
    assert NaiveJoin(db, w, n.row) != [];
    t := OneOrErr(n, AccountParent).value;
    JoinedIsParent(db, w, n.row, t.row);
  }

  /** On a cycle of parent links the load still stops: exactly k parents can be followed. */
  lemma CyclesStopAtDepth(db: Database, columns: seq<Column>, k: nat, n: Node, S: set<Node>, cycle: set<Row>)
    returns (chain: seq<Node>)
    requires ValidDatabase(db) && AtDepth(db, columns, k, n, S)
    requires ClosedUpwards(db, cycle) && n.row in cycle
    ensures |chain| == k + 1 && chain[0] == n && ParentChain(db, chain, k)
  {
    chain := ParentsStopAtDepth(db, columns, k, n, S);
    CyclesGoUpForever(db, cycle, n.row, k);
  }

  lemma {:induction false} ParentsHeight(k: nat)
    ensures Height(Parents(k)) == k
  {
    if k > 0 {
      ParentsHeight(k - 1);
      var q := Parents(k);
      assert HeightUpTo(q, 0) == 0;
      assert HeightUpTo(q, 1) == 1 + Height(q.with[0].sub);
    }
  }

  // ---------------------------------------------------------------- children

  /** `WithChildren` nested k times. */
  function Children(k: nat): Query {
    Query(Account, [], [], [], None, None, None, if k == 0 then [] else [With(AccountChildren, Children(k - 1))])
  }

  /** The node is what `WithChildren` nested k times loads. */
  ghost predicate AtDepthDown(db: Database, columns: seq<Column>, k: nat, n: Node, S: set<Node>)
    reads S
  {
    LoadedBy(db, columns, Children(k), n, S)
  }

  ghost predicate ChildStep(n: Node, t: Node)
    reads n
  {
    ManyOrErr(n, AccountChildren).Found? && t in ManyOrErr(n, AccountChildren).value
  }

  /** Each node is in the list that the children accessor of the node before it returns. */
  ghost predicate ChildChain(chain: seq<Node>)
    reads NodeSet(chain)
  {
    chain != [] && forall i :: 0 <= i < |chain| - 1 ==> ChildStep(chain[i], chain[i + 1])
  }

  lemma JoinedIsChild(db: Database, w: With, row: Row)
    requires w.edge == AccountChildren && w.sub.preds == [] && w.sub.unique.None?
    ensures forall x :: x in NaiveJoin(db, w, row) <==> ChildRow(db, row, x)
  {
    forall x ensures x in NaiveJoin(db, w, row) <==> ChildRow(db, row, x) {
      FilterMember(db.rows(Account), Match(db, w, row), x);
    }
  }

  /** A node for every row, and no others. */
  lemma NodesOfRows(ts: seq<Node>, rows: seq<Row>)
    requires multiset(SourceRows(ts)) == multiset(rows)
    ensures forall t :: t in ts ==> t.row in rows
    ensures forall x :: x in rows ==> exists t :: t in ts && t.row == x
  {
    MultisetMembers(SourceRows(ts), rows);
    MultisetMembers(rows, SourceRows(ts));
    forall t | t in ts ensures t.row in rows {
      RowOfNode(ts, t);
    }
    forall x | x in rows ensures exists t :: t in ts && t.row == x {
      var i :| 0 <= i < |ts| && SourceRows(ts)[i] == x;
      assert ts[i] in ts;
    }
  }

  /** The children accessor of a node above the last level returns a node for every child row, and no others. */
  lemma ChildrenOf(db: Database, columns: seq<Column>, k: nat, n: Node, S: set<Node>) returns (below: seq<Column>)
    requires k > 0 && ValidDatabase(db) && AtDepthDown(db, columns, k, n, S)
    ensures ManyOrErr(n, AccountChildren).Found?
    ensures forall t :: t in ManyOrErr(n, AccountChildren).value ==>
      ChildRow(db, n.row, t.row) && AtDepthDown(db, below, k - 1, t, S)
    ensures forall child :: ChildRow(db, n.row, child) ==>
      exists t :: t in ManyOrErr(n, AccountChildren).value && t.row == child
  {
    var w := Children(k).with[0];
    assert w == With(AccountChildren, Children(k - 1));
    below := SubColumns(db, w);
    assert EdgeBy(db, w, n.row, Lookup(n.edges, AccountChildren), S);
    assert AccountChildren in EdgesOf(Children(k).with);
    NodesOfRows(TargetsOf(Lookup(n.edges, AccountChildren)), NaiveJoin(db, w, n.row));
    JoinedIsChild(db, w, n.row);
  }

  /** The children can be followed at most k times, whatever the links, and what is followed are child rows; the last of
      k levels is not loaded. */
  lemma {:induction false} ChildrenStopAtDepth(db: Database, columns: seq<Column>, k: nat, n: Node, S: set<Node>,
      chain: seq<Node>)
    requires ValidDatabase(db) && AtDepthDown(db, columns, k, n, S)
    requires ChildChain(chain) && chain[0] == n
    ensures |chain| <= k + 1 && ChildPath(db, SourceRows(chain))
    ensures ManyOrErr(chain[|chain| - 1], AccountChildren).NotLoaded? <==> |chain| == k + 1
    decreases k
  {
    if k == 0 {
      NotLoadedIffNotRequested(db, columns, Children(0), n, S, AccountChildren);
      return;
    }
    var below := ChildrenOf(db, columns, k, n, S);
    if |chain| == 1 {
      return;
    }
    assert ChildStep(chain[0], chain[1]);
    var rest := chain[1..];
    assert forall i :: 0 <= i < |rest| ==> rest[i] == chain[i + 1];
    ChildrenStopAtDepth(db, below, k - 1, chain[1], S, rest);
    LongerPath(db, n.row, SourceRows(rest));
    assert SourceRows(chain) == [n.row] + SourceRows(rest);
  }

  /** Every path of child rows of at most k steps can be followed. */
  lemma {:induction false} ChildPathsLoaded(db: Database, columns: seq<Column>, k: nat, n: Node, S: set<Node>,
      path: seq<Row>)
    returns (chain: seq<Node>)
    requires ValidDatabase(db) && AtDepthDown(db, columns, k, n, S)
    requires 0 < |path| <= k + 1 && path[0] == n.row && ChildPath(db, path)
    ensures ChildChain(chain) && chain[0] == n && SourceRows(chain) == path
    decreases k
  {
    if |path| == 1 {
      return [n];
    }
    var below := ChildrenOf(db, columns, k, n, S);
    var t :| t in ManyOrErr(n, AccountChildren).value && t.row == path[1];
    var rest := path[1..];
    assert forall i :: 0 <= i < |rest| ==> rest[i] == path[i + 1];
    var tail := ChildPathsLoaded(db, below, k - 1, t, S, rest);
    chain := [n] + tail;
    forall i | 0 <= i < |chain| - 1 ensures ChildStep(chain[i], chain[i + 1]) {
      assert chain[i + 1] == tail[i];
      assert i > 0 ==> chain[i] == tail[i - 1];
    }
    assert SourceRows(chain) == [n.row] + SourceRows(tail);
  }

  /** On a cycle of child links the load still stops: some chain of children has k steps, and none has more. */
  lemma ChildCyclesStopAtDepth(db: Database, columns: seq<Column>, k: nat, n: Node, S: set<Node>, cycle: set<Row>)
    returns (chain: seq<Node>)
    requires ValidDatabase(db) && AtDepthDown(db, columns, k, n, S)
    requires ClosedDownwards(db, cycle) && n.row in cycle
    ensures |chain| == k + 1 && chain[0] == n && ChildChain(chain)
    ensures ManyOrErr(chain[k], AccountChildren).NotLoaded?
    ensures forall other :: ChildChain(other) && other[0] == n ==> |other| <= k + 1
  {
    var path := CyclesGoDownForever(db, cycle, n.row, k);
    chain := ChildPathsLoaded(db, columns, k, n, S, path);
    assert |chain| == |SourceRows(chain)|;
    ChildrenStopAtDepth(db, columns, k, n, S, chain);
    forall other | ChildChain(other) && other[0] == n ensures |other| <= k + 1 {
      ChildrenStopAtDepth(db, columns, k, n, S, other);
    }
  }
}
