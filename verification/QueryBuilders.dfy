/** The mutable query builders: `Where`, `Order`, `Limit`, `With*` and `Clone`. Builders refer to each other
    by pointers; here a pointer is an index into the list of all builders made so far, so that sharing
    between builders is visible. */
module QueryBuilders {
  import opened Wrappers
  import opened Schema
  import opened Relational
  import opened LoadPlan

  /** A predicate that a caller can write; joins are added by many-to-many loads only. */
  type CallerPred = p: Pred | !p.JoinedTo? witness Holds(0)

  /** The fields of one builder. `modifiers` counts the lock modifiers added by `ForUpdate` and `ForShare`. */
  datatype BuilderCell = BuilderCell(
    table: Table,
    fields: seq<Column>,
    preds: seq<CallerPred>,
    order: seq<nat>,
    inters: seq<nat>,
    limit: Option<nat>,
    offset: Option<nat>,
    unique: Option<bool>,
    modifiers: nat,
    edges: map<Edge, nat>)

  type Heap = seq<BuilderCell>

  /** The fields of the builder structs that hold the builders of edges, in declaration order. */
  const EDGES: seq<Edge> := [
    AccountGroups, AccountProxy, AccountParent, AccountChildren, AccountUsageLogs, AccountAccountGroups,
    APIKeyUser, APIKeyGroup, APIKeyUsageLogs,
    AccountGroupAccount, AccountGroupGroup,
    AuthIdentityUser, AuthIdentityChannels, AuthIdentityAdoptionDecisions]

  /** The position of an edge in the list. */
  function Position(e: Edge): (i: nat)
    ensures i < |EDGES| && EDGES[i] == e
  {
    match e
    case AccountGroups => 0
    case AccountProxy => 1
    case AccountParent => 2
    case AccountChildren => 3
    case AccountUsageLogs => 4
    case AccountAccountGroups => 5
    case APIKeyUser => 6
    case APIKeyGroup => 7
    case APIKeyUsageLogs => 8
    case AccountGroupAccount => 9
    case AccountGroupGroup => 10
    case AuthIdentityUser => 11
    case AuthIdentityChannels => 12
    case AuthIdentityAdoptionDecisions => 13
  }

  lemma PositionOf(i: nat)
    requires i < |EDGES|
    ensures Position(EDGES[i]) == i
  {
  }

  /** What a caller does with builders. A `Load` is one of the `With*` methods: it makes a builder for the
      edge, runs the options, which may act on any builder, and only then attaches the new builder. */
  datatype Op =
    | Where(b: nat, ps: seq<CallerPred>)
    | Order(b: nat, os: seq<nat>)
    | Limit(b: nat, limit: nat)
    | Offset(b: nat, offset: nat)
    | Unique(b: nat, unique: bool)
    | Select(b: nat, fields: seq<Column>)
    | Lock(b: nat)
    | New(table: Table, inters: seq<nat>)
    | Load(b: nat, e: Edge, inters: seq<nat>, opts: seq<Op>)
    | Copy(b: nat)

  function Fresh(table: Table, inters: seq<nat>): BuilderCell {
    BuilderCell(table, [], [], [], inters, None, None, None, 0, map[])
  }

  // ---------------------------------------------------------------- the shape of the heap

  /** Every pointer goes to a builder made later, of the table that the edge leads to. */
  ghost predicate Forward(heap: Heap) {
    forall b, e :: 0 <= b < |heap| && e in heap[b].edges ==>
      b < heap[b].edges[e] < |heap| && Source(e) == heap[b].table && heap[heap[b].edges[e]].table == Target(e)
  }

  predicate PointsTo(heap: Heap, b: int, e: Edge, c: int) {
    0 <= b < |heap| && e in heap[b].edges && heap[b].edges[e] == c
  }

  /** No builder is attached in two places. */
  ghost predicate Unshared(heap: Heap) {
    forall b, e, b', e', c :: PointsTo(heap, b, e, c) && PointsTo(heap, b', e', c) ==> b == b' && e == e'
  }

  /** The builders below n point only to builders below n. */
  ghost predicate Closed(heap: Heap, n: nat) {
    n <= |heap| && forall b, e :: 0 <= b < n && e in heap[b].edges ==> heap[b].edges[e] < n
  }

  /** Nothing new points to the builders of `before`. */
  ghost predicate OldPointersKept(before: Heap, after: Heap) {
    && |before| <= |after|
    && forall b, e, c :: PointsTo(after, b, e, c) && c < |before| ==> PointsTo(before, b, e, c)
  }

  /** Builders keep their table, and the heap only grows. */
  ghost predicate Grows(before: Heap, after: Heap) {
    && |before| <= |after|
    && forall b :: 0 <= b < |before| ==> after[b].table == before[b].table
  }

  /** Nothing has changed but, at most, builder c. */
  ghost predicate SameBut(before: Heap, after: Heap, c: nat) {
    && |before| <= |after|
    && forall x :: 0 <= x < |before| && x != c ==> after[x] == before[x]
  }

  ghost predicate Extends(before: Heap, after: Heap) {
    && |before| <= |after|
    && forall x :: 0 <= x < |before| ==> after[x] == before[x]
  }

  function Attach(heap: Heap, c: nat, e: Edge, d: nat): Heap
    requires c < |heap|
  {
    heap[c := heap[c].(edges := heap[c].edges[e := d])]
  }

  lemma AttachForward(heap: Heap, c: nat, e: Edge, d: nat)
    requires Forward(heap) && c < d < |heap| && Source(e) == heap[c].table && heap[d].table == Target(e)
    ensures Forward(Attach(heap, c, e, d))
  {
  }

  lemma AppendForward(heap: Heap, cell: BuilderCell)
    requires Forward(heap) && cell.edges == map[]
    ensures Forward(heap + [cell])
  {
  }

  // ---------------------------------------------------------------- cloning

  /** What `Clone` copies of a builder besides its edges. Lock modifiers are not carried over. */
  function Copied(cell: BuilderCell): BuilderCell {
    cell.(modifiers := 0, edges := map[])
  }

  /** The heap with a copy of builder b < n and of everything below it at its end; the copy of b comes
      first. */
  function Clone(heap: Heap, n: nat, b: nat): (r: Heap)
    requires Forward(heap) && Closed(heap, n) && b < n
    ensures Forward(r) && |heap| < |r| && Extends(heap, r)
    ensures r[|heap|].(edges := map[]) == Copied(heap[b])
    decreases n - b, |EDGES| + 1
  {
    var copy := heap + [Copied(heap[b])];
    AppendForward(heap, Copied(heap[b]));
    CloneEdges(copy, n, b, |heap|, 0)
  }

  /** Builder c is becoming the copy of builder b; all builders below n are originals. */
  ghost predicate Copying(heap: Heap, n: nat, b: nat, c: nat) {
    Forward(heap) && Closed(heap, n) && b < n <= c < |heap| && heap[c].table == heap[b].table
  }

  /** Builder c has only edges of the first i positions. */
  ghost predicate EdgesBelow(heap: Heap, c: nat, i: nat) {
    c < |heap| && forall e :: e in heap[c].edges ==> Position(e) < i
  }

  /** Copies the builders of the edges EDGES[i], EDGES[i+1], ... of b below its copy c. */
  function CloneEdges(heap: Heap, n: nat, b: nat, c: nat, i: nat): (r: Heap)
    requires Copying(heap, n, b, c) && i <= |EDGES|
    ensures Forward(r) && SameBut(heap, r, c)
    ensures r[c].(edges := map[]) == heap[c].(edges := map[])
    ensures forall e :: Position(e) < i ==>
      && (e in r[c].edges <==> e in heap[c].edges)
      && (e in r[c].edges ==> r[c].edges[e] == heap[c].edges[e])
    decreases n - b, |EDGES| - i
  {
    if i == |EDGES| then heap
    else
      var e := EDGES[i];
      if e !in heap[b].edges then CloneEdges(heap, n, b, c, i + 1)
      else
        var below := Clone(heap, n, heap[b].edges[e]);
        AttachForward(below, c, e, |heap|);
        PositionOf(i);
        CloneEdges(Attach(below, c, e, |heap|), n, b, c, i + 1)
  }

  /** One round of `CloneEdges`: the heap with the edge EDGES[i] copied. */
  function CloneEdge(heap: Heap, n: nat, b: nat, c: nat, i: nat): (r: Heap)
    requires Copying(heap, n, b, c) && i < |EDGES| && EDGES[i] in heap[b].edges
    ensures |heap| < |r| && SameBut(heap, r, c) && Copying(r, n, b, c)
    ensures EdgesBelow(heap, c, i) ==> EdgesBelow(r, c, i + 1)
  {
    var below := Clone(heap, n, heap[b].edges[EDGES[i]]);
    AttachForward(below, c, EDGES[i], |heap|);
    PositionOf(i);
    Attach(below, c, EDGES[i], |heap|)
  }

  lemma CloneEdgesRound(heap: Heap, n: nat, b: nat, c: nat, i: nat)
    requires Copying(heap, n, b, c) && i < |EDGES|
    ensures CloneEdges(heap, n, b, c, i)
      == CloneEdges(if EDGES[i] in heap[b].edges then CloneEdge(heap, n, b, c, i) else heap, n, b, c, i + 1)
  {
  }

  /** The start and the end of the rounds. */
  lemma CloneStarts(heap: Heap, n: nat, b: nat)
    requires Forward(heap) && Closed(heap, n) && b < n
    ensures var copy := heap + [Copied(heap[b])];
            Copying(copy, n, b, |heap|) && Clone(heap, n, b) == CloneEdges(copy, n, b, |heap|, 0)
  {
    AppendForward(heap, Copied(heap[b]));
  }

  lemma CloneEnds(heap: Heap, n: nat, b: nat, c: nat)
    requires Copying(heap, n, b, c)
    ensures CloneEdges(heap, n, b, c, |EDGES|) == heap
  {
  }

  // ---------------------------------------------------------------- what a builder means

  /** A builder with everything below it, as a value. */
  datatype Tree = Tree(top: BuilderCell, subs: seq<Sub>)

  datatype Sub = Sub(edge: Edge, tree: Tree)

  function Unfold(heap: Heap, b: nat): Tree
    requires Forward(heap) && b < |heap|
    decreases |heap| - b, |EDGES| + 1
  {
    Tree(heap[b].(edges := map[]), Subs(heap, b, 0))
  }

  function Subs(heap: Heap, b: nat, i: nat): seq<Sub>
    requires Forward(heap) && b < |heap| && i <= |EDGES|
    decreases |heap| - b, |EDGES| - i
  {
    if i == |EDGES| then []
    else if EDGES[i] in heap[b].edges then [Sub(EDGES[i], Unfold(heap, heap[b].edges[EDGES[i]]))] + Subs(heap, b, i + 1)
    else Subs(heap, b, i + 1)
  }

  /** The tree without lock modifiers. */
  function Strip(t: Tree): Tree {
    Tree(t.top.(modifiers := 0),
      seq(|t.subs|, i requires 0 <= i < |t.subs| => Sub(t.subs[i].edge, Strip(t.subs[i].tree))))
  }

  function StripAll(subs: seq<Sub>): seq<Sub> {
    seq(|subs|, i requires 0 <= i < |subs| => Sub(subs[i].edge, Strip(subs[i].tree)))
  }

  /** The query that the engine runs. */
  function ToQuery(t: Tree): Query {
    Query(t.top.table, t.top.fields, t.top.preds, t.top.order, t.top.limit, t.top.offset, t.top.unique,
      seq(|t.subs|, i requires 0 <= i < |t.subs| => Relational.With(t.subs[i].edge, ToQuery(t.subs[i].tree))))
  }

  lemma {:induction false} StripKeepsQuery(t: Tree)
    ensures ToQuery(Strip(t)) == ToQuery(t)
    decreases t
  {
    forall i | 0 <= i < |t.subs| ensures ToQuery(Strip(t.subs[i].tree)) == ToQuery(t.subs[i].tree) {
      StripKeepsQuery(t.subs[i].tree);
    }
    assert ToQuery(Strip(t)).with == ToQuery(t).with;
  }

  /** A builder means the same in two heaps that agree on a range from which no pointer leaves. */
  lemma {:induction false} UnfoldFrame(heap: Heap, heap': Heap, lo: nat, hi: nat, b: nat)
    requires Forward(heap) && Forward(heap') && lo <= b < hi <= |heap| && hi <= |heap'|
    requires forall x :: lo <= x < hi ==> heap[x] == heap'[x]
    requires forall x, e :: lo <= x < hi && e in heap[x].edges ==> heap[x].edges[e] < hi
    ensures Unfold(heap, b) == Unfold(heap', b)
    decreases hi - b, |EDGES| + 1
  {
    SubsFrame(heap, heap', lo, hi, b, 0);
  }

  lemma {:induction false} SubsFrame(heap: Heap, heap': Heap, lo: nat, hi: nat, b: nat, i: nat)
    requires Forward(heap) && Forward(heap') && lo <= b < hi <= |heap| && hi <= |heap'| && i <= |EDGES|
    requires forall x :: lo <= x < hi ==> heap[x] == heap'[x]
    requires forall x, e :: lo <= x < hi && e in heap[x].edges ==> heap[x].edges[e] < hi
    ensures Subs(heap, b, i) == Subs(heap', b, i)
    decreases hi - b, |EDGES| - i
  {
    if i < |EDGES| {
      if EDGES[i] in heap[b].edges {
        UnfoldFrame(heap, heap', lo, hi, heap[b].edges[EDGES[i]]);
      }
      SubsFrame(heap, heap', lo, hi, b, i + 1);
    }
  }

  // ---------------------------------------------------------------- a clone is an equal tree

  /** The copy means what the original means, lock modifiers apart. */
  lemma {:induction false} CloneUnfolds(heap: Heap, n: nat, b: nat)
    requires Forward(heap) && Closed(heap, n) && b < n
    ensures Unfold(Clone(heap, n, b), |heap|) == Strip(Unfold(heap, b))
    decreases n - b, |EDGES| + 1
  {
    var copy := heap + [Copied(heap[b])];
    AppendForward(heap, Copied(heap[b]));
    CloneEdgesUnfold(copy, n, b, |heap|, 0);
    SubsFrame(heap, copy, 0, n, b, 0);
    assert Strip(Unfold(heap, b)).subs == StripAll(Subs(heap, b, 0));
  }

  lemma {:induction false} CloneEdgesUnfold(heap: Heap, n: nat, b: nat, c: nat, i: nat)
    requires Copying(heap, n, b, c) && i <= |EDGES|
    requires EdgesBelow(heap, c, i)
    ensures Subs(CloneEdges(heap, n, b, c, i), c, i) == StripAll(Subs(heap, b, i))
    decreases n - b, |EDGES| - i
  {
    if i == |EDGES| {
      return;
    }
    CloneEdgesRound(heap, n, b, c, i);
    if EDGES[i] !in heap[b].edges {
      CloneEdgesUnfold(heap, n, b, c, i + 1);
      AbsentEdge(heap, n, b, c, i);
      return;
    }
    CloneUnfolds(heap, n, heap[b].edges[EDGES[i]]);
    CloneEdgesUnfold(CloneEdge(heap, n, b, c, i), n, b, c, i + 1);
    PresentEdge(heap, n, b, c, i);
  }

  lemma AbsentEdge(heap: Heap, n: nat, b: nat, c: nat, i: nat)
    requires Copying(heap, n, b, c) && EdgesBelow(heap, c, i) && i < |EDGES| && EDGES[i] !in heap[b].edges
    requires Subs(CloneEdges(heap, n, b, c, i + 1), c, i + 1) == StripAll(Subs(heap, b, i + 1))
    ensures Subs(CloneEdges(heap, n, b, c, i + 1), c, i) == StripAll(Subs(heap, b, i))
  {
    PositionOf(i);
    KeptEdges(heap, n, b, c, i + 1, EDGES[i]);
  }

  lemma PresentEdge(heap: Heap, n: nat, b: nat, c: nat, i: nat)
    requires Copying(heap, n, b, c) && EdgesBelow(heap, c, i) && i < |EDGES| && EDGES[i] in heap[b].edges
    requires Unfold(Clone(heap, n, heap[b].edges[EDGES[i]]), |heap|) == Strip(Unfold(heap, heap[b].edges[EDGES[i]]))
    requires var next := CloneEdge(heap, n, b, c, i);
             Subs(CloneEdges(next, n, b, c, i + 1), c, i + 1) == StripAll(Subs(next, b, i + 1))
    ensures Subs(CloneEdges(CloneEdge(heap, n, b, c, i), n, b, c, i + 1), c, i) == StripAll(Subs(heap, b, i))
  {
    var next := CloneEdge(heap, n, b, c, i);
    PositionOf(i);
    SubsFrame(heap, next, 0, n, b, i + 1);
    KeptEdges(next, n, b, c, i + 1, EDGES[i]);
    CopiedEdge(heap, Clone(heap, n, heap[b].edges[EDGES[i]]), CloneEdges(next, n, b, c, i + 1), b, c, i);
  }

  /** Later rounds do not touch the edges of earlier positions. */
  lemma KeptEdges(heap: Heap, n: nat, b: nat, c: nat, i: nat, e: Edge)
    requires Copying(heap, n, b, c) && i <= |EDGES| && Position(e) < i
    ensures var r := CloneEdges(heap, n, b, c, i)[c].edges;
            (e in r <==> e in heap[c].edges) && (e in r ==> r[e] == heap[c].edges[e])
  {
  }

  /** The copy of one edge, and of the edges after it, are the copy of the edges from there on. */
  lemma CopiedEdge(heap: Heap, below: Heap, r: Heap, b: nat, c: nat, i: nat)
    requires Forward(heap) && Forward(below) && Forward(r) && b < |heap| && c < |heap| < |below| && i < |EDGES|
    requires SameBut(below, r, c)
    requires EDGES[i] in heap[b].edges && EDGES[i] in r[c].edges && r[c].edges[EDGES[i]] == |heap|
    requires Unfold(below, |heap|) == Strip(Unfold(heap, heap[b].edges[EDGES[i]]))
    requires Subs(r, c, i + 1) == StripAll(Subs(heap, b, i + 1))
    ensures Subs(r, c, i) == StripAll(Subs(heap, b, i))
  {
    UnfoldFrame(below, r, |heap|, |below|, |heap|);
    StripCons(Sub(EDGES[i], Unfold(heap, heap[b].edges[EDGES[i]])), Subs(heap, b, i + 1));
  }

  lemma StripCons(sub: Sub, subs: seq<Sub>)
    ensures StripAll([sub] + subs) == [Sub(sub.edge, Strip(sub.tree))] + StripAll(subs)
  {
  }

  // ---------------------------------------------------------------- running operations

  /** One operation. An operation on a builder that does not exist, or an edge that the builder's type does
      not have, is not a program; it leaves the heap alone. */
  function Step(heap: Heap, op: Op): (r: Heap)
    requires Forward(heap)
    ensures Forward(r) && Grows(heap, r)
    decreases op, 1
  {
    match op
    case New(table, inters) => (AppendForward(heap, Fresh(table, inters)); heap + [Fresh(table, inters)])
    case Copy(b) => if b < |heap| then Clone(heap, |heap|, b) else heap
    case Load(b, e, _, _) => if b < |heap| && Source(e) == heap[b].table then StepLoad(heap, op) else heap
    case _ => if op.b < |heap| then heap[op.b := Configure(heap[op.b], op)] else heap
  }

  /** A `With*` method. */
  function StepLoad(heap: Heap, op: Op): (r: Heap)
    requires Forward(heap) && op.Load? && op.b < |heap| && Source(op.e) == heap[op.b].table
    ensures Forward(r) && Grows(heap, r)
    decreases op, 0, |op.opts| + 1
  {
    var cell := Fresh(Target(op.e), op.inters);
    AppendForward(heap, cell);
    var configured := RunOpts(heap + [cell], op, |op.opts|);
    assert configured[|heap|].table == cell.table && configured[op.b].table == (heap + [cell])[op.b].table;
    AttachForward(configured, op.b, op.e, |heap|);
    Attach(configured, op.b, op.e, |heap|)
  }

  /** The operations that only change fields of one builder. */
  function Configure(cell: BuilderCell, op: Op): BuilderCell
    requires !op.New? && !op.Load? && !op.Copy?
  {
    match op
    case Where(_, ps) => cell.(preds := cell.preds + ps)
    case Order(_, os) => cell.(order := cell.order + os)
    case Limit(_, limit) => cell.(limit := Some(limit))
    case Offset(_, offset) => cell.(offset := Some(offset))
    case Unique(_, unique) => cell.(unique := Some(unique))
    case Select(_, fields) => cell.(fields := cell.fields + fields)
    case Lock(_) => cell.(unique := Some(false), modifiers := cell.modifiers + 1)
  }

  /** The first i options of a `Load`. */
  function RunOpts(heap: Heap, op: Op, i: nat): (r: Heap)
    requires Forward(heap) && op.Load? && i <= |op.opts|
    ensures Forward(r) && Grows(heap, r)
    decreases op, 0, i
  {
    if i == 0 then heap else Step(RunOpts(heap, op, i - 1), op.opts[i - 1])
  }

  function Run(heap: Heap, ops: seq<Op>): (r: Heap)
    requires Forward(heap)
    ensures Forward(r) && Grows(heap, r)
  {
    if ops == [] then heap else Step(Run(heap, ops[..|ops| - 1]), ops[|ops| - 1])
  }

  // ---------------------------------------------------------------- builders form trees

  /** A heap that an operation can lead to: no builder is shared, and old builders are pointed to only from
      where they were. */
  ghost predicate Keeps(before: Heap, after: Heap) {
    Forest(after) && OldPointersKept(before, after)
  }

  ghost predicate Forest(heap: Heap) {
    Forward(heap) && Unshared(heap)
  }

  lemma AttachKeeps(before: Heap, heap: Heap, c: nat, e: Edge, d: nat)
    requires Keeps(before, heap) && c < d < |heap| && |before| <= d
    requires Source(e) == heap[c].table && heap[d].table == Target(e)
    requires forall x, f :: !PointsTo(heap, x, f, d)
    ensures Keeps(before, Attach(heap, c, e, d))
  {
    AttachForward(heap, c, e, d);
    var after := Attach(heap, c, e, d);
    assert forall x, f, y :: PointsTo(after, x, f, y) ==> (x == c && f == e && y == d) || PointsTo(heap, x, f, y);
  }

  lemma KeepsTransitive(a: Heap, b: Heap, c: Heap)
    requires Keeps(a, b) && Keeps(b, c)
    ensures Keeps(a, c)
  {
  }

  lemma KeepsSelf(heap: Heap)
    requires Forest(heap)
    ensures Keeps(heap, heap)
  {
  }

  lemma AppendKeeps(heap: Heap, cell: BuilderCell)
    requires Forest(heap) && cell.edges == map[]
    ensures Keeps(heap, heap + [cell])
  {
    AppendForward(heap, cell);
    assert forall x, f, y :: PointsTo(heap + [cell], x, f, y) ==> PointsTo(heap, x, f, y);
  }

  lemma {:induction false} CloneKeeps(heap: Heap, n: nat, b: nat)
    requires Forest(heap) && Closed(heap, n) && b < n
    ensures Keeps(heap, Clone(heap, n, b))
    decreases n - b, |EDGES| + 1
  {
    var copy := heap + [Copied(heap[b])];
    AppendForward(heap, Copied(heap[b]));
    AppendKeeps(heap, Copied(heap[b]));
    CloneEdgesKeeps(copy, n, b, |heap|, 0);
    KeepsTransitive(heap, copy, Clone(heap, n, b));
  }

  lemma {:induction false} CloneEdgesKeeps(heap: Heap, n: nat, b: nat, c: nat, i: nat)
    requires Forest(heap) && Copying(heap, n, b, c) && i <= |EDGES|
    ensures Keeps(heap, CloneEdges(heap, n, b, c, i))
    decreases n - b, |EDGES| - i
  {
    if i == |EDGES| {
      KeepsSelf(heap);
      return;
    }
    CloneEdgesRound(heap, n, b, c, i);
    if EDGES[i] !in heap[b].edges {
      CloneEdgesKeeps(heap, n, b, c, i + 1);
      return;
    }
    var next := CloneEdge(heap, n, b, c, i);
    CloneEdgeKeeps(heap, n, b, c, i);
    CloneEdgesKeeps(next, n, b, c, i + 1);
    KeepsTransitive(heap, next, CloneEdges(next, n, b, c, i + 1));
  }

  lemma {:induction false} CloneEdgeKeeps(heap: Heap, n: nat, b: nat, c: nat, i: nat)
    requires Forest(heap) && Copying(heap, n, b, c) && i < |EDGES| && EDGES[i] in heap[b].edges
    ensures Keeps(heap, CloneEdge(heap, n, b, c, i))
    decreases n - b, 0
  {
    CloneKeeps(heap, n, heap[b].edges[EDGES[i]]);
    AttachedKeeps(heap, Clone(heap, n, heap[b].edges[EDGES[i]]), c, EDGES[i]);
  }

  lemma AttachedKeeps(heap: Heap, below: Heap, c: nat, e: Edge)
    requires Forest(heap) && Keeps(heap, below) && Extends(heap, below) && c < |heap| < |below|
    requires Source(e) == below[c].table && below[|heap|].table == Target(e)
    ensures Keeps(heap, Attach(below, c, e, |heap|))
  {
    RootUnattached(heap, below);
    AttachKeeps(heap, below, c, e, |heap|);
  }

  /** Nothing points to the first builder that was added. */
  lemma RootUnattached(heap: Heap, after: Heap)
    requires Forward(heap) && Forward(after) && |heap| < |after| && Extends(heap, after)
    ensures forall x, f :: !PointsTo(after, x, f, |heap|)
  {
  }

  lemma {:induction false} StepKeeps(heap: Heap, op: Op)
    requires Forest(heap)
    ensures Keeps(heap, Step(heap, op))
    decreases op, 1
  {
    if op.New? {
      AppendKeeps(heap, Fresh(op.table, op.inters));
      return;
    }
    if op.Copy? {
      if op.b < |heap| {
        CloneKeeps(heap, |heap|, op.b);
      }
      return;
    }
    if op.Load? {
      if op.b < |heap| && Source(op.e) == heap[op.b].table {
        LoadKeeps(heap, op);
      }
      return;
    }
    if op.b < |heap| {
      ConfigureKeeps(heap, op.b, Configure(heap[op.b], op));
    }
  }

  lemma ConfigureKeeps(heap: Heap, b: nat, cell: BuilderCell)
    requires Forest(heap) && b < |heap| && cell.table == heap[b].table && cell.edges == heap[b].edges
    ensures Keeps(heap, heap[b := cell])
  {
    var after := heap[b := cell];
    assert Forward(after);
    assert forall x, f, y :: PointsTo(after, x, f, y) ==> PointsTo(heap, x, f, y);
  }

  lemma {:induction false} LoadKeeps(heap: Heap, op: Op)
    requires Forest(heap) && op.Load? && op.b < |heap| && Source(op.e) == heap[op.b].table
    ensures Keeps(heap, Step(heap, op))
    decreases op, 0, |op.opts| + 1
  {
    var made := heap + [Fresh(Target(op.e), op.inters)];
    AppendForward(heap, Fresh(Target(op.e), op.inters));
    AppendKeeps(heap, Fresh(Target(op.e), op.inters));
    RunOptsKeeps(made, op, |op.opts|);
    var configured := RunOpts(made, op, |op.opts|);
    KeepsTransitive(heap, made, configured);
    assert forall x, f :: PointsTo(configured, x, f, |heap|) ==> PointsTo(made, x, f, |heap|);
    AttachKeeps(heap, configured, op.b, op.e, |heap|);
  }

  lemma {:induction false} RunOptsKeeps(heap: Heap, op: Op, i: nat)
    requires Forest(heap) && op.Load? && i <= |op.opts|
    ensures Keeps(heap, RunOpts(heap, op, i))
    decreases op, 0, i
  {
    if i == 0 {
      KeepsSelf(heap);
      return;
    }
    var before := RunOpts(heap, op, i - 1);
    var after := RunOpts(heap, op, i);
    assert after == Step(before, op.opts[i - 1]);
    RunOptsKeeps(heap, op, i - 1);
    assert Keeps(before, after) by { StepKeeps(before, op.opts[i - 1]); }
    KeepsTransitive(heap, before, after);
  }

  /** Whatever a program does, options included, the builders form trees: pointers go to younger builders of
      the right type and no builder is attached twice. So every builder unfolds to a finite tree. */
  lemma {:induction false} BuildersFormTrees(ops: seq<Op>)
    ensures Forward(Run([], ops)) && Unshared(Run([], ops))
  {
    if ops != [] {
      BuildersFormTrees(ops[..|ops| - 1]);
      StepKeeps(Run([], ops[..|ops| - 1]), ops[|ops| - 1]);
    }
  }

  lemma {:induction false} SubsAre(heap: Heap, b: nat, i: nat, k: nat)
    requires Forward(heap) && b < |heap| && i <= |EDGES| && k < |Subs(heap, b, i)|
    ensures var sub := Subs(heap, b, i)[k];
            && Position(sub.edge) >= i && sub.edge in heap[b].edges
            && sub.tree == Unfold(heap, heap[b].edges[sub.edge])
            && (k > 0 ==> Position(Subs(heap, b, i)[k - 1].edge) < Position(sub.edge))
    decreases |EDGES| - i
  {
    PositionOf(i);
    if EDGES[i] !in heap[b].edges {
      SubsAre(heap, b, i + 1, k);
    } else if k > 0 {
      SubsAre(heap, b, i + 1, k - 1);
    }
  }

  lemma {:induction false} SubsOrdered(heap: Heap, b: nat, j: nat, k: nat)
    requires Forward(heap) && b < |heap| && j < k < |Subs(heap, b, 0)|
    ensures Position(Subs(heap, b, 0)[j].edge) < Position(Subs(heap, b, 0)[k].edge)
    decreases k
  {
    SubsAre(heap, b, 0, k);
    if j < k - 1 {
      SubsOrdered(heap, b, j, k - 1);
    }
  }

  lemma {:induction false} NoJoins(preds: seq<CallerPred>)
    ensures JoinsOf(preds) == []
  {
    if preds != [] {
      NoJoins(preds[..|preds| - 1]);
    }
  }

  /** Every builder that a program can make is a query that the engine is proved for, and one that no load has
      run on. */
  lemma {:induction false} BuildersAreValid(heap: Heap, b: nat)
    requires Forward(heap) && b < |heap|
    ensures var q := ToQuery(Unfold(heap, b));
            ValidQuery(q) && JoinsOf(q.preds) == [] && Unloaded(q)
    decreases |heap| - b
  {
    var subs := Subs(heap, b, 0);
    var q := ToQuery(Unfold(heap, b));
    assert Unfold(heap, b).subs == subs;
    NoJoins(heap[b].preds);
    forall i | 0 <= i < |q.with| ensures ValidSub(q, q.with[i]) {
      SubsAre(heap, b, 0, i);
      BuildersAreValid(heap, heap[b].edges[subs[i].edge]);
    }
    forall i, j | 0 <= i < j < |q.with| ensures q.with[i].edge != q.with[j].edge {
      SubsOrdered(heap, b, i, j);
    }
  }

  ghost predicate ValidSub(q: Query, w: With) {
    && Source(w.edge) == q.table && w.sub.table == Target(w.edge)
    && ValidQuery(w.sub) && JoinsOf(w.sub.preds) == [] && Unloaded(w.sub)
  }

  // ---------------------------------------------------------------- independence

  /** The operation, options included, writes to no builder in the range. */
  ghost predicate Avoids(op: Op, lo: nat, hi: nat)
    decreases op
  {
    match op
    case New(_, _) => true
    case Copy(_) => true
    case Load(b, _, _, opts) => !(lo <= b < hi) && forall i :: 0 <= i < |opts| ==> Avoids(opts[i], lo, hi)
    case _ => !(lo <= op.b < hi)
  }

  ghost predicate AllAvoid(ops: seq<Op>, lo: nat, hi: nat) {
    forall i :: 0 <= i < |ops| ==> Avoids(ops[i], lo, hi)
  }

  ghost predicate SameOn(before: Heap, after: Heap, lo: nat, hi: nat) {
    hi <= |before| <= |after| && forall x :: lo <= x < hi ==> after[x] == before[x]
  }

  lemma {:induction false} StepAvoids(heap: Heap, op: Op, lo: nat, hi: nat)
    requires Forward(heap) && Avoids(op, lo, hi) && hi <= |heap|
    ensures SameOn(heap, Step(heap, op), lo, hi)
    decreases op, 1
  {
    if op.Load? && op.b < |heap| && Source(op.e) == heap[op.b].table {
      var made := heap + [Fresh(Target(op.e), op.inters)];
      AppendForward(heap, Fresh(Target(op.e), op.inters));
      RunOptsAvoids(made, op, |op.opts|, lo, hi);
    }
  }

  lemma {:induction false} RunOptsAvoids(heap: Heap, op: Op, i: nat, lo: nat, hi: nat)
    requires Forward(heap) && op.Load? && Avoids(op, lo, hi) && i <= |op.opts| && hi <= |heap|
    ensures SameOn(heap, RunOpts(heap, op, i), lo, hi)
    decreases op, 0, i
  {
    if i > 0 {
      RunOptsAvoids(heap, op, i - 1, lo, hi);
      StepAvoids(RunOpts(heap, op, i - 1), op.opts[i - 1], lo, hi);
    }
  }

  lemma {:induction false} RunAvoids(heap: Heap, ops: seq<Op>, lo: nat, hi: nat)
    requires Forward(heap) && AllAvoid(ops, lo, hi) && hi <= |heap|
    ensures SameOn(heap, Run(heap, ops), lo, hi)
    decreases |ops|
  {
    if ops != [] {
      var front := ops[..|ops| - 1];
      RunAvoids(heap, front, lo, hi);
      StepAvoids(Run(heap, front), ops[|ops| - 1], lo, hi);
    }
  }

  /** A clone is independent. Right after `Clone` the copy means what the original means, lock modifiers
      apart. Any operations that stay away from the copy leave it meaning that; and any operations that stay
      away from the builders there were before leave every one of them meaning what it meant. */
  lemma CloneIsIndependent(heap: Heap, b: nat, ops: seq<Op>)
    requires Forward(heap) && b < |heap|
    ensures var cloned := Step(heap, Copy(b));
            && |heap| < |cloned|
            && Unfold(cloned, |heap|) == Strip(Unfold(heap, b))
            && ToQuery(Unfold(cloned, |heap|)) == ToQuery(Unfold(heap, b))
            && (AllAvoid(ops, |heap|, |cloned|) ==> Unfold(Run(cloned, ops), |heap|) == Strip(Unfold(heap, b)))
            && (AllAvoid(ops, 0, |heap|) ==> forall x :: 0 <= x < |heap| ==>
              Unfold(Run(cloned, ops), x) == Unfold(heap, x))
  {
    var cloned := Step(heap, Copy(b));
    CloneUnfolds(heap, |heap|, b);
    StripKeepsQuery(Unfold(heap, b));
    if AllAvoid(ops, |heap|, |cloned|) {
      RunAvoids(cloned, ops, |heap|, |cloned|);
      UnfoldFrame(cloned, Run(cloned, ops), |heap|, |cloned|, |heap|);
    }
    if AllAvoid(ops, 0, |heap|) {
      RunAvoids(cloned, ops, 0, |heap|);
      forall x | 0 <= x < |heap| ensures Unfold(Run(cloned, ops), x) == Unfold(heap, x) {
        UnfoldFrame(heap, Run(cloned, ops), 0, |heap|, x);
      }
    }
  }
}
