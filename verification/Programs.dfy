/** What a program of builder calls means: the predicates, orders and fields of a builder are those of all its calls,
    in call order, and the limit, the offset and the uniqueness those of the last such call. */
module Programs {
  import opened Wrappers
  import opened Schema
  import opened Sequences
  import opened Relational
  import opened QueryBuilders

  // ---------------------------------------------------------------- calls

  /** The calls that one operation makes, in the order in which they take effect: the options of a `With*` call come
      before the new builder is attached. */
  function CallsOf(heap: Heap, op: Op): seq<Op>
    requires Forward(heap)
    decreases op, 1
  {
    match op
    case New(_, _) => []
    case Copy(_) => []
    case Load(b, e, inters, opts) =>
      if b < |heap| && Source(e) == heap[b].table then
        AppendForward(heap, Fresh(Target(e), inters));
        OptCalls(heap + [Fresh(Target(e), inters)], op, |opts|) + [op]
      else []
    case _ => [op]
  }

  function OptCalls(heap: Heap, op: Op, i: nat): seq<Op>
    requires Forward(heap) && op.Load? && i <= |op.opts|
    decreases op, 0, i
  {
    if i == 0 then [] else OptCalls(heap, op, i - 1) + CallsOf(RunOpts(heap, op, i - 1), op.opts[i - 1])
  }

  function CallsOfAll(heap: Heap, ops: seq<Op>): seq<Op>
    requires Forward(heap)
  {
    if ops == [] then []
    else CallsOfAll(heap, ops[..|ops| - 1]) + CallsOf(Run(heap, ops[..|ops| - 1]), ops[|ops| - 1])
  }

  /** What f takes from each call, in call order. */
  function Gather<T>(calls: seq<Op>, f: Op -> seq<T>): seq<T> {
    if calls == [] then [] else Gather(calls[..|calls| - 1], f) + f(calls[|calls| - 1])
  }

  /** What f takes from the last call from which it takes something. */
  function Last<T>(calls: seq<Op>, f: Op -> Option<T>): Option<T> {
    if calls == [] then None else Later(f(calls[|calls| - 1]), Last(calls[..|calls| - 1], f))
  }

  function Later<T>(last: Option<T>, before: Option<T>): Option<T> {
    if last.Some? then last else before
  }

  /** What a call on the builder adds to it. Locking rows switches DISTINCT off. */
  function WhereArg(b: nat): Op -> seq<CallerPred> {
    (call: Op) => if call.Where? && call.b == b then call.ps else []
  }

  function OrderArg(b: nat): Op -> seq<nat> {
    (call: Op) => if call.Order? && call.b == b then call.os else []
  }

  function SelectArg(b: nat): Op -> seq<Column> {
    (call: Op) => if call.Select? && call.b == b then call.fields else []
  }

  function LimitArg(b: nat): Op -> Option<nat> {
    (call: Op) => if call.Limit? && call.b == b then Some(call.limit) else None
  }

  function OffsetArg(b: nat): Op -> Option<nat> {
    (call: Op) => if call.Offset? && call.b == b then Some(call.offset) else None
  }

  function UniqueArg(b: nat): Op -> Option<bool> {
    (call: Op) =>
      if call.Unique? && call.b == b then Some(call.unique)
      else if call.Lock? && call.b == b then Some(false)
      else None
  }

  function LockArg(b: nat): Op -> seq<bool> {
    (call: Op) => if call.Lock? && call.b == b then [true] else []
  }

  /** How often rows are locked. */
  function Locks(calls: seq<Op>, b: nat): nat {
    |Gather(calls, LockArg(b))|
  }

  /** The predicates of all `Where` calls on the builder. */
  function WhereArgs(calls: seq<Op>, b: nat): seq<CallerPred> {
    Gather(calls, WhereArg(b))
  }

  function OrderArgs(calls: seq<Op>, b: nat): seq<nat> {
    Gather(calls, OrderArg(b))
  }

  function SelectArgs(calls: seq<Op>, b: nat): seq<Column> {
    Gather(calls, SelectArg(b))
  }

  /** The argument of the last `Limit` call on the builder. */
  function LastLimit(calls: seq<Op>, b: nat): Option<nat> {
    Last(calls, LimitArg(b))
  }

  function LastOffset(calls: seq<Op>, b: nat): Option<nat> {
    Last(calls, OffsetArg(b))
  }

  function LastUnique(calls: seq<Op>, b: nat): Option<bool> {
    Last(calls, UniqueArg(b))
  }

  /** The edges that `With*` calls attach to the builder. */
  function LoadedEdges(calls: seq<Op>, b: nat): set<Edge> {
    set i | 0 <= i < |calls| && calls[i].Load? && calls[i].b == b :: calls[i].e
  }

  /** What calls make of a builder. */
  predicate Reflects(before: BuilderCell, calls: seq<Op>, b: nat, after: BuilderCell) {
    && after.table == before.table && after.inters == before.inters
    && after.modifiers == before.modifiers + Locks(calls, b)
    && after.preds == before.preds + WhereArgs(calls, b)
    && after.order == before.order + OrderArgs(calls, b)
    && after.fields == before.fields + SelectArgs(calls, b)
    && after.limit == Later(LastLimit(calls, b), before.limit)
    && after.offset == Later(LastOffset(calls, b), before.offset)
    && after.unique == Later(LastUnique(calls, b), before.unique)
    && after.edges.Keys == before.edges.Keys + LoadedEdges(calls, b)
  }

  // ---------------------------------------------------------------- calls one after the other

  lemma {:induction false} GatherConcat<T>(a: seq<Op>, c: seq<Op>, f: Op -> seq<T>)
    ensures Gather(a + c, f) == Gather(a, f) + Gather(c, f)
    decreases |c|
  {
    if c == [] {
      assert a + c == a;
      return;
    }
    var front, last := c[..|c| - 1], c[|c| - 1];
    assert (a + c)[..|a + c| - 1] == a + front;
    GatherConcat(a, front, f);
    assert (Gather(a, f) + Gather(front, f)) + f(last) == Gather(a, f) + (Gather(front, f) + f(last));
  }

  lemma {:induction false} LastConcat<T>(a: seq<Op>, c: seq<Op>, f: Op -> Option<T>)
    ensures Last(a + c, f) == Later(Last(c, f), Last(a, f))
    decreases |c|
  {
    if c == [] {
      assert a + c == a;
      return;
    }
    assert (a + c)[..|a + c| - 1] == a + c[..|c| - 1];
    LastConcat(a, c[..|c| - 1], f);
  }

  lemma ArgsConcat(a: seq<Op>, c: seq<Op>, b: nat)
    ensures WhereArgs(a + c, b) == WhereArgs(a, b) + WhereArgs(c, b)
    ensures OrderArgs(a + c, b) == OrderArgs(a, b) + OrderArgs(c, b)
    ensures SelectArgs(a + c, b) == SelectArgs(a, b) + SelectArgs(c, b)
    ensures Locks(a + c, b) == Locks(a, b) + Locks(c, b)
  {
    GatherConcat(a, c, LockArg(b));
    GatherConcat(a, c, WhereArg(b));
    GatherConcat(a, c, OrderArg(b));
    GatherConcat(a, c, SelectArg(b));
  }

  lemma LastArgsConcat(a: seq<Op>, c: seq<Op>, b: nat)
    ensures LastLimit(a + c, b) == Later(LastLimit(c, b), LastLimit(a, b))
    ensures LastOffset(a + c, b) == Later(LastOffset(c, b), LastOffset(a, b))
    ensures LastUnique(a + c, b) == Later(LastUnique(c, b), LastUnique(a, b))
  {
    LastConcat(a, c, LimitArg(b));
    LastConcat(a, c, OffsetArg(b));
    LastConcat(a, c, UniqueArg(b));
  }

  lemma EdgesConcat(a: seq<Op>, c: seq<Op>, b: nat)
    ensures LoadedEdges(a + c, b) == LoadedEdges(a, b) + LoadedEdges(c, b)
  {
    forall e | e in LoadedEdges(a, b) + LoadedEdges(c, b) ensures e in LoadedEdges(a + c, b) {
      if i :| 0 <= i < |a| && a[i].Load? && a[i].b == b && a[i].e == e {
        assert (a + c)[i] == a[i];
      } else {
        var k :| 0 <= k < |c| && c[k].Load? && c[k].b == b && c[k].e == e;
        assert (a + c)[|a| + k] == c[k];
      }
    }
  }

  lemma ReflectsBoth(x: BuilderCell, a: seq<Op>, y: BuilderCell, c: seq<Op>, z: BuilderCell, b: nat)
    requires Reflects(x, a, b, y) && Reflects(y, c, b, z)
    ensures Reflects(x, a + c, b, z)
  {
    ListsConcat(x, a, c, b);
    LastArgsConcat(a, c, b);
    EdgesConcat(a, c, b);
  }

  lemma ListsConcat(x: BuilderCell, a: seq<Op>, c: seq<Op>, b: nat)
    ensures (x.preds + WhereArgs(a, b)) + WhereArgs(c, b) == x.preds + WhereArgs(a + c, b)
    ensures (x.order + OrderArgs(a, b)) + OrderArgs(c, b) == x.order + OrderArgs(a + c, b)
    ensures (x.fields + SelectArgs(a, b)) + SelectArgs(c, b) == x.fields + SelectArgs(a + c, b)
    ensures Locks(a + c, b) == Locks(a, b) + Locks(c, b)
  {
    ArgsConcat(a, c, b);
    assert (x.preds + WhereArgs(a, b)) + WhereArgs(c, b) == x.preds + (WhereArgs(a, b) + WhereArgs(c, b));
    assert (x.order + OrderArgs(a, b)) + OrderArgs(c, b) == x.order + (OrderArgs(a, b) + OrderArgs(c, b));
    assert (x.fields + SelectArgs(a, b)) + SelectArgs(c, b) == x.fields + (SelectArgs(a, b) + SelectArgs(c, b));
  }

  lemma ReflectsNothing(x: BuilderCell, b: nat)
    ensures Reflects(x, [], b, x)
  {
  }

  lemma GatherOne<T>(call: Op, f: Op -> seq<T>)
    ensures Gather([call], f) == f(call)
  {
    assert [call][..0] == [];
    assert Gather([], f) + f(call) == f(call);
  }

  lemma LastOne<T>(call: Op, f: Op -> Option<T>)
    ensures Last([call], f) == f(call)
  {
    assert [call][..0] == [];
    assert Last([], f) == None;
  }

  /** One call. */
  lemma OneCall(call: Op, b: nat)
    ensures WhereArgs([call], b) == WhereArg(b)(call) && OrderArgs([call], b) == OrderArg(b)(call)
    ensures SelectArgs([call], b) == SelectArg(b)(call) && LastLimit([call], b) == LimitArg(b)(call)
    ensures LastOffset([call], b) == OffsetArg(b)(call) && LastUnique([call], b) == UniqueArg(b)(call)
    ensures Locks([call], b) == if call.Lock? && call.b == b then 1 else 0
    ensures LoadedEdges([call], b) == if call.Load? && call.b == b then {call.e} else {}
  {
    GatherOne(call, LockArg(b));
    GatherOne(call, WhereArg(b));
    GatherOne(call, OrderArg(b));
    GatherOne(call, SelectArg(b));
    LastOne(call, LimitArg(b));
    LastOne(call, OffsetArg(b));
    LastOne(call, UniqueArg(b));
    if call.Load? && call.b == b {
      assert [call][0].e in LoadedEdges([call], b);
    }
  }

  lemma ReflectsOne(x: BuilderCell, call: Op, b: nat, y: BuilderCell)
    requires !call.New? && !call.Copy? && !call.Load?
    requires y == if call.b == b then Configure(x, call) else x
    ensures Reflects(x, [call], b, y)
  {
    OneCall(call, b);
  }

  lemma ReflectsAttached(x: BuilderCell, op: Op, b: nat, y: BuilderCell, d: nat)
    requires op.Load? && y == if op.b == b then x.(edges := x.edges[op.e := d]) else x
    ensures Reflects(x, [op], b, y)
  {
    OneCall(op, b);
  }

  // ---------------------------------------------------------------- programs

  /** Every operation does to each builder what its calls say. */
  lemma {:induction false} StepReflects(heap: Heap, op: Op, b: nat)
    requires Forward(heap) && b < |heap|
    ensures Reflects(heap[b], CallsOf(heap, op), b, Step(heap, op)[b])
    decreases op, 1
  {
    if op.New? || op.Copy? {
      ReflectsNothing(heap[b], b);
      return;
    }
    if op.Load? {
      if op.b < |heap| && Source(op.e) == heap[op.b].table {
        LoadReflects(heap, op, b);
      } else {
        ReflectsNothing(heap[b], b);
      }
      return;
    }
    ReflectsOne(heap[b], op, b, Step(heap, op)[b]);
  }

  lemma {:induction false} LoadReflects(heap: Heap, op: Op, b: nat)
    requires Forward(heap) && op.Load? && op.b < |heap| && Source(op.e) == heap[op.b].table && b <= |heap|
    ensures |heap| < |Step(heap, op)|
    ensures var before := if b < |heap| then heap[b] else Fresh(Target(op.e), op.inters);
            Reflects(before, CallsOf(heap, op), b, Step(heap, op)[b])
    decreases op, 0, |op.opts| + 1
  {
    var made := heap + [Fresh(Target(op.e), op.inters)];
    AppendForward(heap, Fresh(Target(op.e), op.inters));
    RunOptsReflect(made, op, |op.opts|, b);
    var configured := RunOpts(made, op, |op.opts|);
    assert Step(heap, op) == Attach(configured, op.b, op.e, |heap|);
    ReflectsAttached(configured[b], op, b, Step(heap, op)[b], |heap|);
    ReflectsBoth(made[b], OptCalls(made, op, |op.opts|), configured[b], [op], Step(heap, op)[b], b);
  }

  lemma {:induction false} RunOptsReflect(heap: Heap, op: Op, i: nat, b: nat)
    requires Forward(heap) && op.Load? && i <= |op.opts| && b < |heap|
    ensures Reflects(heap[b], OptCalls(heap, op, i), b, RunOpts(heap, op, i)[b])
    decreases op, 0, i
  {
    if i == 0 {
      ReflectsNothing(heap[b], b);
      return;
    }
    RunOptsReflect(heap, op, i - 1, b);
    StepReflects(RunOpts(heap, op, i - 1), op.opts[i - 1], b);
    OneMoreOpt(heap, op, i, b);
  }

  lemma OneMoreOpt(heap: Heap, op: Op, i: nat, b: nat)
    requires Forward(heap) && op.Load? && 0 < i <= |op.opts| && b < |heap|
    requires var before := RunOpts(heap, op, i - 1);
             && Reflects(heap[b], OptCalls(heap, op, i - 1), b, before[b])
             && Reflects(before[b], CallsOf(before, op.opts[i - 1]), b, Step(before, op.opts[i - 1])[b])
    ensures Reflects(heap[b], OptCalls(heap, op, i), b, RunOpts(heap, op, i)[b])
  {
    var before := RunOpts(heap, op, i - 1);
    ReflectsBoth(heap[b], OptCalls(heap, op, i - 1), before[b], CallsOf(before, op.opts[i - 1]),
      Step(before, op.opts[i - 1])[b], b);
  }

  /** A whole program, from any builders on: the predicates, orders and fields of a builder are what they were and then
      those of all `Where`, `Order` and `Select` calls on it in call order; its limit, offset and uniqueness are
      those of the last such call; and its edges are what they were and those of the `With*` calls. */
  lemma {:induction false} RunReflects(heap: Heap, ops: seq<Op>, b: nat)
    requires Forward(heap) && b < |heap|
    ensures Reflects(heap[b], CallsOfAll(heap, ops), b, Run(heap, ops)[b])
    decreases |ops|
  {
    if ops == [] {
      ReflectsNothing(heap[b], b);
      return;
    }
    var front, last := ops[..|ops| - 1], ops[|ops| - 1];
    RunReflects(heap, front, b);
    StepReflects(Run(heap, front), last, b);
    ReflectsBoth(heap[b], CallsOfAll(heap, front), Run(heap, front)[b], CallsOf(Run(heap, front), last),
      Run(heap, ops)[b], b);
  }

  /** What calls make of all builders that there were. */
  ghost predicate Effects(before: Heap, calls: seq<Op>, after: Heap) {
    |before| <= |after| && forall b :: 0 <= b < |before| ==> Reflects(before[b], calls, b, after[b])
  }

  lemma StepEffects(heap: Heap, op: Op)
    requires Forward(heap)
    ensures Effects(heap, CallsOf(heap, op), Step(heap, op))
  {
    forall b | 0 <= b < |heap| ensures Reflects(heap[b], CallsOf(heap, op), b, Step(heap, op)[b]) {
      StepReflects(heap, op, b);
    }
  }

  lemma RunEffects(heap: Heap, ops: seq<Op>)
    requires Forward(heap)
    ensures Effects(heap, CallsOfAll(heap, ops), Run(heap, ops))
  {
    forall b | 0 <= b < |heap| ensures Reflects(heap[b], CallsOfAll(heap, ops), b, Run(heap, ops)[b]) {
      RunReflects(heap, ops, b);
    }
  }

  // ---------------------------------------------------------------- new builders

  /** `Query()`: a new builder has nothing set. */
  lemma NewIsEmpty(heap: Heap, table: Table, inters: seq<nat>)
    requires Forward(heap)
    ensures var after := Step(heap, New(table, inters));
            && |after| == |heap| + 1 && after[..|heap|] == heap
            && var q := ToQuery(Unfold(after, |heap|));
               q == Query(table, [], [], [], None, None, None, [])
  {
    AppendForward(heap, Fresh(table, inters));
    var after := Step(heap, New(table, inters));
    NoSubs(after, |heap|, 0);
  }

  lemma {:induction false} NoSubs(heap: Heap, b: nat, i: nat)
    requires Forward(heap) && b < |heap| && i <= |EDGES| && heap[b].edges == map[]
    ensures Subs(heap, b, i) == []
    decreases |EDGES| - i
  {
    if i < |EDGES| {
      NoSubs(heap, b, i + 1);
    }
  }

  /** The query that a program makes of a new builder: everything in it comes from a call. */
  lemma ProgramMeans(heap: Heap, table: Table, inters: seq<nat>, ops: seq<Op>)
    requires Forward(heap)
    ensures var made := Step(heap, New(table, inters));
            var calls := CallsOfAll(made, ops);
            var b := |heap|;
            && b < |made| <= |Run(made, ops)|
            && var q := ToQuery(Unfold(Run(made, ops), b));
               && q.table == table && q.preds == WhereArgs(calls, b) && q.order == OrderArgs(calls, b)
               && q.fields == SelectArgs(calls, b) && q.limit == LastLimit(calls, b)
               && q.offset == LastOffset(calls, b) && q.unique == LastUnique(calls, b)
               && (forall e :: (exists i :: 0 <= i < |q.with| && q.with[i].edge == e) <==> e in LoadedEdges(calls, b))
  {
    var made := Step(heap, New(table, inters));
    AppendForward(heap, Fresh(table, inters));
    RunReflects(made, ops, |heap|);
    WithEdges(Run(made, ops), |heap|);
  }

  predicate Loads(q: Query, e: Edge, sub: Query) {
    exists i :: 0 <= i < |q.with| && q.with[i].edge == e && q.with[i].sub == sub
  }

  /** The edges of a builder are those of its query, each with the query of the builder it points to. */
  lemma WithEdges(heap: Heap, b: nat)
    requires Forward(heap) && b < |heap|
    ensures var q := ToQuery(Unfold(heap, b));
            && (forall i :: 0 <= i < |q.with| ==> q.with[i].edge in heap[b].edges)
            && (forall e :: e in heap[b].edges ==> Loads(q, e, ToQuery(Unfold(heap, heap[b].edges[e]))))
  {
    var q := ToQuery(Unfold(heap, b));
    forall i | 0 <= i < |q.with| ensures q.with[i].edge in heap[b].edges {
      SubsAre(heap, b, 0, i);
    }
    forall e | e in heap[b].edges ensures Loads(q, e, ToQuery(Unfold(heap, heap[b].edges[e]))) {
      var k := SubOf(heap, b, 0, e);
      assert q.with[k].edge == e;
    }
  }

  lemma {:induction false} SubOf(heap: Heap, b: nat, i: nat, e: Edge) returns (k: nat)
    requires Forward(heap) && b < |heap| && i <= Position(e) && e in heap[b].edges
    ensures k < |Subs(heap, b, i)| && Subs(heap, b, i)[k] == Sub(e, Unfold(heap, heap[b].edges[e]))
    decreases |EDGES| - i
  {
    if i == Position(e) {
      return 0;
    }
    k := SubOf(heap, b, i + 1, e);
    if EDGES[i] in heap[b].edges {
      k := k + 1;
    }
  }

  // ---------------------------------------------------------------- single calls

  /** `Where` narrows: the rows that match afterwards are those that matched and satisfy the new predicates too. */
  lemma WhereNarrows(heap: Heap, b: nat, ps: seq<CallerPred>, db: Database, x: Row)
    requires Forward(heap) && b < |heap|
    ensures var before := ToQuery(Unfold(heap, b));
            var after := ToQuery(Unfold(Step(heap, QueryBuilders.Where(b, ps)), b));
            x in MatchingRows(db, SpecOf(db, after)) <==>
              x in MatchingRows(db, SpecOf(db, before)) && forall p :: p in ps ==> Satisfies(db, p, x)
  {
    var before := ToQuery(Unfold(heap, b));
    var after := ToQuery(Unfold(Step(heap, QueryBuilders.Where(b, ps)), b));
    StepReflects(heap, QueryBuilders.Where(b, ps), b);
    OneCall(QueryBuilders.Where(b, ps), b);
    assert after.preds == before.preds + ps;
    FilterMember(db.rows(before.table), Matching(db, before.preds), x);
    FilterMember(db.rows(after.table), Matching(db, after.preds), x);
    assert forall p :: p in after.preds <==> p in before.preds || p in ps;
  }

  /** A `With*` call makes a new builder for the edge's table, with what the options call for, and attaches it: the
      query loads the edge with the query of the new builder. */
  lemma LoadAttaches(heap: Heap, op: Op)
    requires Forward(heap) && op.Load? && op.b < |heap| && Source(op.e) == heap[op.b].table
    ensures var after := Step(heap, op);
            var b := |heap|;
            && b < |after| && op.e in after[op.b].edges && after[op.b].edges[op.e] == b
            && Reflects(Fresh(Target(op.e), op.inters), CallsOf(heap, op), b, after[b])
            && Loads(ToQuery(Unfold(after, op.b)), op.e, ToQuery(Unfold(after, b)))
  {
    LoadReflects(heap, op, |heap|);
    AppendForward(heap, Fresh(Target(op.e), op.inters));
    WithEdges(Step(heap, op), op.b);
  }
}
