/** `AccountCreateBulk.Save`: a chain of mutators, one per builder and each wrapped in that builder's
    hooks, that ends in a single batch insert and then unwinds.

    A hook is any wrapper that calls the next mutator at most once. Its behaviour is given by two
    arbitrary functions: `before`, which sees the fields of the mutation it is handed and decides what
    happens next, and `after`, which sees the outcome of the rest and decides what to report. */
module BulkCreate {
  import opened Wrappers
  import AC = AccountCreate

  datatype Error = Builder(err: AC.Error) | WrongMutation | Rejected | FromHook(code: int)

  datatype Outcome = Success | Failure(error: Error)

  datatype Mutation = Mutation(fields: AC.Fields, done: bool)

  /** What travels down the chain of one builder: the builder's own mutation object, another account
      mutation put in its place, or a mutation of another type. */
  datatype Passed = Own | Substitute(m: Mutation) | Foreign

  /** A hook returns at once, edits the mutation it holds and passes it on, or passes on another one. */
  datatype Before = Stop(out: Outcome) | Edit(fields: AC.Fields) | Swap(fields: AC.Fields) | SwapForeign

  datatype Hook = Hook(before: Option<AC.Fields> -> Before, after: Outcome -> Outcome)

  /** The hooks of each builder, and the batch insert: None when the driver fails, otherwise the ids it
      reports for the rows (none for a row it did not report). */
  datatype Env = Env(cfg: AC.Config, hooks: seq<seq<Hook>>, insert: seq<Option<AC.Fields>> -> Option<seq<Option<int>>>)

  datatype Event = Entered(builder: nat, hook: nat) | Checked(builder: nat) | Inserted

  datatype Node = Node(fields: AC.Fields, id: int)

  /** The variables that the closures share: `builder.mutation` of every builder, the arrays `nodes` and
      `specs`, the ids in the specs, and the calls made so far. */
  datatype State = State(
    mutations: seq<Mutation>,
    nodes: seq<Option<Node>>,
    specs: seq<Option<AC.Fields>>,
    ids: seq<Option<int>>,
    trace: seq<Event>)

  /** The closure of one builder, and a hook around it. */
  datatype Mutator = Terminal(builder: nat) | Wrapped(builder: nat, hook: nat, next: Mutator)

  predicate ValidMutator(env: Env, mut: Mutator) {
    && mut.builder < |env.hooks|
    && (mut.Wrapped? ==>
      mut.hook < |env.hooks[mut.builder]| && mut.next.builder == mut.builder && ValidMutator(env, mut.next))
  }

  /** Hooks k, k+1, ... of builder j around its closure: hook 0 is the outermost. */
  function Chain(env: Env, j: nat, k: nat): (mut: Mutator)
    requires j < |env.hooks| && k <= |env.hooks[j]|
    ensures ValidMutator(env, mut) && mut.builder == j
    decreases |env.hooks[j]| - k
  {
    if k == |env.hooks[j]| then Terminal(j) else Wrapped(j, k, Chain(env, j, k + 1))
  }

  predicate Sized(env: Env, st: State) {
    |st.mutations| == |st.nodes| == |st.specs| == |env.hooks|
  }

  // ---------------------------------------------------------------- one step

  function FieldsOf(own: AC.Fields, p: Passed): Option<AC.Fields> {
    match p
    case Own => Some(own)
    case Substitute(m) => Some(m.fields)
    case Foreign => None
  }

  /** The builder's own fields and the passed mutation after a hook's first half; None when it stops. */
  function AfterHook(own: AC.Fields, p: Passed, b: Before): Option<(AC.Fields, Passed)> {
    match b
    case Stop(_) => None
    case Edit(fields) =>
      (match p
       case Own => Some((fields, Own))
       case Substitute(m) => Some((own, Substitute(m.(fields := fields))))
       case Foreign => Some((own, Foreign)))
    case Swap(fields) => Some((own, Substitute(Mutation(fields, false))))
    case SwapForeign => Some((own, Foreign))
  }

  function Log(st: State, e: Event): State {
    st.(trace := st.trace + [e])
  }

  function SetOwn(st: State, j: nat, fields: AC.Fields): State
    requires j < |st.mutations|
  {
    st.(mutations := st.mutations[j := st.mutations[j].(fields := fields)])
  }

  /** `builder.mutation = mutation` and `nodes[i], specs[i] = builder.createSpec()`. */
  function Fill(st: State, j: nat, p: Passed): State
    requires j < |st.mutations| == |st.nodes| == |st.specs| && !p.Foreign?
  {
    var m := if p.Own? then st.mutations[j] else p.m;
    Log(st, Checked(j)).(
      mutations := st.mutations[j := m],
      nodes := st.nodes[j := Some(Node(m.fields, 0))],
      specs := st.specs[j := Some(m.fields)])
  }

  /** `sqlgraph.BatchCreate`. */
  function Insert(env: Env, st: State): (State, Outcome) {
    match env.insert(st.specs)
    case None => (Log(st, Inserted), Failure(Rejected))
    case Some(ids) => (Log(st, Inserted).(ids := ids), Success)
  }

  function IdAt(ids: seq<Option<int>>, j: nat): Option<int> {
    if j < |ids| then ids[j] else None
  }

  /** Sets the id of the node and the `done` flag. */
  function Finish(st: State, j: nat): State
    requires j < |st.mutations| == |st.nodes| && st.nodes[j].Some?
  {
    var node := st.nodes[j].value;
    st.(
      nodes := if IdAt(st.ids, j).Some? then st.nodes[j := Some(node.(id := IdAt(st.ids, j).value))] else st.nodes,
      mutations := st.mutations[j := st.mutations[j].(done := true)])
  }

  // ---------------------------------------------------------------- the whole chain

  /** `mut.Mutate(ctx, m)`. */
  function Mutate(env: Env, st: State, mut: Mutator, p: Passed): (r: (State, Outcome))
    requires Sized(env, st) && ValidMutator(env, mut)
    ensures Sized(env, r.0)
    ensures forall i :: 0 <= i < |st.nodes| && st.nodes[i].Some? ==> r.0.nodes[i].Some?
    decreases |env.hooks| - mut.builder, 1, mut
  {
    var j := mut.builder;
    match mut
    case Wrapped(_, k, next) =>
      var hook := env.hooks[j][k];
      var own := st.mutations[j].fields;
      var b := hook.before(FieldsOf(own, p));
      (match AfterHook(own, p, b)
       case None => (Log(st, Entered(j, k)), b.out)
       case Some((fields, p')) =>
         var r := Mutate(env, SetOwn(Log(st, Entered(j, k)), j, fields), next, p');
         (r.0, hook.after(r.1)))
    case Terminal(_) =>
      if p.Foreign? then (st, Failure(WrongMutation))
      else
        var err := AC.Check(env.cfg, st.mutations[j].fields);
        if err.Some? then (st, Failure(Builder(err.value)))
        else
          var r := Rest(env, Fill(st, j, p), j);
          if r.1.Failure? then r else (Finish(r.0, j), Success)
  }

  /** The next builder's chain, or the insert after the last one. */
  function Rest(env: Env, st: State, j: nat): (r: (State, Outcome))
    requires Sized(env, st) && j < |env.hooks|
    ensures Sized(env, r.0)
    ensures forall i :: 0 <= i < |st.nodes| && st.nodes[i].Some? ==> r.0.nodes[i].Some?
    decreases |env.hooks| - j, 0
  {
    if j < |env.hooks| - 1 then Mutate(env, st, Chain(env, j + 1, 0), Own) else Insert(env, st)
  }

  /** Before the first mutator runs: `defaults` has been applied to every builder, its error dropped. */
  function Start(env: Env, given: seq<Mutation>): State
    requires |given| == |env.hooks|
  {
    var n := |given|;
    State(
      seq(n, i requires 0 <= i < n => given[i].(fields := AC.Defaults(env.cfg, given[i].fields).0)),
      seq(n, _ => None), seq(n, _ => None), [], [])
  }

  /** The final state and outcome of `Save`. */
  function Run(env: Env, given: seq<Mutation>): (r: (State, Outcome))
    requires |given| == |env.hooks|
    ensures Sized(env, r.0)
  {
    if given == [] then (Start(env, given), Success) else Mutate(env, Start(env, given), Chain(env, 0, 0), Own)
  }

  // ---------------------------------------------------------------- the program

  /** The batch builder together with the variables captured by its closures. */
  class AccountCreateBulk {
    const err: Option<Error>
    var mutations: seq<Mutation>
    var nodes: seq<Option<Node>>
    var specs: seq<Option<AC.Fields>>
    var ids: seq<Option<int>>
    var trace: seq<Event>

    ghost function View(): State
      reads this
    {
      State(mutations, nodes, specs, ids, trace)
    }

    constructor (err: Option<Error>, builders: seq<AC.Fields>)
      ensures this.err == err
      ensures mutations == seq(|builders|, i requires 0 <= i < |builders| => Mutation(builders[i], false))
    {
      this.err := err;
      mutations := seq(|builders|, i requires 0 <= i < |builders| => Mutation(builders[i], false));
      nodes, specs, ids, trace := [], [], [], [];
    }

    /** Runs one mutator: a hook, or the closure of a builder. */
    method Call(env: Env, mutators: array<Mutator>, mut: Mutator, p: Passed) returns (out: Outcome)
      requires Sized(env, View()) && ValidMutator(env, mut)
      requires mutators.Length == |env.hooks|
      requires forall i :: 0 <= i < mutators.Length ==> mutators[i] == Chain(env, i, 0)
      modifies this
      ensures (View(), out) == Mutate(env, old(View()), mut, p)
      decreases |env.hooks| - mut.builder, 1, mut
    {
      var j := mut.builder;
      match mut {
        case Wrapped(_, k, next) =>
          var hook := env.hooks[j][k];
          var b := hook.before(FieldsOf(mutations[j].fields, p));
          trace := trace + [Entered(j, k)];
          match AfterHook(mutations[j].fields, p, b) {
            case None =>
              out := b.out;
            case Some((fields, p')) =>
              mutations := mutations[j := mutations[j].(fields := fields)];
              out := Call(env, mutators, next, p');
              out := hook.after(out);
          }
        case Terminal(_) =>
          out := CallTerminal(env, mutators, j, p);
      }
    }

    method CallTerminal(env: Env, mutators: array<Mutator>, j: nat, p: Passed) returns (out: Outcome)
      requires Sized(env, View()) && j < |env.hooks|
      requires mutators.Length == |env.hooks|
      requires forall i :: 0 <= i < mutators.Length ==> mutators[i] == Chain(env, i, 0)
      modifies this
      ensures (View(), out) == Mutate(env, old(View()), Terminal(j), p)
      decreases |env.hooks| - j, 0
    {
      if p.Foreign? {
        return Failure(WrongMutation);
      }
      var err := AC.Check(env.cfg, mutations[j].fields);
      if err.Some? {
        return Failure(Builder(err.value));
      }
      trace := trace + [Checked(j)];
      if p.Substitute? {
        mutations := mutations[j := p.m];
      }
      nodes := nodes[j := Some(Node(mutations[j].fields, 0))];
      specs := specs[j := Some(mutations[j].fields)];
      assert View() == Fill(old(View()), j, p);
      if j < mutators.Length - 1 {
        out := Call(env, mutators, mutators[j + 1], Own);
      } else {
        trace := trace + [Inserted];
        match env.insert(specs) {
          case None => out := Failure(Rejected);
          case Some(reported) => ids, out := reported, Success;
        }
      }
      assert (View(), out) == Rest(env, Fill(old(View()), j, p), j);
      if out.Failure? {
        return;
      }
      if IdAt(ids, j).Some? {
        nodes := nodes[j := Some(nodes[j].value.(id := IdAt(ids, j).value))];
      }
      mutations := mutations[j := mutations[j].(done := true)];
    }

    method Save(env: Env) returns (r: Result<seq<Option<Node>>, Error>)
      requires |mutations| == |env.hooks|
      modifies this
      ensures err.Some? ==> r == Err(err.value) && unchanged(this)
      ensures err.None? ==>
        var (st, out) := Run(env, old(mutations));
        && View() == st
        && r == (match out case Success => Ok(st.nodes) case Failure(e) => Err(e))
    {
      if err.Some? {
        return Err(err.value);
      }
      var n := |mutations|;
      ghost var given := mutations;
      nodes, specs, ids, trace := seq(n, _ => None), seq(n, _ => None), [], [];
      var mutators := new Mutator[n];
      for i := 0 to n
        invariant |mutations| == n
        invariant nodes == seq(n, _ => None) && specs == seq(n, _ => None) && ids == [] && trace == []
        invariant forall j :: 0 <= j < i ==>
          mutations[j] == given[j].(fields := AC.Defaults(env.cfg, given[j].fields).0)
        invariant forall j :: i <= j < n ==> mutations[j] == old(mutations)[j]
        invariant forall j :: 0 <= j < i ==> mutators[j] == Chain(env, j, 0)
      {
        mutations := mutations[i := mutations[i].(fields := AC.Defaults(env.cfg, mutations[i].fields).0)];
        var mut := Terminal(i);
        var k := |env.hooks[i]|;
        while k > 0
          invariant 0 <= k <= |env.hooks[i]|
          invariant mut == Chain(env, i, k)
        {
          k := k - 1;
          mut := Wrapped(i, k, mut);
        }
        mutators[i] := mut;
      }
      assert View() == Start(env, given);
      if n > 0 {
        var out := Call(env, mutators, mutators[0], Own);
        if out.Failure? {
          return Err(out.error);
        }
      }
      return Ok(nodes);
    }
  }

  // ---------------------------------------------------------------- order of the calls

  /** The only order in which calls can happen, from hook k of builder j on: hook 0 of builder 0 first,
      each builder's hooks before its check, builders in list order, and the insert last. */
  function Plan(env: Env, j: nat, k: nat): (plan: seq<Event>)
    requires j <= |env.hooks| && (j < |env.hooks| ==> k <= |env.hooks[j]|)
    ensures plan != []
    decreases |env.hooks| - j, if j < |env.hooks| then |env.hooks[j]| - k else 0
  {
    if j == |env.hooks| then [Inserted]
    else if k < |env.hooks[j]| then [Entered(j, k)] + Plan(env, j, k + 1)
    else [Checked(j)] + Plan(env, j + 1, 0)
  }

  /** `t` extends `a` by a prefix of `b`. */
  predicate Between(a: seq<Event>, t: seq<Event>, b: seq<Event>) {
    a <= t && t <= a + b
  }

  lemma BetweenStep(a: seq<Event>, e: Event, t: seq<Event>, b: seq<Event>)
    ensures Between(a, a, [e] + b)
    ensures Between(a, a + [e], [e] + b)
    ensures Between(a + [e], t, b) ==> Between(a, t, [e] + b)
  {
    assert (a + [e]) + b == a + ([e] + b);
  }

  /** What one hook does to the run of its chain. */
  lemma HookStep(env: Env, st: State, j: nat, k: nat, p: Passed)
    requires Sized(env, st) && j < |env.hooks| && k < |env.hooks[j]|
    ensures var own := st.mutations[j].fields;
            var b := env.hooks[j][k].before(FieldsOf(own, p));
            Mutate(env, st, Chain(env, j, k), p) ==
            match AfterHook(own, p, b)
            case None => (Log(st, Entered(j, k)), b.out)
            case Some((fields, p')) =>
              var r := Mutate(env, SetOwn(Log(st, Entered(j, k)), j, fields), Chain(env, j, k + 1), p');
              (r.0, env.hooks[j][k].after(r.1))
  {
  }

  /** The end of a closure, after its inner call has returned. */
  function Unwound(env: Env, inner: (State, Outcome), j: nat): (r: (State, Outcome))
    requires Sized(env, inner.0) && j < |env.hooks| && inner.0.nodes[j].Some?
    ensures Sized(env, r.0)
  {
    if inner.1.Failure? then inner else (Finish(inner.0, j), Success)
  }

  /** What the closure of one builder does. */
  lemma TerminalStep(env: Env, st: State, j: nat, p: Passed)
    requires Sized(env, st) && j < |env.hooks|
    ensures var r := Mutate(env, st, Chain(env, j, |env.hooks[j]|), p);
            if p.Foreign? || AC.Check(env.cfg, st.mutations[j].fields).Some? then r.0 == st && r.1.Failure?
            else
              var inner := Rest(env, Fill(st, j, p), j);
              r == Unwound(env, inner, j)
  {
  }

  /** Whatever the hooks do, the calls made are a prefix of the plan. */
  lemma {:induction false} CallsFollowPlan(env: Env, st: State, j: nat, k: nat, p: Passed)
    requires Sized(env, st) && j < |env.hooks| && k <= |env.hooks[j]|
    ensures Between(st.trace, Mutate(env, st, Chain(env, j, k), p).0.trace, Plan(env, j, k))
    decreases |env.hooks| - j, |env.hooks[j]| - k
  {
    var t := Mutate(env, st, Chain(env, j, k), p).0.trace;
    if k < |env.hooks[j]| {
      HookStep(env, st, j, k, p);
      BetweenStep(st.trace, Entered(j, k), t, Plan(env, j, k + 1));
      var own := st.mutations[j].fields;
      var next := AfterHook(own, p, env.hooks[j][k].before(FieldsOf(own, p)));
      if next.Some? {
        CallsFollowPlan(env, SetOwn(Log(st, Entered(j, k)), j, next.value.0), j, k + 1, next.value.1);
      }
      return;
    }
    BetweenStep(st.trace, Checked(j), t, Plan(env, j + 1, 0));
    if !p.Foreign? && AC.Check(env.cfg, st.mutations[j].fields).None? && j < |env.hooks| - 1 {
      CallsFollowPlan(env, Fill(st, j, p), j + 1, 0, Own);
    }
  }

  /** The insert is the last call of the list, and no other. */
  predicate InsertLast(plan: seq<Event>) {
    plan != [] && plan[|plan| - 1] == Inserted && Inserted !in plan[..|plan| - 1]
  }

  lemma InsertStaysLast(e: Event, plan: seq<Event>)
    requires InsertLast(plan) && e != Inserted
    ensures InsertLast([e] + plan)
  {
    assert ([e] + plan)[..|plan|] == [e] + plan[..|plan| - 1];
  }

  lemma {:induction false} PlanEndsWithInsert(env: Env, j: nat, k: nat)
    requires j <= |env.hooks| && (j < |env.hooks| ==> k <= |env.hooks[j]|)
    ensures InsertLast(Plan(env, j, k))
    decreases |env.hooks| - j, if j < |env.hooks| then |env.hooks[j]| - k else 0
  {
    if j == |env.hooks| {
      return;
    }
    if k < |env.hooks[j]| {
      PlanEndsWithInsert(env, j, k + 1);
      InsertStaysLast(Entered(j, k), Plan(env, j, k + 1));
      return;
    }
    PlanEndsWithInsert(env, j + 1, 0);
    InsertStaysLast(Checked(j), Plan(env, j + 1, 0));
  }

  /** For any builders, hooks and driver: the calls of a run are a prefix of the plan, so the insert
      happens at most once, and only after every hook was entered and every check passed. */
  lemma RunFollowsPlan(env: Env, given: seq<Mutation>)
    requires |given| == |env.hooks|
    ensures var trace := Run(env, given).0.trace;
            && trace <= Plan(env, 0, 0)
            && multiset(trace)[Inserted] <= 1
            && (Inserted in trace <==> trace == Plan(env, 0, 0))
  {
    PlanEndsWithInsert(env, 0, 0);
    RunCalls(env, given);
    PrefixOfPlan(Run(env, given).0.trace, Plan(env, 0, 0));
  }

  lemma RunCalls(env: Env, given: seq<Mutation>)
    requires |given| == |env.hooks|
    ensures Run(env, given).0.trace <= Plan(env, 0, 0)
  {
    if given == [] {
      return;
    }
    CallsFollowPlan(env, Start(env, given), 0, 0, Own);
    BetweenNothing(Run(env, given).0.trace, Plan(env, 0, 0));
  }

  lemma BetweenNothing(t: seq<Event>, plan: seq<Event>)
    requires Between([], t, plan)
    ensures t <= plan
  {
    assert [] + plan == plan;
  }

  lemma PrefixOfPlan(trace: seq<Event>, plan: seq<Event>)
    requires InsertLast(plan)
    requires trace <= plan
    ensures multiset(trace)[Inserted] <= 1
    ensures Inserted in trace <==> trace == plan
  {
    var front := plan[..|plan| - 1];
    assert plan == front + [Inserted];
    assert Inserted !in multiset(front);
    if |trace| < |plan| {
      assert trace == front[..|trace|];
      assert Inserted !in trace;
    } else {
      assert trace == plan;
      assert multiset(front + [Inserted]) == multiset(front) + multiset([Inserted]);
    }
  }

  // ---------------------------------------------------------------- what is inserted, and when

  /** What one builder's hooks make of its fields, without any chain: the builder's own fields and the
      mutation that reaches its closure; None when a hook stops. */
  function Handed(hooks: seq<Hook>, own: AC.Fields, p: Passed): Option<(AC.Fields, Passed)>
    decreases |hooks|
  {
    if hooks == [] then Some((own, p))
    else
      match AfterHook(own, p, hooks[0].before(FieldsOf(own, p)))
      case None => None
      case Some((fields, p')) => Handed(hooks[1..], fields, p')
  }

  /** The hooks hand an account mutation on, and the builder's own fields pass `check`. */
  predicate Writes(env: Env, h: Option<(AC.Fields, Passed)>) {
    h.Some? && !h.value.1.Foreign? && AC.Check(env.cfg, h.value.0).None?
  }

  /** The row that is written: the fields of the mutation that reached the closure. */
  function Row(h: (AC.Fields, Passed)): AC.Fields
    requires !h.1.Foreign?
  {
    if h.1.Own? then h.0 else h.1.m.fields
  }

  function HandedTo(env: Env, st: State, j: nat, k: nat, p: Passed, i: nat): Option<(AC.Fields, Passed)>
    requires Sized(env, st) && j <= i < |env.hooks| && k <= |env.hooks[j]|
  {
    if i == j then Handed(env.hooks[j][k..], st.mutations[j].fields, p)
    else Handed(env.hooks[i], st.mutations[i].fields, Own)
  }

  predicate WriteUpTo(env: Env, st: State, j: nat, k: nat, p: Passed, i: nat)
    requires Sized(env, st) && j <= i < |env.hooks| && k <= |env.hooks[j]|
  {
    forall l :: j <= l <= i ==> Writes(env, HandedTo(env, st, j, k, p, l))
  }

  /** Exactly when every builder from j on writes its row does the run reach the insert; then, and only
      then, every node is filled, and each spec is the row its builder's hooks produced. */
  ghost predicate Exact(env: Env, st: State, j: nat, k: nat, p: Passed)
    requires Sized(env, st) && j < |env.hooks| && k <= |env.hooks[j]|
  {
    EndsExactly(env, st, j, k, p, Mutate(env, st, Chain(env, j, k), p).0)
  }

  ghost predicate EndsExactly(env: Env, st: State, j: nat, k: nat, p: Passed, r: State)
    requires Sized(env, st) && Sized(env, r) && j < |env.hooks| && k <= |env.hooks[j]|
  {
    var full := r.trace == st.trace + Plan(env, j, k);
    && (full <==> WriteUpTo(env, st, j, k, p, |env.hooks| - 1))
    && (full <==> forall i :: j <= i < |env.hooks| ==> r.nodes[i].Some?)
    && (full ==> forall i :: j <= i < |env.hooks| ==> IsRow(HandedTo(env, st, j, k, p, i), r.specs[i]))
    && (forall i :: 0 <= i < j ==> r.specs[i] == st.specs[i])
  }

  lemma ExactThroughHook(env: Env, st: State, j: nat, k: nat, p: Passed, st': State, p': Passed)
    requires Sized(env, st) && j < |env.hooks| && k < |env.hooks[j]|
    requires var own := st.mutations[j].fields;
             var next := AfterHook(own, p, env.hooks[j][k].before(FieldsOf(own, p)));
             next.Some? && st' == SetOwn(Log(st, Entered(j, k)), j, next.value.0) && p' == next.value.1
    requires Exact(env, st', j, k + 1, p')
    ensures Exact(env, st, j, k, p)
  {
    HookStep(env, st, j, k, p);
    assert st'.trace + Plan(env, j, k + 1) == st.trace + Plan(env, j, k);
    HandedThroughHook(env, st, j, k, p, st', p');
    SameExact(env, st, j, k, p, st', j, k + 1, p');
  }

  /** Two runs that end in the same state, plan the same calls and are handed the same. */
  lemma SameExact(env: Env, st: State, j: nat, k: nat, p: Passed, st': State, j': nat, k': nat, p': Passed)
    requires Sized(env, st) && Sized(env, st') && j == j' < |env.hooks| && k <= |env.hooks[j]| && k' <= |env.hooks[j]|
    requires Mutate(env, st, Chain(env, j, k), p).0 == Mutate(env, st', Chain(env, j, k'), p').0
    requires st'.trace + Plan(env, j, k') == st.trace + Plan(env, j, k) && st'.specs == st.specs
    requires forall i :: j <= i < |env.hooks| ==> HandedTo(env, st, j, k, p, i) == HandedTo(env, st', j, k', p', i)
    requires Exact(env, st', j, k', p')
    ensures Exact(env, st, j, k, p)
  {
  }

  lemma HandedThroughHook(env: Env, st: State, j: nat, k: nat, p: Passed, st': State, p': Passed)
    requires Sized(env, st) && j < |env.hooks| && k < |env.hooks[j]|
    requires var own := st.mutations[j].fields;
             var next := AfterHook(own, p, env.hooks[j][k].before(FieldsOf(own, p)));
             next.Some? && st' == SetOwn(Log(st, Entered(j, k)), j, next.value.0) && p' == next.value.1
    ensures forall i :: j <= i < |env.hooks| ==> HandedTo(env, st, j, k, p, i) == HandedTo(env, st', j, k + 1, p', i)
  {
    assert env.hooks[j][k..][0] == env.hooks[j][k] && env.hooks[j][k..][1..] == env.hooks[j][k + 1..];
  }

  /** The closure of builder j adds its check to the calls and keeps what the later builders filled. */
  lemma ClosureKeeps(env: Env, st: State, j: nat, p: Passed)
    requires Sized(env, st) && j < |env.hooks| - 1
    requires Writes(env, Some((st.mutations[j].fields, p)))
    ensures var r := Mutate(env, st, Chain(env, j, |env.hooks[j]|), p).0;
            var inner := Mutate(env, Fill(st, j, p), Chain(env, j + 1, 0), Own).0;
            && r.trace == inner.trace && r.specs == inner.specs && r.nodes[j].Some?
            && forall i {:trigger r.nodes[i]} {:trigger inner.nodes[i]} ::
                j < i < |env.hooks| ==> (r.nodes[i].Some? <==> inner.nodes[i].Some?)
  {
    TerminalStep(env, st, j, p);
  }

  lemma ExactThroughClosure(env: Env, st: State, j: nat, p: Passed)
    requires Sized(env, st) && j < |env.hooks| - 1
    requires Writes(env, Some((st.mutations[j].fields, p)))
    requires Exact(env, Fill(st, j, p), j + 1, 0, Own)
    ensures Exact(env, st, j, |env.hooks[j]|, p)
  {
    ClosureKeeps(env, st, j, p);
    var r := Mutate(env, st, Chain(env, j, |env.hooks[j]|), p).0;
    var inner := Mutate(env, Fill(st, j, p), Chain(env, j + 1, 0), Own).0;
    EndsThroughClosure(env, st, j, p, r, inner);
  }

  lemma EndsThroughClosure(env: Env, st: State, j: nat, p: Passed, r: State, inner: State)
    requires Sized(env, st) && Sized(env, r) && Sized(env, inner) && j < |env.hooks| - 1
    requires Writes(env, Some((st.mutations[j].fields, p)))
    requires EndsExactly(env, Fill(st, j, p), j + 1, 0, Own, inner)
    requires r.trace == inner.trace && r.specs == inner.specs && r.nodes[j].Some?
    requires forall i {:trigger r.nodes[i]} {:trigger inner.nodes[i]} ::
      j < i < |env.hooks| ==> (r.nodes[i].Some? <==> inner.nodes[i].Some?)
    ensures EndsExactly(env, st, j, |env.hooks[j]|, p, r)
  {
    var st' := Fill(st, j, p);
    WriteUpToClosure(env, st, j, p, |env.hooks| - 1);
    SpecsThroughClosure(env, st, j, p, inner);
    assert st'.trace + Plan(env, j + 1, 0) == st.trace + Plan(env, j, |env.hooks[j]|);
  }

  predicate IsRow(h: Option<(AC.Fields, Passed)>, spec: Option<AC.Fields>) {
    h.Some? && !h.value.1.Foreign? && spec == Some(Row(h.value))
  }

  lemma SpecsThroughClosure(env: Env, st: State, j: nat, p: Passed, inner: State)
    requires Sized(env, st) && Sized(env, inner) && j < |env.hooks| - 1
    requires Writes(env, Some((st.mutations[j].fields, p)))
    requires forall i :: 0 <= i < j + 1 ==> inner.specs[i] == Fill(st, j, p).specs[i]
    ensures forall i :: 0 <= i < j ==> inner.specs[i] == st.specs[i]
    ensures (forall i :: j + 1 <= i < |env.hooks| ==>
        IsRow(HandedTo(env, Fill(st, j, p), j + 1, 0, Own, i), inner.specs[i])) ==>
      forall i :: j <= i < |env.hooks| ==> IsRow(HandedTo(env, st, j, |env.hooks[j]|, p, i), inner.specs[i])
  {
    HandedThroughClosure(env, st, j, p);
    assert inner.specs[j] == Fill(st, j, p).specs[j];
  }

  lemma HandedThroughClosure(env: Env, st: State, j: nat, p: Passed)
    requires Sized(env, st) && j < |env.hooks| - 1
    requires Writes(env, Some((st.mutations[j].fields, p)))
    ensures HandedTo(env, st, j, |env.hooks[j]|, p, j) == Some((st.mutations[j].fields, p))
    ensures var (st', k) := (Fill(st, j, p), |env.hooks[j]|);
            forall i {:trigger HandedTo(env, st, j, k, p, i)} {:trigger HandedTo(env, st', j + 1, 0, Own, i)} ::
              j < i < |env.hooks| ==> HandedTo(env, st, j, k, p, i) == HandedTo(env, st', j + 1, 0, Own, i)
  {
    assert env.hooks[j + 1][0..] == env.hooks[j + 1];
  }

  lemma ExactWhenStopped(env: Env, st: State, j: nat, k: nat, p: Passed)
    requires Sized(env, st) && j < |env.hooks| && k < |env.hooks[j]| && st.nodes[j].None?
    requires var own := st.mutations[j].fields; AfterHook(own, p, env.hooks[j][k].before(FieldsOf(own, p))).None?
    ensures Exact(env, st, j, k, p)
  {
    HookStep(env, st, j, k, p);
    var r := Mutate(env, st, Chain(env, j, k), p).0;
    assert env.hooks[j][k..][0] == env.hooks[j][k];
    assert HandedTo(env, st, j, k, p, j).None?;
    assert r == Log(st, Entered(j, k)) && r.nodes[j].None?;
    assert st.trace + Plan(env, j, k) == (st.trace + [Entered(j, k)]) + Plan(env, j, k + 1);
  }

  lemma ExactAtEnd(env: Env, st: State, j: nat, p: Passed)
    requires Sized(env, st) && j < |env.hooks| && st.nodes[j].None?
    requires Writes(env, Some((st.mutations[j].fields, p))) ==> j == |env.hooks| - 1
    ensures Exact(env, st, j, |env.hooks[j]|, p)
  {
    var k := |env.hooks[j]|;
    var r := Mutate(env, st, Chain(env, j, k), p).0;
    TerminalStep(env, st, j, p);
    assert HandedTo(env, st, j, k, p, j) == Some((st.mutations[j].fields, p));
    assert Writes(env, Some((st.mutations[j].fields, p))) || (r == st && r.nodes[j].None?);
    assert st.trace + Plan(env, j, k) == (st.trace + [Checked(j)]) + Plan(env, j + 1, 0);
  }

  lemma {:induction false} InsertExactly(env: Env, st: State, j: nat, k: nat, p: Passed)
    requires Sized(env, st) && j < |env.hooks| && k <= |env.hooks[j]|
    requires forall i :: j <= i < |env.hooks| ==> st.nodes[i].None?
    ensures Exact(env, st, j, k, p)
    decreases |env.hooks| - j, |env.hooks[j]| - k
  {
    var own := st.mutations[j].fields;
    if k < |env.hooks[j]| {
      var next := AfterHook(own, p, env.hooks[j][k].before(FieldsOf(own, p)));
      if next.Some? {
        var st' := SetOwn(Log(st, Entered(j, k)), j, next.value.0);
        InsertExactly(env, st', j, k + 1, next.value.1);
        ExactThroughHook(env, st, j, k, p, st', next.value.1);
        return;
      }
      ExactWhenStopped(env, st, j, k, p);
      return;
    }
    if Writes(env, Some((own, p))) && j < |env.hooks| - 1 {
      InsertExactly(env, Fill(st, j, p), j + 1, 0, Own);
      ExactThroughClosure(env, st, j, p);
      return;
    }
    ExactAtEnd(env, st, j, p);
  }

  /** What builder i's hooks make of its fields, looked at alone. */
  function Part(env: Env, given: seq<Mutation>, i: nat): Option<(AC.Fields, Passed)>
    requires |given| == |env.hooks| && i < |given|
  {
    Handed(env.hooks[i], AC.Defaults(env.cfg, given[i].fields).0, Own)
  }

  /** The chain refines one test per builder: for any hooks, the batch insert runs iff every builder's
      hooks hand an account mutation on and the builder's own fields pass `check`; then the batch is the
      list of the rows, in builder order; and the returned slice has no nil entry iff the insert ran. */
  lemma BatchIsPerBuilder(env: Env, given: seq<Mutation>)
    requires |given| == |env.hooks| && given != []
    ensures var st := Run(env, given).0;
            && (Inserted in st.trace <==> forall i :: 0 <= i < |given| ==> Writes(env, Part(env, given, i)))
            && (Inserted in st.trace <==> forall i :: 0 <= i < |given| ==> st.nodes[i].Some?)
            && (Inserted in st.trace ==> forall i :: 0 <= i < |given| ==>
              st.specs[i] == Some(Row(Part(env, given, i).value)))
  {
    var st := Start(env, given);
    RunFollowsPlan(env, given);
    InsertExactly(env, st, 0, 0, Own);
    assert [] + Plan(env, 0, 0) == Plan(env, 0, 0);
    assert env.hooks[0][0..] == env.hooks[0];
    assert forall i {:trigger Part(env, given, i)} {:trigger HandedTo(env, st, 0, 0, Own, i)} ::
        0 <= i < |given| ==> HandedTo(env, st, 0, 0, Own, i) == Part(env, given, i);
  }

  /** Fields that are edited by one hook after the other. */
  function EditedBy(edits: seq<AC.Fields -> AC.Fields>, fields: AC.Fields): AC.Fields {
    if edits == [] then fields else EditedBy(edits[1..], edits[0](fields))
  }

  ghost predicate OnlyEdits(hooks: seq<Hook>, edits: seq<AC.Fields -> AC.Fields>) {
    |edits| == |hooks| && forall k, f :: 0 <= k < |hooks| ==> hooks[k].before(Some(f)) == Edit(edits[k](f))
  }

  lemma {:induction false} HandedEdits(hooks: seq<Hook>, edits: seq<AC.Fields -> AC.Fields>, own: AC.Fields)
    requires OnlyEdits(hooks, edits)
    ensures Handed(hooks, own, Own) == Some((EditedBy(edits, own), Own))
    decreases |hooks|
  {
    if hooks != [] {
      assert hooks[0].before(Some(own)) == Edit(edits[0](own));
      assert forall k :: 0 <= k < |hooks| - 1 ==> hooks[1..][k] == hooks[k + 1] && edits[1..][k] == edits[k + 1];
      HandedEdits(hooks[1..], edits[1..], edits[0](own));
    }
  }

  /** What hooks set is what is checked and inserted: the row of a builder whose hooks edit its mutation is its fields
      with the defaults, edited by the hooks from the outermost inwards. */
  lemma EditsReachRow(env: Env, given: seq<Mutation>, i: nat, edits: seq<AC.Fields -> AC.Fields>)
    requires |given| == |env.hooks| && i < |given| && OnlyEdits(env.hooks[i], edits)
    ensures var row := EditedBy(edits, AC.Defaults(env.cfg, given[i].fields).0);
            Inserted in Run(env, given).0.trace ==>
              Run(env, given).0.specs[i] == Some(row) && AC.Check(env.cfg, row).None?
  {
    HandedEdits(env.hooks[i], edits, AC.Defaults(env.cfg, given[i].fields).0);
    BatchIsPerBuilder(env, given);
    assert Inserted in Run(env, given).0.trace ==> Writes(env, Part(env, given, i));
  }

  predicate Sets(b: Before, fields: AC.Fields) {
    b == Edit(fields) || b == Swap(fields)
  }

  /** The hook edits the mutation it is handed, or puts another one in its place, always with the same fields. */
  ghost predicate AlwaysSets(hook: Hook, fields: AC.Fields) {
    forall f: Option<AC.Fields> :: Sets(hook.before(f), fields)
  }

  lemma {:induction false} HandedLast(hooks: seq<Hook>, own: AC.Fields, p: Passed, set_: AC.Fields)
    requires hooks != [] && AlwaysSets(hooks[|hooks| - 1], set_)
    ensures var h := Handed(hooks, own, p); h.Some? && !h.value.1.Foreign? ==> Row(h.value) == set_
    decreases |hooks|
  {
    var next := AfterHook(own, p, hooks[0].before(FieldsOf(own, p)));
    if |hooks| == 1 {
      assert hooks[1..] == [];
      assert Sets(hooks[0].before(FieldsOf(own, p)), set_);
    } else if next.Some? {
      HandedLast(hooks[1..], next.value.0, next.value.1, set_);
    }
  }

  /** Whatever the outer hooks do, what the innermost one sets, by editing the mutation or by putting another one in its
      place, is the row that is inserted. */
  lemma LastSettingReachesRow(env: Env, given: seq<Mutation>, i: nat, set_: AC.Fields)
    requires |given| == |env.hooks| && i < |given| && env.hooks[i] != []
    requires AlwaysSets(env.hooks[i][|env.hooks[i]| - 1], set_)
    ensures Inserted in Run(env, given).0.trace ==> Run(env, given).0.specs[i] == Some(set_)
  {
    HandedLast(env.hooks[i], AC.Defaults(env.cfg, given[i].fields).0, Own, set_);
    BatchIsPerBuilder(env, given);
    assert Inserted in Run(env, given).0.trace ==> Writes(env, Part(env, given, i));
  }

  /** `check` looks at the builder's own mutation before the passed one replaces it. So all inserted rows are
      writable iff every mutation that a hook put in place of the builder's own is. */
  lemma InsertedRowsChecked(env: Env, given: seq<Mutation>)
    requires |given| == |env.hooks| && Inserted in Run(env, given).0.trace
    ensures var specs := Run(env, given).0.specs;
            && (forall i :: 0 <= i < |given| ==> specs[i].Some?)
            && ((forall i :: 0 <= i < |given| ==> AC.Writable(env.cfg, specs[i].value)) <==>
                 forall i :: 0 <= i < |given| ==> SubstituteWritable(env, Part(env, given, i)))
  {
    var specs := Run(env, given).0.specs;
    BatchIsPerBuilder(env, given);
    forall i | 0 <= i < |given| ensures specs[i].Some?
      && (AC.Writable(env.cfg, specs[i].value) <==> SubstituteWritable(env, Part(env, given, i))) {
      assert Writes(env, Part(env, given, i));
      AC.CheckIsWritable(env.cfg, Part(env, given, i).value.0);
    }
  }

  ghost predicate SubstituteWritable(env: Env, h: Option<(AC.Fields, Passed)>) {
    h.Some? && h.value.1.Substitute? ==> AC.Writable(env.cfg, h.value.1.m.fields)
  }

  /** A family of inputs where the check is bypassed: one builder that passes, and a hook that hands on a
      fresh mutation with any fields at all. Those fields reach the insert. */
  lemma SwappedFieldsSkipCheck(env: Env, m: Mutation, swapped: AC.Fields)
    requires |env.hooks| == 1 && |env.hooks[0]| == 1
      && forall f: Option<AC.Fields> :: env.hooks[0][0].before(f) == Swap(swapped)
    requires AC.Check(env.cfg, AC.Defaults(env.cfg, m.fields).0).None?
    ensures var st := Run(env, [m]).0;
            Inserted in st.trace && st.specs == [Some(swapped)]
  {
    var own := AC.Defaults(env.cfg, m.fields).0;
    assert env.hooks[0][1..] == [];
    assert Handed([], own, Substitute(Mutation(swapped, false))) == Some((own, Substitute(Mutation(swapped, false))));
    assert Part(env, [m], 0) == Some((own, Substitute(Mutation(swapped, false))));
    BatchIsPerBuilder(env, [m]);
  }

  // ---------------------------------------------------------------- done flags

  /** A hook that may fail or edit, but neither reports success without calling on nor hides an error. */
  ghost predicate Honest(hook: Hook) {
    && (forall f: Option<AC.Fields> :: hook.before(f) != Stop(Success))
    && (forall e: Error :: hook.after(Failure(e)).Failure?)
  }

  /** A hook that always calls on and reports what it gets; it may still edit or replace the mutation. */
  ghost predicate Transparent(hook: Hook) {
    && (forall f: Option<AC.Fields> :: !hook.before(f).Stop?)
    && (forall o: Outcome :: hook.after(o) == o)
  }

  /** The builders have not been saved before. */
  predicate NoneDone(given: seq<Mutation>) {
    forall i :: 0 <= i < |given| ==> !given[i].done
  }

  ghost predicate AllHonest(env: Env) {
    forall j, k :: 0 <= j < |env.hooks| && 0 <= k < |env.hooks[j]| ==> Honest(env.hooks[j][k])
  }

  ghost predicate AllTransparent(env: Env) {
    forall j, k :: 0 <= j < |env.hooks| && 0 <= k < |env.hooks[j]| ==> Transparent(env.hooks[j][k])
  }

  /** From builder j on, exactly the builders s, s+1, ... are done; if there are any, the insert ran and
      succeeded, and their nodes carry the ids reported for their rows. */
  predicate DoneFrom(env: Env, st: State, j: nat, s: nat)
    requires Sized(env, st)
  {
    && j <= s <= |env.hooks|
    && (forall i :: j <= i < |env.hooks| ==> (st.mutations[i].done <==> s <= i))
    && (s < |env.hooks| ==> Inserted in st.trace && env.insert(st.specs) == Some(st.ids))
    && (forall i :: s <= i < |env.hooks| ==> st.nodes[i].Some? && NodeOf(st, i))
  }

  /** The result of a run from builder j on: a done suffix, which is everything on success. */
  predicate Suffix(env: Env, r: (State, Outcome), j: nat, s: nat)
    requires Sized(env, r.0)
  {
    && DoneFrom(env, r.0, j, s)
    && (r.1.Success? ==> s == j && env.insert(r.0.specs) == Some(r.0.ids) && Inserted in r.0.trace)
  }

  predicate NodeOf(st: State, i: nat)
    requires i < |st.nodes| == |st.specs| && st.nodes[i].Some?
  {
    && st.specs[i] == Some(st.nodes[i].value.fields)
    && st.nodes[i].value.id == if IdAt(st.ids, i).Some? then IdAt(st.ids, i).value else 0
  }

  ghost predicate Fresh(env: Env, st: State, j: nat, p: Passed)
    requires Sized(env, st)
  {
    && (forall i :: j <= i < |env.hooks| ==> !st.mutations[i].done)
    && (p.Substitute? ==> !p.m.done)
  }

  /** The nodes, rows and mutations of the builders before j are the same. */
  predicate SameBefore(st: State, st': State, j: nat)
    requires j <= |st.nodes| == |st.specs| == |st.mutations|
      && |st'.nodes| == |st'.specs| == |st'.mutations| == |st.nodes|
  {
    forall i :: 0 <= i < j ==>
      st'.nodes[i] == st.nodes[i] && st'.specs[i] == st.specs[i] && st'.mutations[i] == st.mutations[i]
  }

  /** A run that starts at builder j leaves the nodes and flags of the earlier builders alone. */
  lemma {:induction false} EarlierUntouched(env: Env, st: State, j: nat, k: nat, p: Passed)
    requires Sized(env, st) && j < |env.hooks| && k <= |env.hooks[j]|
    ensures SameBefore(st, Mutate(env, st, Chain(env, j, k), p).0, j)
    decreases |env.hooks| - j, |env.hooks[j]| - k
  {
    var own := st.mutations[j].fields;
    if k < |env.hooks[j]| {
      HookStep(env, st, j, k, p);
      var next := AfterHook(own, p, env.hooks[j][k].before(FieldsOf(own, p)));
      if next.Some? {
        EarlierUntouched(env, SetOwn(Log(st, Entered(j, k)), j, next.value.0), j, k + 1, next.value.1);
      }
      return;
    }
    if Writes(env, Some((own, p))) && j < |env.hooks| - 1 {
      EarlierUntouched(env, Fill(st, j, p), j + 1, 0, Own);
    }
    UntouchedByClosure(env, st, j, p);
  }

  lemma UntouchedByClosure(env: Env, st: State, j: nat, p: Passed)
    requires Sized(env, st) && j < |env.hooks|
    requires Writes(env, Some((st.mutations[j].fields, p))) && j < |env.hooks| - 1 ==>
      SameBefore(Fill(st, j, p), Mutate(env, Fill(st, j, p), Chain(env, j + 1, 0), Own).0, j + 1)
    ensures SameBefore(st, Mutate(env, st, Chain(env, j, |env.hooks[j]|), p).0, j)
  {
    TerminalStep(env, st, j, p);
    if !Writes(env, Some((st.mutations[j].fields, p))) {
      return;
    }
    var st' := Fill(st, j, p);
    var inner := Rest(env, st', j);
    if j < |env.hooks| - 1 {
      assert inner == Mutate(env, st', Chain(env, j + 1, 0), Own);
    }
    assert SameBefore(st', inner.0, j);
  }

  /** Setting the id and flag of builder j extends the suffix by one. */
  lemma FinishExtends(env: Env, st: State, j: nat)
    requires Sized(env, st) && j < |env.hooks| && DoneFrom(env, st, j + 1, j + 1)
    requires st.nodes[j].Some? && st.nodes[j].value.id == 0 && st.specs[j] == Some(st.nodes[j].value.fields)
    requires Inserted in st.trace && env.insert(st.specs) == Some(st.ids)
    ensures DoneFrom(env, Finish(st, j), j, j)
  {
    var st' := Finish(st, j);
    assert forall i :: j < i < |env.hooks| ==> st'.nodes[i] == st.nodes[i] && st'.mutations[i] == st.mutations[i];
    forall i | j <= i < |env.hooks| ensures st'.nodes[i].Some? && NodeOf(st', i) {
      assert i > j ==> NodeOf(st, i);
    }
  }

  lemma AfterKeepsSuffix(env: Env, hook: Hook, r: (State, Outcome), j: nat, s: nat)
    requires Sized(env, r.0) && Honest(hook) && Suffix(env, r, j, s)
    ensures Suffix(env, (r.0, hook.after(r.1)), j, s)
  {
  }

  /** With honest hooks the done builders are a suffix, and nothing is done unless the rows were inserted. */
  lemma {:induction false} HonestRun(env: Env, st: State, j: nat, k: nat, p: Passed) returns (s: nat)
    requires Sized(env, st) && j < |env.hooks| && k <= |env.hooks[j]|
    requires AllHonest(env) && Fresh(env, st, j, p)
    ensures Suffix(env, Mutate(env, st, Chain(env, j, k), p), j, s)
    decreases |env.hooks| - j, 1, |env.hooks[j]| - k
  {
    var own := st.mutations[j].fields;
    if k < |env.hooks[j]| {
      HookStep(env, st, j, k, p);
      assert Honest(env.hooks[j][k]);
      var next := AfterHook(own, p, env.hooks[j][k].before(FieldsOf(own, p)));
      if next.None? {
        return |env.hooks|;
      }
      var st' := SetOwn(Log(st, Entered(j, k)), j, next.value.0);
      s := HonestRun(env, st', j, k + 1, next.value.1);
      AfterKeepsSuffix(env, env.hooks[j][k], Mutate(env, st', Chain(env, j, k + 1), next.value.1), j, s);
      return;
    }
    if Writes(env, Some((own, p))) {
      s := HonestClosure(env, st, j, p);
      return;
    }
    TerminalStep(env, st, j, p);
    s := |env.hooks|;
  }

  lemma {:induction false} HonestClosure(env: Env, st: State, j: nat, p: Passed) returns (s: nat)
    requires Sized(env, st) && j < |env.hooks| && Writes(env, Some((st.mutations[j].fields, p)))
    requires AllHonest(env) && Fresh(env, st, j, p)
    ensures Suffix(env, Mutate(env, st, Chain(env, j, |env.hooks[j]|), p), j, s)
    decreases |env.hooks| - j, 0
  {
    FillIsFresh(env, st, j, p);
    s := HonestRest(env, Fill(st, j, p), j);
    s := Unwind(env, Fill(st, j, p), j, Rest(env, Fill(st, j, p), j), s);
    TerminalStep(env, st, j, p);
  }

  lemma {:induction false} HonestRest(env: Env, st: State, j: nat) returns (s: nat)
    requires Sized(env, st) && j < |env.hooks| && AllHonest(env) && Fresh(env, st, j, Own)
    ensures var inner := Rest(env, st, j);
            && Suffix(env, inner, j + 1, s)
            && inner.0.nodes[j] == st.nodes[j] && inner.0.specs[j] == st.specs[j] && !inner.0.mutations[j].done
    decreases |env.hooks| - j - 1, 2
  {
    if j == |env.hooks| - 1 {
      HonestInsert(env, st, j);
      return j + 1;
    }
    s := HonestRun(env, st, j + 1, 0, Own);
    RestUntouched(env, st, j);
  }

  lemma RestUntouched(env: Env, st: State, j: nat)
    requires Sized(env, st) && j < |env.hooks| - 1
    ensures var inner := Rest(env, st, j);
            && inner == Mutate(env, st, Chain(env, j + 1, 0), Own)
            && inner.0.nodes[j] == st.nodes[j] && inner.0.specs[j] == st.specs[j]
              && inner.0.mutations[j] == st.mutations[j]
  {
    EarlierUntouched(env, st, j + 1, 0, Own);
  }

  lemma HonestInsert(env: Env, st: State, j: nat)
    requires Sized(env, st) && j == |env.hooks| - 1 && Fresh(env, st, j, Own)
    ensures var inner := Rest(env, st, j);
            && Suffix(env, inner, j + 1, j + 1)
            && inner.0.nodes[j] == st.nodes[j] && inner.0.specs[j] == st.specs[j] && !inner.0.mutations[j].done
  {
  }

  lemma FillIsFresh(env: Env, st: State, j: nat, p: Passed)
    requires Sized(env, st) && j < |env.hooks| && !p.Foreign? && Fresh(env, st, j, p)
    ensures var st' := Fill(st, j, p);
            && Fresh(env, st', j, Own)
            && st'.nodes[j].Some? && st'.nodes[j].value.id == 0 && st'.specs[j] == Some(st'.nodes[j].value.fields)
  {
  }

  /** The end of a closure, after the inner call has returned `inner`. */
  lemma Unwind(env: Env, st': State, j: nat, inner: (State, Outcome), s: nat) returns (s': nat)
    requires Sized(env, st') && Sized(env, inner.0) && j < |env.hooks| && Suffix(env, inner, j + 1, s)
    requires st'.nodes[j].Some? && st'.nodes[j].value.id == 0 && st'.specs[j] == Some(st'.nodes[j].value.fields)
    requires inner.0.nodes[j] == st'.nodes[j] && inner.0.specs[j] == st'.specs[j] && !inner.0.mutations[j].done
    ensures Suffix(env, Unwound(env, inner, j), j, s')
  {
    if inner.1.Success? {
      FinishExtends(env, inner.0, j);
      s' := j;
    } else {
      s' := s;
    }
  }

  /** For honest hooks and any driver: the builders marked done are a suffix of the list; if any is done the
      batch was inserted and accepted and the done nodes carry their rows' ids; and `Save` succeeds on a
      non-empty list only if all are done. */
  lemma DoneIsSuffix(env: Env, given: seq<Mutation>) returns (s: nat)
    requires |given| == |env.hooks| && given != [] && NoneDone(given)
    requires AllHonest(env)
    ensures var (st, out) := Run(env, given);
            DoneFrom(env, st, 0, s) && (out.Success? ==> s == 0)
  {
    s := HonestRun(env, Start(env, given), 0, 0, Own);
  }

  /** The run from hook k of builder j on either succeeds, all calls made and the batch accepted, or leaves
      none of its builders done. */
  ghost predicate AllOrNone(env: Env, st: State, r: (State, Outcome), j: nat, k: nat)
    requires Sized(env, r.0) && j <= |env.hooks| && (j < |env.hooks| ==> k <= |env.hooks[j]|)
  {
    && (r.1.Failure? ==> forall i :: j <= i < |env.hooks| ==> !r.0.mutations[i].done)
    && (r.1.Success? <==> r.0.trace == st.trace + Plan(env, j, k) && env.insert(r.0.specs).Some?)
  }

  lemma {:induction false} TransparentRun(env: Env, st: State, j: nat, k: nat, p: Passed)
    requires Sized(env, st) && j < |env.hooks| && k <= |env.hooks[j]|
    requires AllTransparent(env) && Fresh(env, st, j, p)
    ensures AllOrNone(env, st, Mutate(env, st, Chain(env, j, k), p), j, k)
    decreases |env.hooks| - j, 0, |env.hooks[j]| - k
  {
    var own := st.mutations[j].fields;
    if k < |env.hooks[j]| {
      HookStep(env, st, j, k, p);
      assert Transparent(env.hooks[j][k]);
      var next := AfterHook(own, p, env.hooks[j][k].before(FieldsOf(own, p))).value;
      var st' := SetOwn(Log(st, Entered(j, k)), j, next.0);
      TransparentRun(env, st', j, k + 1, next.1);
      TransparentHook(env, st, st', j, k, Mutate(env, st', Chain(env, j, k + 1), next.1));
      return;
    }
    TerminalStep(env, st, j, p);
    if !Writes(env, Some((own, p))) {
      assert Plan(env, j, k) != [];
      return;
    }
    FillIsFresh(env, st, j, p);
    TransparentRest(env, Fill(st, j, p), j);
    TransparentClosure(env, st, Fill(st, j, p), j, Rest(env, Fill(st, j, p), j));
  }

  lemma {:induction false} TransparentRest(env: Env, st: State, j: nat)
    requires Sized(env, st) && j < |env.hooks| && AllTransparent(env) && Fresh(env, st, j, Own)
    ensures AllOrNone(env, st, Rest(env, st, j), j + 1, 0) && !Rest(env, st, j).0.mutations[j].done
    decreases |env.hooks| - j - 1, 1
  {
    if j == |env.hooks| - 1 {
      return;
    }
    TransparentRun(env, st, j + 1, 0, Own);
    EarlierUntouched(env, st, j + 1, 0, Own);
  }

  lemma TransparentHook(env: Env, st: State, st': State, j: nat, k: nat, r: (State, Outcome))
    requires Sized(env, r.0) && j < |env.hooks| && k < |env.hooks[j]|
    requires st'.trace == st.trace + [Entered(j, k)] && AllOrNone(env, st', r, j, k + 1)
    ensures AllOrNone(env, st, r, j, k)
  {
    assert (st.trace + [Entered(j, k)]) + Plan(env, j, k + 1) == st.trace + Plan(env, j, k);
  }

  lemma TransparentClosure(env: Env, st: State, st': State, j: nat, inner: (State, Outcome))
    requires Sized(env, st) && Sized(env, st') && Sized(env, inner.0) && j < |env.hooks|
    requires st'.trace == st.trace + [Checked(j)]
    requires AllOrNone(env, st', inner, j + 1, 0) && !inner.0.mutations[j].done
    requires inner.0.nodes[j].Some?
    ensures AllOrNone(env, st, Unwound(env, inner, j), j, |env.hooks[j]|)
  {
    assert (st.trace + [Checked(j)]) + Plan(env, j + 1, 0) == st.trace + Plan(env, j, |env.hooks[j]|);
    if inner.1.Failure? {
      return;
    }
    var st'' := Finish(inner.0, j);
    assert st''.trace == inner.0.trace && st''.specs == inner.0.specs;
  }

  /** The rows of the batch, if it is inserted. */
  function Batch(env: Env, given: seq<Mutation>): seq<Option<AC.Fields>>
    requires |given| == |env.hooks|
  {
    seq(|given|, i requires 0 <= i < |given| =>
      if Writes(env, Part(env, given, i)) then Some(Row(Part(env, given, i).value)) else None)
  }

  /** Every builder writes its row and the driver accepts the batch. */
  predicate Accepted(env: Env, given: seq<Mutation>)
    requires |given| == |env.hooks|
  {
    (forall i :: 0 <= i < |given| ==> Writes(env, Part(env, given, i))) && env.insert(Batch(env, given)).Some?
  }

  /** All or nothing, with the exact condition: with transparent hooks `Save` succeeds iff every builder
      writes its row and the driver accepts the batch of these rows; on success every builder is done and
      every node has its row and its id, on failure no builder is done. */
  lemma AllOrNothing(env: Env, given: seq<Mutation>)
    requires |given| == |env.hooks| && given != [] && NoneDone(given)
    requires AllTransparent(env)
    ensures var (st, out) := Run(env, given);
            && (out.Success? <==> Accepted(env, given))
            && (out.Success? ==> forall i :: 0 <= i < |given| ==>
              st.mutations[i].done && st.nodes[i].Some? && NodeOf(st, i))
            && (out.Failure? ==> forall i :: 0 <= i < |given| ==> !st.mutations[i].done)
  {
    TransparentSucceeds(env, given);
    TransparentIsHonest(env);
    var s := DoneIsSuffix(env, given);
  }

  lemma TransparentIsHonest(env: Env)
    requires AllTransparent(env)
    ensures AllHonest(env)
  {
    forall j, k | 0 <= j < |env.hooks| && 0 <= k < |env.hooks[j]| ensures Honest(env.hooks[j][k]) {
      assert Transparent(env.hooks[j][k]);
    }
  }

  lemma TransparentSucceeds(env: Env, given: seq<Mutation>)
    requires |given| == |env.hooks| && given != [] && NoneDone(given)
    requires AllTransparent(env)
    ensures var (st, out) := Run(env, given);
            && (out.Success? <==> Accepted(env, given))
            && (out.Failure? ==> forall i :: 0 <= i < |given| ==> !st.mutations[i].done)
  {
    TransparentRun(env, Start(env, given), 0, 0, Own);
    assert [] + Plan(env, 0, 0) == Plan(env, 0, 0);
    RunFollowsPlan(env, given);
    InsertedRowsAreBatch(env, given);
  }

  /** The batch that a run inserts. */
  lemma InsertedRowsAreBatch(env: Env, given: seq<Mutation>)
    requires |given| == |env.hooks| && given != []
    ensures var st := Run(env, given).0;
            && (Inserted in st.trace <==> forall i :: 0 <= i < |given| ==> Writes(env, Part(env, given, i)))
            && (Inserted in st.trace ==> st.specs == Batch(env, given))
  {
    BatchIsPerBuilder(env, given);
  }

  // ---------------------------------------------------------------- the exact outcome

  /** How many of the hooks call on. */
  function Calls(hooks: seq<Hook>, own: AC.Fields, p: Passed): (n: nat)
    ensures n <= |hooks|
    decreases |hooks|
  {
    if hooks == [] then 0
    else
      match AfterHook(own, p, hooks[0].before(FieldsOf(own, p)))
      case None => 0
      case Some((fields, p')) => 1 + Calls(hooks[1..], fields, p')
  }

  /** The outcome with which one builder's chain, looked at alone, ends before the next builder: a hook stops,
      the mutation is of another type, or `check` fails. None if the builder writes its row. */
  function Ends(env: Env, hooks: seq<Hook>, own: AC.Fields, p: Passed): Option<Outcome>
    decreases |hooks|
  {
    if hooks == [] then
      if p.Foreign? then Some(Failure(WrongMutation))
      else
        match AC.Check(env.cfg, own)
        case Some(e) => Some(Failure(Builder(e)))
        case None => None
    else
      var b := hooks[0].before(FieldsOf(own, p));
      match AfterHook(own, p, b)
      case None => Some(b.out)
      case Some((fields, p')) => Ends(env, hooks[1..], fields, p')
  }

  lemma {:induction false} EndsUnlessWrites(env: Env, hooks: seq<Hook>, own: AC.Fields, p: Passed)
    ensures Ends(env, hooks, own, p).None? <==> Writes(env, Handed(hooks, own, p))
    decreases |hooks|
  {
    if hooks != [] {
      var next := AfterHook(own, p, hooks[0].before(FieldsOf(own, p)));
      if next.Some? {
        EndsUnlessWrites(env, hooks[1..], next.value.0, next.value.1);
      }
    }
  }

  /** The hooks' second halves, from the last call outwards. */
  function FoldAfter(hooks: seq<Hook>, out: Outcome): Outcome {
    if hooks == [] then out else hooks[0].after(FoldAfter(hooks[1..], out))
  }

  lemma {:induction false} FoldAppend(a: seq<Hook>, b: seq<Hook>, out: Outcome)
    ensures FoldAfter(a + b, out) == FoldAfter(a, FoldAfter(b, out))
  {
    if a == [] {
      assert a + b == b;
    } else {
      assert (a + b)[1..] == a[1..] + b;
      FoldAppend(a[1..], b, out);
    }
  }

  /** The hooks that call on, from hook k of builder j on, in the order in which they are entered. */
  function CalledFrom(env: Env, st: State, j: nat, k: nat, p: Passed): seq<Hook>
    requires Sized(env, st) && j < |env.hooks| && k <= |env.hooks[j]|
    decreases |env.hooks| - j, 1
  {
    var hooks, own := env.hooks[j][k..], st.mutations[j].fields;
    hooks[..Calls(hooks, own, p)] + CalledAfter(env, st, j, Ends(env, hooks, own, p).None?)
  }

  /** The hooks that call on after builder j, if its closure is passed. */
  function CalledAfter(env: Env, st: State, j: nat, passed: bool): seq<Hook>
    requires Sized(env, st) && j < |env.hooks|
    decreases |env.hooks| - j, 0
  {
    if passed && j + 1 < |env.hooks| then CalledFrom(env, st, j + 1, 0, Own) else []
  }

  /** The outcome of the innermost call: of the insert, if it is reached, and then `inserted`. */
  function BaseFrom(env: Env, st: State, j: nat, k: nat, p: Passed, inserted: Outcome): Outcome
    requires Sized(env, st) && j < |env.hooks| && k <= |env.hooks[j]|
    decreases |env.hooks| - j
  {
    match Ends(env, env.hooks[j][k..], st.mutations[j].fields, p)
    case Some(out) => out
    case None => if j + 1 < |env.hooks| then BaseFrom(env, st, j + 1, 0, Own, inserted) else inserted
  }

  function InsertOutcome(env: Env, rows: seq<Option<AC.Fields>>): Outcome {
    if env.insert(rows).Some? then Success else Failure(Rejected)
  }

  predicate SameFields(st: State, st': State, j: nat) {
    |st.mutations| == |st'.mutations| && forall i :: j <= i < |st.mutations| ==>
      st.mutations[i].fields == st'.mutations[i].fields
  }

  /** What a run from builder j on does depends on the fields of builders j, j + 1, ... only. */
  lemma {:induction false} LaterFieldsDecide(env: Env, st: State, st': State, j: nat, inserted: Outcome)
    requires Sized(env, st) && Sized(env, st') && j < |env.hooks| && SameFields(st, st', j)
    ensures CalledFrom(env, st, j, 0, Own) == CalledFrom(env, st', j, 0, Own)
    ensures BaseFrom(env, st, j, 0, Own, inserted) == BaseFrom(env, st', j, 0, Own, inserted)
    decreases |env.hooks| - j
  {
    if j + 1 < |env.hooks| {
      LaterFieldsDecide(env, st, st', j + 1, inserted);
    }
  }

  /** The outcome of a run is what the second halves of the hooks that called on make of the outcome of the
      innermost call. */
  ghost predicate Folds(env: Env, st: State, j: nat, k: nat, p: Passed)
    requires Sized(env, st) && j < |env.hooks| && k <= |env.hooks[j]|
  {
    var r := Mutate(env, st, Chain(env, j, k), p);
    r.1 == FoldAfter(CalledFrom(env, st, j, k, p), BaseFrom(env, st, j, k, p, InsertOutcome(env, r.0.specs)))
  }

  lemma {:induction false} RunFolds(env: Env, st: State, j: nat, k: nat, p: Passed)
    requires Sized(env, st) && j < |env.hooks| && k <= |env.hooks[j]|
    ensures Folds(env, st, j, k, p)
    decreases |env.hooks| - j, |env.hooks[j]| - k
  {
    var own := st.mutations[j].fields;
    if k < |env.hooks[j]| {
      var next := AfterHook(own, p, env.hooks[j][k].before(FieldsOf(own, p)));
      if next.None? {
        FoldsWhenStopped(env, st, j, k, p);
        return;
      }
      var st' := SetOwn(Log(st, Entered(j, k)), j, next.value.0);
      RunFolds(env, st', j, k + 1, next.value.1);
      FoldsThroughHook(env, st, j, k, p, st', next.value.1);
      return;
    }
    if Writes(env, Some((own, p))) && j < |env.hooks| - 1 {
      RunFolds(env, Fill(st, j, p), j + 1, 0, Own);
      FoldsThroughClosure(env, st, j, p);
      return;
    }
    FoldsAtEnd(env, st, j, p);
  }

  lemma FoldsWhenStopped(env: Env, st: State, j: nat, k: nat, p: Passed)
    requires Sized(env, st) && j < |env.hooks| && k < |env.hooks[j]|
    requires var own := st.mutations[j].fields; AfterHook(own, p, env.hooks[j][k].before(FieldsOf(own, p))).None?
    ensures Folds(env, st, j, k, p)
  {
    HookStep(env, st, j, k, p);
    assert env.hooks[j][k..][0] == env.hooks[j][k];
    assert CalledFrom(env, st, j, k, p) == [];
  }

  lemma FoldsThroughHook(env: Env, st: State, j: nat, k: nat, p: Passed, st': State, p': Passed)
    requires Sized(env, st) && j < |env.hooks| && k < |env.hooks[j]|
    requires var own := st.mutations[j].fields;
             var next := AfterHook(own, p, env.hooks[j][k].before(FieldsOf(own, p)));
             next.Some? && st' == SetOwn(Log(st, Entered(j, k)), j, next.value.0) && p' == next.value.1
    requires Folds(env, st', j, k + 1, p')
    ensures Folds(env, st, j, k, p)
  {
    HookStep(env, st, j, k, p);
    CalledThroughHook(env, st, j, k, p, st', p');
    BaseThroughHook(env, st, j, k, p, st', p', InsertOutcome(env, Mutate(env, st, Chain(env, j, k), p).0.specs));
    var called := CalledFrom(env, st', j, k + 1, p');
    assert ([env.hooks[j][k]] + called)[1..] == called;
  }

  lemma CalledThroughHook(env: Env, st: State, j: nat, k: nat, p: Passed, st': State, p': Passed)
    requires Sized(env, st) && j < |env.hooks| && k < |env.hooks[j]|
    requires var own := st.mutations[j].fields;
             var next := AfterHook(own, p, env.hooks[j][k].before(FieldsOf(own, p)));
             next.Some? && st' == SetOwn(Log(st, Entered(j, k)), j, next.value.0) && p' == next.value.1
    ensures CalledFrom(env, st, j, k, p) == [env.hooks[j][k]] + CalledFrom(env, st', j, k + 1, p')
  {
    var hooks := env.hooks[j][k..];
    assert hooks[0] == env.hooks[j][k] && hooks[1..] == env.hooks[j][k + 1..];
    OneCallsOn(env, hooks, st.mutations[j].fields, p);
    SameCalledAfter(env, st, st', j, Ends(env, hooks, st.mutations[j].fields, p).None?);
  }

  lemma SameCalledAfter(env: Env, st: State, st': State, j: nat, passed: bool)
    requires Sized(env, st) && Sized(env, st') && j < |env.hooks| && SameFields(st, st', j + 1)
    ensures CalledAfter(env, st, j, passed) == CalledAfter(env, st', j, passed)
  {
    if j + 1 < |env.hooks| {
      LaterFieldsDecide(env, st, st', j + 1, Success);
    }
  }

  lemma BaseThroughHook(env: Env, st: State, j: nat, k: nat, p: Passed, st': State, p': Passed, inserted: Outcome)
    requires Sized(env, st) && j < |env.hooks| && k < |env.hooks[j]|
    requires var own := st.mutations[j].fields;
             var next := AfterHook(own, p, env.hooks[j][k].before(FieldsOf(own, p)));
             next.Some? && st' == SetOwn(Log(st, Entered(j, k)), j, next.value.0) && p' == next.value.1
    ensures BaseFrom(env, st, j, k, p, inserted) == BaseFrom(env, st', j, k + 1, p', inserted)
  {
    var hooks := env.hooks[j][k..];
    assert hooks[0] == env.hooks[j][k] && hooks[1..] == env.hooks[j][k + 1..];
    OneCallsOn(env, hooks, st.mutations[j].fields, p);
    if j + 1 == |env.hooks| {
      return;
    }
    LaterFieldsDecide(env, st, st', j + 1, inserted);
  }

  lemma OneCallsOn(env: Env, hooks: seq<Hook>, own: AC.Fields, p: Passed)
    requires hooks != [] && AfterHook(own, p, hooks[0].before(FieldsOf(own, p))).Some?
    ensures var (fields, p') := AfterHook(own, p, hooks[0].before(FieldsOf(own, p))).value;
            && hooks[..Calls(hooks, own, p)] == [hooks[0]] + hooks[1..][..Calls(hooks[1..], fields, p')]
            && Ends(env, hooks, own, p) == Ends(env, hooks[1..], fields, p')
  {
  }

  lemma FoldsThroughClosure(env: Env, st: State, j: nat, p: Passed)
    requires Sized(env, st) && j < |env.hooks| - 1 && Writes(env, Some((st.mutations[j].fields, p)))
    requires Folds(env, Fill(st, j, p), j + 1, 0, Own)
    ensures Folds(env, st, j, |env.hooks[j]|, p)
  {
    ClosureKeeps(env, st, j, p);
    TerminalStep(env, st, j, p);
    var inner := Mutate(env, Fill(st, j, p), Chain(env, j + 1, 0), Own);
    assert Rest(env, Fill(st, j, p), j) == inner;
    CalledThroughClosure(env, st, j, p, InsertOutcome(env, inner.0.specs));
  }

  lemma CalledThroughClosure(env: Env, st: State, j: nat, p: Passed, inserted: Outcome)
    requires Sized(env, st) && j < |env.hooks| - 1 && Writes(env, Some((st.mutations[j].fields, p)))
    ensures CalledFrom(env, st, j, |env.hooks[j]|, p) == CalledFrom(env, Fill(st, j, p), j + 1, 0, Own)
    ensures BaseFrom(env, st, j, |env.hooks[j]|, p, inserted) == BaseFrom(env, Fill(st, j, p), j + 1, 0, Own, inserted)
  {
    assert env.hooks[j][|env.hooks[j]|..] == [];
    assert Ends(env, [], st.mutations[j].fields, p).None?;
    LaterFieldsDecide(env, st, Fill(st, j, p), j + 1, inserted);
  }

  lemma FoldsAtEnd(env: Env, st: State, j: nat, p: Passed)
    requires Sized(env, st) && j < |env.hooks|
    requires Writes(env, Some((st.mutations[j].fields, p))) ==> j == |env.hooks| - 1
    ensures Folds(env, st, j, |env.hooks[j]|, p)
  {
    TerminalStep(env, st, j, p);
    assert env.hooks[j][|env.hooks[j]|..] == [];
    assert CalledFrom(env, st, j, |env.hooks[j]|, p) == [];
  }

  function Called(env: Env, given: seq<Mutation>): seq<Hook>
    requires |given| == |env.hooks| && given != []
  {
    CalledFrom(env, Start(env, given), 0, 0, Own)
  }

  function Base(env: Env, given: seq<Mutation>): Outcome
    requires |given| == |env.hooks| && given != []
  {
    BaseFrom(env, Start(env, given), 0, 0, Own, InsertOutcome(env, Batch(env, given)))
  }

  lemma {:induction false} UnreachedInsert(env: Env, st: State, j: nat, k: nat, p: Passed, a: Outcome, b: Outcome)
    requires Sized(env, st) && j < |env.hooks| && k <= |env.hooks[j]|
    requires exists i :: j <= i < |env.hooks| && !Writes(env, HandedTo(env, st, j, k, p, i))
    ensures BaseFrom(env, st, j, k, p, a) == BaseFrom(env, st, j, k, p, b)
    decreases |env.hooks| - j
  {
    EndsUnlessWrites(env, env.hooks[j][k..], st.mutations[j].fields, p);
    if Ends(env, env.hooks[j][k..], st.mutations[j].fields, p).None? {
      var i :| j <= i < |env.hooks| && !Writes(env, HandedTo(env, st, j, k, p, i));
      assert i > j;
      assert env.hooks[j + 1][0..] == env.hooks[j + 1];
      assert HandedTo(env, st, j + 1, 0, Own, i) == HandedTo(env, st, j, k, p, i);
      UnreachedInsert(env, st, j + 1, 0, Own, a, b);
    }
  }

  lemma PartsOfStart(env: Env, given: seq<Mutation>, i: nat)
    requires |given| == |env.hooks| && i < |given|
    ensures HandedTo(env, Start(env, given), 0, 0, Own, i) == Part(env, given, i)
  {
    assert env.hooks[0][0..] == env.hooks[0];
  }

  /** For any hooks and any driver: the outcome of `Save` is what the second halves of the hooks that called on,
      from the last call outwards, make of the outcome of the innermost call. */
  lemma OutcomeIsFold(env: Env, given: seq<Mutation>)
    requires |given| == |env.hooks| && given != []
    ensures Run(env, given).1 == FoldAfter(Called(env, given), Base(env, given))
  {
    var st := Start(env, given);
    var specs := Run(env, given).0.specs;
    RunFolds(env, st, 0, 0, Own);
    InsertedRowsAreBatch(env, given);
    if forall i :: 0 <= i < |given| ==> Writes(env, Part(env, given, i)) {
      return;
    }
    var i :| 0 <= i < |given| && !Writes(env, Part(env, given, i));
    PartsOfStart(env, given, i);
    UnreachedInsert(env, st, 0, 0, Own, InsertOutcome(env, specs), InsertOutcome(env, Batch(env, given)));
  }

  lemma {:induction false} BaseSucceeds(env: Env, st: State, j: nat, k: nat, p: Passed)
    requires Sized(env, st) && j < |env.hooks| && k <= |env.hooks[j]|
    requires forall i :: j <= i < |env.hooks| ==> Writes(env, HandedTo(env, st, j, k, p, i))
    ensures BaseFrom(env, st, j, k, p, Success).Success?
    decreases |env.hooks| - j
  {
    EndsUnlessWrites(env, env.hooks[j][k..], st.mutations[j].fields, p);
    assert Writes(env, HandedTo(env, st, j, k, p, j));
    if j + 1 < |env.hooks| {
      var next := j + 1;
      assert env.hooks[next][0..] == env.hooks[next];
      forall i | next <= i < |env.hooks| ensures Writes(env, HandedTo(env, st, next, 0, Own, i)) {
        assert HandedTo(env, st, next, 0, Own, i) == HandedTo(env, st, j, k, p, i);
      }
      BaseSucceeds(env, st, next, 0, Own);
    }
  }

  /** Every hook leaves success as it is. */
  predicate AllKeep(hooks: seq<Hook>) {
    forall i :: 0 <= i < |hooks| ==> hooks[i].after(Success).Success?
  }

  /** Hook i turns the failure that reaches it into success. */
  predicate Hides(hooks: seq<Hook>, out: Outcome, i: nat)
    requires i < |hooks|
  {
    var below := FoldAfter(hooks[i + 1..], out);
    below.Failure? && hooks[i].after(below).Success?
  }

  /** Some hook turns a failure into success, and every hook around it leaves that as it is. */
  predicate HidesForGood(hooks: seq<Hook>, out: Outcome) {
    exists i :: 0 <= i < |hooks| && Hides(hooks, out, i) && AllKeep(hooks[..i])
  }

  /** Exactly when the fold is success. */
  lemma {:induction false} FoldSucceeds(hooks: seq<Hook>, out: Outcome)
    ensures FoldAfter(hooks, out).Success? <==> (out.Success? && AllKeep(hooks)) || HidesForGood(hooks, out)
    decreases |hooks|
  {
    if hooks == [] {
      return;
    }
    var rest := hooks[1..];
    FoldSucceeds(rest, out);
    KeepsMore(hooks);
    assert Hides(hooks, out, 0) <==> FoldAfter(rest, out).Failure? && FoldAfter(hooks, out).Success?;
    assert hooks[..0] == [];
    if HidesForGood(hooks, out) {
      var i :| 0 <= i < |hooks| && Hides(hooks, out, i) && AllKeep(hooks[..i]);
      if i > 0 {
        HidesInside(hooks, out, i - 1);
        assert hooks[..i][0] == hooks[0];
        assert HidesForGood(rest, out);
      }
    }
    if HidesForGood(rest, out) && hooks[0].after(Success).Success? {
      var i :| 0 <= i < |rest| && Hides(rest, out, i) && AllKeep(rest[..i]);
      HidesInside(hooks, out, i);
      assert HidesForGood(hooks, out);
    }
  }

  lemma KeepsMore(hooks: seq<Hook>)
    requires hooks != []
    ensures AllKeep(hooks) <==> hooks[0].after(Success).Success? && AllKeep(hooks[1..])
  {
    assert forall i :: 0 <= i < |hooks| - 1 ==> hooks[1..][i] == hooks[i + 1];
    assert forall i :: 1 <= i < |hooks| ==> hooks[i] == hooks[1..][i - 1];
  }

  lemma HidesInside(hooks: seq<Hook>, out: Outcome, i: nat)
    requires hooks != [] && i < |hooks[1..]|
    ensures Hides(hooks, out, i + 1) <==> Hides(hooks[1..], out, i)
    ensures AllKeep(hooks[..i + 1]) <==> hooks[0].after(Success).Success? && AllKeep(hooks[1..][..i])
  {
    assert hooks[i + 2..] == hooks[1..][i + 1..];
    assert hooks[..i + 1][1..] == hooks[1..][..i];
    KeepsMore(hooks[..i + 1]);
  }

  /** A batch is accepted iff every builder writes its row and the driver takes the rows; then the innermost
      call succeeds. */
  lemma AcceptedIsInserted(env: Env, given: seq<Mutation>)
    requires |given| == |env.hooks| && given != []
    ensures var st := Run(env, given).0;
            Accepted(env, given) <==> Inserted in st.trace && env.insert(st.specs).Some?
    ensures Accepted(env, given) ==> Base(env, given).Success?
  {
    InsertedRowsAreBatch(env, given);
    if Accepted(env, given) {
      forall i | 0 <= i < |given| ensures Writes(env, HandedTo(env, Start(env, given), 0, 0, Own, i)) {
        PartsOfStart(env, given, i);
      }
      BaseSucceeds(env, Start(env, given), 0, 0, Own);
    }
  }

  /** Exactly when `Save` succeeds without an accepted batch: no batch is accepted, and either a hook stops
      early with success and every hook that called on leaves it so, or a hook that called on turns the failure
      that reaches it into success and every hook around it leaves it so. */
  lemma SuccessWithoutBatch(env: Env, given: seq<Mutation>)
    requires |given| == |env.hooks| && given != []
    ensures var (st, out) := Run(env, given);
            var hooks := Called(env, given);
            out.Success? && !(Inserted in st.trace && env.insert(st.specs).Some?) <==>
              && !Accepted(env, given)
              && ((Base(env, given).Success? && AllKeep(hooks)) || HidesForGood(hooks, Base(env, given)))
  {
    OutcomeIsFold(env, given);
    AcceptedIsInserted(env, given);
    FoldSucceeds(Called(env, given), Base(env, given));
  }

  /** The outcome that reaches the closure of builder i from the call below it. */
  function Below(env: Env, st: State, i: nat, inserted: Outcome): Outcome
    requires Sized(env, st) && i < |env.hooks|
  {
    if i + 1 == |env.hooks| then inserted
    else FoldAfter(CalledFrom(env, st, i + 1, 0, Own), BaseFrom(env, st, i + 1, 0, Own, inserted))
  }

  /** Builder i is marked done iff all builders up to it write their rows and success reaches its closure. */
  ghost predicate DoneWhen(env: Env, st: State, j: nat, k: nat, p: Passed, i: nat)
    requires Sized(env, st) && j <= i < |env.hooks| && k <= |env.hooks[j]|
  {
    var r := Mutate(env, st, Chain(env, j, k), p).0;
    r.mutations[i].done <==>
      && WriteUpTo(env, st, j, k, p, i)
      && Below(env, st, i, InsertOutcome(env, r.specs)).Success?
  }

  lemma {:induction false} RunMarks(env: Env, st: State, j: nat, k: nat, p: Passed, i: nat)
    requires Sized(env, st) && j <= i < |env.hooks| && k <= |env.hooks[j]| && Fresh(env, st, j, p)
    ensures DoneWhen(env, st, j, k, p, i)
    decreases |env.hooks| - j, |env.hooks[j]| - k
  {
    var own := st.mutations[j].fields;
    if k < |env.hooks[j]| {
      var next := AfterHook(own, p, env.hooks[j][k].before(FieldsOf(own, p)));
      if next.None? {
        MarksWhenStopped(env, st, j, k, p, i);
        return;
      }
      var st' := SetOwn(Log(st, Entered(j, k)), j, next.value.0);
      RunMarks(env, st', j, k + 1, next.value.1, i);
      MarksThroughHook(env, st, j, k, p, st', next.value.1, i);
      return;
    }
    if !Writes(env, Some((own, p))) {
      MarksWhenRefused(env, st, j, p, i);
      return;
    }
    if i > j {
      RunMarks(env, Fill(st, j, p), j + 1, 0, Own, i);
    }
    MarksThroughClosure(env, st, j, p, i);
  }

  lemma MarksWhenStopped(env: Env, st: State, j: nat, k: nat, p: Passed, i: nat)
    requires Sized(env, st) && j <= i < |env.hooks| && k < |env.hooks[j]| && Fresh(env, st, j, p)
    requires var own := st.mutations[j].fields; AfterHook(own, p, env.hooks[j][k].before(FieldsOf(own, p))).None?
    ensures DoneWhen(env, st, j, k, p, i)
  {
    HookStep(env, st, j, k, p);
    assert env.hooks[j][k..][0] == env.hooks[j][k];
    assert !Writes(env, HandedTo(env, st, j, k, p, j));
    assert !WriteUpTo(env, st, j, k, p, i);
  }

  lemma MarksThroughHook(env: Env, st: State, j: nat, k: nat, p: Passed, st': State, p': Passed, i: nat)
    requires Sized(env, st) && j <= i < |env.hooks| && k < |env.hooks[j]|
    requires var own := st.mutations[j].fields;
             var next := AfterHook(own, p, env.hooks[j][k].before(FieldsOf(own, p)));
             next.Some? && st' == SetOwn(Log(st, Entered(j, k)), j, next.value.0) && p' == next.value.1
    requires DoneWhen(env, st', j, k + 1, p', i)
    ensures DoneWhen(env, st, j, k, p, i)
  {
    HookStep(env, st, j, k, p);
    HandedThroughHook(env, st, j, k, p, st', p');
    SameWrites(env, st, k, p, st', k + 1, p', j, i);
    BelowIsLater(env, st, st', i, InsertOutcome(env, Mutate(env, st, Chain(env, j, k), p).0.specs), j);
  }

  lemma SameWrites(env: Env, st: State, k: nat, p: Passed, st': State, k': nat, p': Passed, j: nat, i: nat)
    requires Sized(env, st) && Sized(env, st') && j <= i < |env.hooks| && k <= |env.hooks[j]| && k' <= |env.hooks[j]|
    requires forall l :: j <= l < |env.hooks| ==> HandedTo(env, st, j, k, p, l) == HandedTo(env, st', j, k', p', l)
    ensures WriteUpTo(env, st, j, k, p, i) <==> WriteUpTo(env, st', j, k', p', i)
  {
  }

  lemma BelowIsLater(env: Env, st: State, st': State, i: nat, inserted: Outcome, j: nat)
    requires Sized(env, st) && Sized(env, st') && j <= i < |env.hooks| && SameFields(st, st', j + 1)
    ensures Below(env, st, i, inserted) == Below(env, st', i, inserted)
  {
    if i + 1 < |env.hooks| {
      LaterFieldsDecide(env, st, st', i + 1, inserted);
    }
  }

  lemma MarksWhenRefused(env: Env, st: State, j: nat, p: Passed, i: nat)
    requires Sized(env, st) && j <= i < |env.hooks| && Fresh(env, st, j, p)
      && !Writes(env, Some((st.mutations[j].fields, p)))
    ensures DoneWhen(env, st, j, |env.hooks[j]|, p, i)
  {
    TerminalStep(env, st, j, p);
    assert HandedTo(env, st, j, |env.hooks[j]|, p, j) == Some((st.mutations[j].fields, p));
  }

  lemma MarksThroughClosure(env: Env, st: State, j: nat, p: Passed, i: nat)
    requires Sized(env, st) && j <= i < |env.hooks| && Fresh(env, st, j, p)
      && Writes(env, Some((st.mutations[j].fields, p)))
    requires i > j ==> DoneWhen(env, Fill(st, j, p), j + 1, 0, Own, i)
    ensures DoneWhen(env, st, j, |env.hooks[j]|, p, i)
  {
    var st', k := Fill(st, j, p), |env.hooks[j]|;
    var inner := Rest(env, st', j);
    TerminalStep(env, st, j, p);
    FillIsFresh(env, st, j, p);
    assert HandedTo(env, st, j, k, p, j) == Some((st.mutations[j].fields, p));
    if i == j {
      ClosureMarksOwn(env, st', j);
      BelowIsLater(env, st, st', j, InsertOutcome(env, inner.0.specs), j);
      return;
    }
    assert inner == Mutate(env, st', Chain(env, j + 1, 0), Own);
    WriteUpToClosure(env, st, j, p, i);
    BelowIsLater(env, st, st', i, InsertOutcome(env, inner.0.specs), j);
  }

  lemma WriteUpToClosure(env: Env, st: State, j: nat, p: Passed, i: nat)
    requires Sized(env, st) && j < i < |env.hooks| && Writes(env, Some((st.mutations[j].fields, p)))
    ensures WriteUpTo(env, st, j, |env.hooks[j]|, p, i) <==> WriteUpTo(env, Fill(st, j, p), j + 1, 0, Own, i)
  {
    var next, k, st' := j + 1, |env.hooks[j]|, Fill(st, j, p);
    assert env.hooks[next][0..] == env.hooks[next];
    assert HandedTo(env, st, j, k, p, j) == Some((st.mutations[j].fields, p));
    forall l | next <= l <= i ensures HandedTo(env, st, j, k, p, l) == HandedTo(env, st', next, 0, Own, l) {
    }
    if WriteUpTo(env, st, j, k, p, i) {
      forall l | next <= l <= i ensures Writes(env, HandedTo(env, st', next, 0, Own, l)) {
        assert Writes(env, HandedTo(env, st, j, k, p, l));
      }
    }
    if WriteUpTo(env, st', next, 0, Own, i) {
      forall l | j <= l <= i ensures Writes(env, HandedTo(env, st, j, k, p, l)) {
        assert l > j ==> Writes(env, HandedTo(env, st', next, 0, Own, l));
      }
    }
  }

  /** The closure marks its own mutation iff success comes back from below. */
  lemma ClosureMarksOwn(env: Env, st': State, j: nat)
    requires Sized(env, st') && j < |env.hooks| && st'.nodes[j].Some? && !st'.mutations[j].done
    ensures var inner := Rest(env, st', j);
            && inner.1 == Below(env, st', j, InsertOutcome(env, inner.0.specs))
            && inner.0.nodes[j].Some?
            && (Unwound(env, inner, j).0.mutations[j].done <==> inner.1.Success?)
  {
    if j + 1 < |env.hooks| {
      RunFolds(env, st', j + 1, 0, Own);
      EarlierUntouched(env, st', j + 1, 0, Own);
    }
  }

  /** What reaches the closure of a builder, whatever would come of an insert that is not reached. */
  lemma BelowOfBatch(env: Env, given: seq<Mutation>, i: nat)
    requires |given| == |env.hooks| && i < |given|
    requires forall l :: 0 <= l <= i ==> Writes(env, Part(env, given, l))
    ensures Below(env, Start(env, given), i, InsertOutcome(env, Run(env, given).0.specs))
      == Below(env, Start(env, given), i, InsertOutcome(env, Batch(env, given)))
  {
    var specs := Run(env, given).0.specs;
    InsertedRowsAreBatch(env, given);
    if forall l :: 0 <= l < |given| ==> Writes(env, Part(env, given, l)) {
      return;
    }
    var l :| 0 <= l < |given| && !Writes(env, Part(env, given, l));
    UnreachedBelow(env, given, i, l, InsertOutcome(env, specs), InsertOutcome(env, Batch(env, given)));
  }

  lemma UnreachedBelow(env: Env, given: seq<Mutation>, i: nat, l: nat, a: Outcome, b: Outcome)
    requires |given| == |env.hooks| && i < l < |given| && !Writes(env, Part(env, given, l))
    ensures Below(env, Start(env, given), i, a) == Below(env, Start(env, given), i, b)
  {
    assert env.hooks[i + 1][0..] == env.hooks[i + 1];
    assert HandedTo(env, Start(env, given), i + 1, 0, Own, l) == Part(env, given, l);
    UnreachedInsert(env, Start(env, given), i + 1, 0, Own, a, b);
  }

  /** For any hooks and any driver: builder i is marked done by `Save` iff builders 0 to i write their rows and
      what the later builders' hooks make of the innermost outcome is success. */
  lemma DoneExactly(env: Env, given: seq<Mutation>, i: nat)
    requires |given| == |env.hooks| && i < |given| && NoneDone(given)
    ensures Run(env, given).0.mutations[i].done <==>
      && (forall l :: 0 <= l <= i ==> Writes(env, Part(env, given, l)))
      && Below(env, Start(env, given), i, InsertOutcome(env, Batch(env, given))).Success?
  {
    RunMarks(env, Start(env, given), 0, 0, Own, i);
    forall l | 0 <= l <= i ensures HandedTo(env, Start(env, given), 0, 0, Own, l) == Part(env, given, l) {
      PartsOfStart(env, given, l);
    }
    if forall l :: 0 <= l <= i ==> Writes(env, Part(env, given, l)) {
      BelowOfBatch(env, given, i);
    }
  }

  /** An instance: the last builder's hook hides the driver's error, and the earlier builder is marked done and
      `Save` succeeds although the driver wrote nothing. */
  lemma HiddenErrorMarksDone(env: Env, a: Mutation, b: Mutation)
    requires |env.hooks| == 2 && env.hooks[0] == [] && |env.hooks[1]| == 1 && NoneDone([a, b])
    requires forall f: Option<AC.Fields> :: f.Some? ==> env.hooks[1][0].before(f) == Edit(f.value)
    requires env.hooks[1][0].after(Failure(Rejected)) == Success
    requires AC.Check(env.cfg, AC.Defaults(env.cfg, a.fields).0).None?
      && AC.Check(env.cfg, AC.Defaults(env.cfg, b.fields).0).None?
    requires forall rows :: env.insert(rows).None?
    ensures var (st, out) := Run(env, [a, b]);
            out == Success && st.mutations[0].done && !st.mutations[1].done
  {
    var st := Start(env, [a, b]);
    TerminalStep(env, st, 0, Own);
    var st1 := Fill(st, 0, Own);
    HookStep(env, st1, 1, 0, Own);
    var st2 := SetOwn(Log(st1, Entered(1, 0)), 1, st1.mutations[1].fields);
    TerminalStep(env, st2, 1, Own);
    EarlierUntouched(env, st1, 1, 0, Own);
  }

  /** An instance: a hook reports success without calling on, and `Save` returns a nil node without an error. */
  lemma EarlyStopLeavesNil(env: Env, m: Mutation)
    requires |env.hooks| == 1 && |env.hooks[0]| == 1
      && forall f: Option<AC.Fields> :: env.hooks[0][0].before(f) == Stop(Success)
    ensures var (st, out) := Run(env, [m]);
            out == Success && st.nodes == [None] && Inserted !in st.trace
  {
    HookStep(env, Start(env, [m]), 0, 0, Own);
  }
}
