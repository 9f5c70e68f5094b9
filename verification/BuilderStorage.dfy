/** The storage of the query builders: contexts behind pointers, and slices over backing arrays with spare
    capacity. Every builder call on this storage is proved to do what `QueryBuilders` says of builders as
    values, because no two builders ever share a context or an array; and it is shown what appending to a
    shared slice would change. */
module BuilderStorage {
  import opened Wrappers
  import opened Schema
  import opened Relational
  import opened QueryBuilders
  import opened Programs

  // ---------------------------------------------------------------- slices

  /** A backing array: the cells written so far, and how many there is room for. */
  datatype Array<T> = Array(cells: seq<T>, cap: nat)

  /** A slice starts at the first cell of its array. */
  datatype Slice = Nil | Slice(arr: nat, len: nat)

  type Store<T> = seq<Array<T>>

  predicate ValidSlice<T>(st: Store<T>, s: Slice) {
    s.Slice? ==> s.arr < |st| && s.len <= |st[s.arr].cells| <= st[s.arr].cap
  }

  function Contents<T>(st: Store<T>, s: Slice): seq<T>
    requires ValidSlice(st, s)
  {
    match s
    case Nil => []
    case Slice(arr, len) => st[arr].cells[..len]
  }

  /** There is spare capacity for n more elements. */
  predicate Fits<T>(st: Store<T>, s: Slice, n: nat)
    requires ValidSlice(st, s)
  {
    s.Slice? && s.len + n <= st[s.arr].cap
  }

  /** The cells after xs is written from position i on. */
  function Overwrite<T>(cells: seq<T>, i: nat, xs: seq<T>): seq<T>
    requires i <= |cells|
  {
    cells[..i] + xs + if i + |xs| <= |cells| then cells[i + |xs|..] else []
  }

  /** `append(s, xs...)`: in place when there is room, otherwise in a new array with some spare capacity. */
  function Append<T>(st: Store<T>, s: Slice, xs: seq<T>, spare: nat): (Store<T>, Slice)
    requires ValidSlice(st, s)
  {
    if xs == [] then (st, s)
    else if Fits(st, s, |xs|) then
      (st[s.arr := Array(Overwrite(st[s.arr].cells, s.len, xs), st[s.arr].cap)], Slice(s.arr, s.len + |xs|))
    else
      var all := Contents(st, s) + xs;
      (st + [Array(all, |all| + spare)], Slice(|st|, |all|))
  }

  predicate Apart(s: Slice, t: Slice) {
    s.Slice? && t.Slice? ==> s.arr != t.arr
  }

  lemma AppendAppends<T>(st: Store<T>, s: Slice, xs: seq<T>, spare: nat)
    requires ValidSlice(st, s)
    ensures var (st', s') := Append(st, s, xs, spare);
            |st| <= |st'| && ValidSlice(st', s') && Contents(st', s') == Contents(st, s) + xs
  {
    if xs == [] {
      assert Contents(st, s) + xs == Contents(st, s);
    }
  }

  /** Appending does not change a slice over another array. */
  lemma AppendElsewhere<T>(st: Store<T>, s: Slice, xs: seq<T>, spare: nat, t: Slice)
    requires ValidSlice(st, s) && ValidSlice(st, t) && Apart(s, t)
    ensures var (st', s') := Append(st, s, xs, spare);
            ValidSlice(st', t) && Contents(st', t) == Contents(st, t) && Apart(s', t)
  {
  }

  // ---------------------------------------------------------------- sharing a slice

  /** The part of xs that lands inside t when xs is appended to s in place. */
  function Overlap<T>(s: Slice, t: Slice, xs: seq<T>): (n: nat)
    requires s.Slice? && t.Slice?
    ensures n <= |xs|
  {
    if t.len <= s.len then 0 else if t.len - s.len < |xs| then t.len - s.len else |xs|
  }

  /** Appending to one slice changes another one iff both are over the same array, there is spare capacity, and
      what is written over cells of the other one differs from what was there. */
  lemma AppendChanges<T>(st: Store<T>, s: Slice, t: Slice, xs: seq<T>, spare: nat)
    requires ValidSlice(st, s) && ValidSlice(st, t)
    ensures ValidSlice(Append(st, s, xs, spare).0, t)
    ensures Contents(Append(st, s, xs, spare).0, t) != Contents(st, t) <==>
      && xs != [] && Fits(st, s, |xs|) && t.Slice? && s.arr == t.arr
      && st[s.arr].cells[s.len..][..Overlap(s, t, xs)] != xs[..Overlap(s, t, xs)]
  {
    if Apart(s, t) || xs == [] || !Fits(st, s, |xs|) {
      return;
    }
    var cells := st[s.arr].cells;
    var n := Overlap(s, t, xs);
    var cells' := Overwrite(cells, s.len, xs);
    if cells[s.len..][..n] == xs[..n] {
      forall i | 0 <= i < t.len ensures cells'[i] == cells[i] {
        if s.len <= i < s.len + n {
          assert cells[s.len..][..n][i - s.len] == xs[..n][i - s.len];
        }
      }
      assert cells'[..t.len] == cells[..t.len];
      return;
    }
    var i :| 0 <= i < n && cells[s.len..][..n][i] != xs[..n][i];
    assert cells'[..t.len][s.len + i] == xs[i] && cells[..t.len][s.len + i] == cells[s.len + i];
  }

  lemma OverwriteShows<T>(cells: seq<T>, i: nat, xs: seq<T>, n: nat)
    requires i <= |cells| && n <= |xs|
    ensures Overwrite(cells, i, xs)[i..][..n] == xs[..n]
  {
    assert Overwrite(cells, i, xs)[i..i + |xs|] == xs;
    assert Overwrite(cells, i, xs)[i..][..n] == Overwrite(cells, i, xs)[i..i + |xs|][..n];
  }

  /** If a clone shared a slice with its original, appending to the one and then to the other would change what
      the first one holds iff there was spare capacity for both and the elements differ. */
  lemma SharedSliceChanges<T>(st: Store<T>, s: Slice, xs: seq<T>, ys: seq<T>, spare: nat, spare': nat)
    requires ValidSlice(st, s)
    ensures var (st1, first) := Append(st, s, xs, spare);
            && ValidSlice(st1, s) && ValidSlice(st1, first)
            && var (st2, second) := Append(st1, s, ys, spare');
               && ValidSlice(st2, first)
               && (Contents(st2, first) != Contents(st, s) + xs <==>
                     && xs != [] && ys != [] && Fits(st, s, |xs|) && Fits(st, s, |ys|)
                     && var n := if |xs| < |ys| then |xs| else |ys|; xs[..n] != ys[..n])
  {
    var (st1, first) := Append(st, s, xs, spare);
    AppendAppends(st, s, xs, spare);
    AppendChanges(st, s, s, xs, spare);
    AppendChanges(st1, s, first, ys, spare');
    if xs != [] && Fits(st, s, |xs|) {
      var n := if |xs| < |ys| then |xs| else |ys|;
      assert Overlap(s, first, ys) == n;
      OverwriteShows(st[s.arr].cells, s.len, xs, n);
    }
  }

  // ---------------------------------------------------------------- memory

  datatype Ctx = Ctx(fields: Slice, limit: Option<nat>, offset: Option<nat>, unique: Option<bool>)

  /** A builder struct: `ctx` and the edges are pointers, given by positions. */
  datatype Builder = Builder(table: Table, ctx: nat, preds: Slice, order: Slice, inters: Slice, modifiers: nat,
      edges: map<Edge, nat>)

  datatype Memory = Memory(
    builders: seq<Builder>,
    ctxs: seq<Ctx>,
    fields: Store<Column>,
    preds: Store<CallerPred>,
    orders: Store<nat>,
    inters: Store<nat>)
  {
    function PredSlices(): seq<Slice> {
      seq(|builders|, b requires 0 <= b < |builders| => builders[b].preds)
    }

    function OrderSlices(): seq<Slice> {
      seq(|builders|, b requires 0 <= b < |builders| => builders[b].order)
    }

    function InterSlices(): seq<Slice> {
      seq(|builders|, b requires 0 <= b < |builders| => builders[b].inters)
    }

    function FieldSlices(): seq<Slice> {
      seq(|ctxs|, c requires 0 <= c < |ctxs| => ctxs[c].fields)
    }
  }

  /** The slices are valid and no two of them are over the same array. */
  ghost predicate Disjoint<T>(st: Store<T>, slices: seq<Slice>) {
    && (forall i :: 0 <= i < |slices| ==> ValidSlice(st, slices[i]))
    && (forall i, j :: 0 <= i < j < |slices| ==> Apart(slices[i], slices[j]))
  }

  /** No two builders share a context or an array. */
  ghost predicate Separate(m: Memory) {
    && |m.ctxs| == |m.builders|
    && (forall b :: 0 <= b < |m.builders| ==> m.builders[b].ctx < |m.ctxs|)
    && (forall b, c :: 0 <= b < c < |m.builders| ==> m.builders[b].ctx != m.builders[c].ctx)
    && Disjoint(m.fields, m.FieldSlices())
    && Disjoint(m.preds, m.PredSlices())
    && Disjoint(m.orders, m.OrderSlices())
    && Disjoint(m.inters, m.InterSlices())
  }

  /** What a builder holds, as a value. */
  function Value(m: Memory, b: nat): BuilderCell
    requires Separate(m) && b < |m.builders|
  {
    var s := m.builders[b];
    var ctx := m.ctxs[s.ctx];
    assert m.FieldSlices()[s.ctx] == ctx.fields && m.PredSlices()[b] == s.preds;
    assert m.OrderSlices()[b] == s.order && m.InterSlices()[b] == s.inters;
    BuilderCell(s.table, Contents(m.fields, ctx.fields), Contents(m.preds, s.preds), Contents(m.orders, s.order),
      Contents(m.inters, s.inters), ctx.limit, ctx.offset, ctx.unique, s.modifiers, s.edges)
  }

  ghost function Values(m: Memory): Heap
    requires Separate(m)
  {
    seq(|m.builders|, b requires 0 <= b < |m.builders| => Value(m, b))
  }

  /** Appending to one of several disjoint slices. */
  lemma AppendToOne<T>(st: Store<T>, slices: seq<Slice>, i: nat, xs: seq<T>, spare: nat)
    requires Disjoint(st, slices) && i < |slices|
    ensures var (st', s') := Append(st, slices[i], xs, spare);
            && Disjoint(st', slices[i := s'])
            && Contents(st', s') == Contents(st, slices[i]) + xs
            && forall j :: 0 <= j < |slices| && j != i ==> Contents(st', slices[j]) == Contents(st, slices[j])
  {
    AppendAppends(st, slices[i], xs, spare);
    forall j | 0 <= j < |slices| && j != i
      ensures var (st', s') := Append(st, slices[i], xs, spare);
              ValidSlice(st', slices[j]) && Contents(st', slices[j]) == Contents(st, slices[j]) && Apart(s', slices[j])
    {
      assert Apart(slices[i], slices[j]);
      AppendElsewhere(st, slices[i], xs, spare, slices[j]);
    }
  }

  /** Adding a slice over a new array: what `append([]T{}, xs...)` makes. */
  lemma AddOne<T>(st: Store<T>, slices: seq<Slice>, xs: seq<T>, spare: nat)
    requires Disjoint(st, slices)
    ensures var (st', s') := Append(st, Nil, xs, spare);
            && Disjoint(st', slices + [s']) && Contents(st', s') == xs
            && (s'.Slice? ==> s'.arr >= |st|)
            && forall j :: 0 <= j < |slices| ==> Contents(st', slices[j]) == Contents(st, slices[j])
  {
    AppendAppends(st, Nil, xs, spare);
    assert Contents(st, Nil) + xs == xs;
    forall j | 0 <= j < |slices|
      ensures var (st', s') := Append(st, Nil, xs, spare);
              ValidSlice(st', slices[j]) && Contents(st', slices[j]) == Contents(st, slices[j]) && Apart(s', slices[j])
    {
      AppendElsewhere(st, Nil, xs, spare, slices[j]);
    }
  }

  // ---------------------------------------------------------------- single changes

  function AddPreds(m: Memory, b: nat, ps: seq<CallerPred>, spare: nat): Memory
    requires Separate(m) && b < |m.builders|
  {
    assert m.PredSlices()[b] == m.builders[b].preds;
    var (st, s) := Append(m.preds, m.builders[b].preds, ps, spare);
    m.(preds := st, builders := m.builders[b := m.builders[b].(preds := s)])
  }

  function AddOrder(m: Memory, b: nat, os: seq<nat>, spare: nat): Memory
    requires Separate(m) && b < |m.builders|
  {
    assert m.OrderSlices()[b] == m.builders[b].order;
    var (st, s) := Append(m.orders, m.builders[b].order, os, spare);
    m.(orders := st, builders := m.builders[b := m.builders[b].(order := s)])
  }

  function AddFields(m: Memory, b: nat, fs: seq<Column>, spare: nat): Memory
    requires Separate(m) && b < |m.builders|
  {
    var c := m.builders[b].ctx;
    assert m.FieldSlices()[c] == m.ctxs[c].fields;
    var (st, s) := Append(m.fields, m.ctxs[c].fields, fs, spare);
    m.(fields := st, ctxs := m.ctxs[c := m.ctxs[c].(fields := s)])
  }

  /** Changes of the context other than its fields. */
  function SetCtx(m: Memory, b: nat, limit: Option<nat>, offset: Option<nat>, unique: Option<bool>): Memory
    requires b < |m.builders| && m.builders[b].ctx < |m.ctxs|
  {
    var c := m.builders[b].ctx;
    m.(ctxs := m.ctxs[c := m.ctxs[c].(limit := limit, offset := offset, unique := unique)])
  }

  /** Changes of a builder struct that touch neither context nor slices. */
  function SetRest(m: Memory, b: nat, modifiers: nat, edges: map<Edge, nat>): Memory
    requires b < |m.builders|
  {
    m.(builders := m.builders[b := m.builders[b].(modifiers := modifiers, edges := edges)])
  }

  /** A new builder with a new context, and slices over new arrays with the given contents. */
  function NewBuilder(m: Memory, c: BuilderCell, spare: nat): Memory {
    var (fields, f) := Append(m.fields, Nil, c.fields, spare);
    var (preds, p) := Append(m.preds, Nil, c.preds, spare);
    var (orders, o) := Append(m.orders, Nil, c.order, spare);
    var (inters, i) := Append(m.inters, Nil, c.inters, spare);
    Memory(
      m.builders + [Builder(c.table, |m.ctxs|, p, o, i, c.modifiers, c.edges)],
      m.ctxs + [Ctx(f, c.limit, c.offset, c.unique)],
      fields, preds, orders, inters)
  }

  lemma OnlyChanged(m: Memory, m': Memory, b: nat, cell: BuilderCell)
    requires Separate(m) && Separate(m') && b < |m.builders| == |m'.builders| && Value(m', b) == cell
    requires forall c :: 0 <= c < |m.builders| && c != b ==> Value(m', c) == Value(m, c)
    ensures Values(m') == Values(m)[b := cell]
  {
  }

  lemma PredsAdded(m: Memory, b: nat, ps: seq<CallerPred>, spare: nat)
    requires Separate(m) && b < |m.builders|
    ensures var m' := AddPreds(m, b, ps, spare);
            Separate(m') && Values(m') == Values(m)[b := Value(m, b).(preds := Value(m, b).preds + ps)]
  {
    var m' := AddPreds(m, b, ps, spare);
    AppendToOne(m.preds, m.PredSlices(), b, ps, spare);
    assert m'.PredSlices() == m.PredSlices()[b := m'.builders[b].preds];
    assert m'.OrderSlices() == m.OrderSlices() && m'.InterSlices() == m.InterSlices()
      && m'.FieldSlices() == m.FieldSlices();
    forall c | 0 <= c < |m.builders| && c != b ensures Value(m', c) == Value(m, c) {
      assert m.PredSlices()[c] == m.builders[c].preds;
    }
    OnlyChanged(m, m', b, Value(m, b).(preds := Value(m, b).preds + ps));
  }

  lemma OrderAdded(m: Memory, b: nat, os: seq<nat>, spare: nat)
    requires Separate(m) && b < |m.builders|
    ensures var m' := AddOrder(m, b, os, spare);
            Separate(m') && Values(m') == Values(m)[b := Value(m, b).(order := Value(m, b).order + os)]
  {
    var m' := AddOrder(m, b, os, spare);
    AppendToOne(m.orders, m.OrderSlices(), b, os, spare);
    assert m'.OrderSlices() == m.OrderSlices()[b := m'.builders[b].order];
    assert m'.PredSlices() == m.PredSlices() && m'.InterSlices() == m.InterSlices()
      && m'.FieldSlices() == m.FieldSlices();
    forall c | 0 <= c < |m.builders| && c != b ensures Value(m', c) == Value(m, c) {
      assert m.OrderSlices()[c] == m.builders[c].order;
    }
    OnlyChanged(m, m', b, Value(m, b).(order := Value(m, b).order + os));
  }

  lemma FieldsAdded(m: Memory, b: nat, fs: seq<Column>, spare: nat)
    requires Separate(m) && b < |m.builders|
    ensures var m' := AddFields(m, b, fs, spare);
            Separate(m') && Values(m') == Values(m)[b := Value(m, b).(fields := Value(m, b).fields + fs)]
  {
    var m' := AddFields(m, b, fs, spare);
    var at := m.builders[b].ctx;
    AppendToOne(m.fields, m.FieldSlices(), at, fs, spare);
    assert m'.FieldSlices() == m.FieldSlices()[at := m'.ctxs[at].fields];
    assert m'.PredSlices() == m.PredSlices() && m'.InterSlices() == m.InterSlices()
      && m'.OrderSlices() == m.OrderSlices();
    forall c | 0 <= c < |m.builders| && c != b ensures Value(m', c) == Value(m, c) {
      assert m.FieldSlices()[m.builders[c].ctx] == m.ctxs[m.builders[c].ctx].fields;
    }
    OnlyChanged(m, m', b, Value(m, b).(fields := Value(m, b).fields + fs));
  }

  lemma CtxSet(m: Memory, b: nat, limit: Option<nat>, offset: Option<nat>, unique: Option<bool>)
    requires Separate(m) && b < |m.builders|
    ensures var m' := SetCtx(m, b, limit, offset, unique);
            Separate(m') && Values(m')
              == Values(m)[b := Value(m, b).(limit := limit, offset := offset, unique := unique)]
  {
    var m' := SetCtx(m, b, limit, offset, unique);
    assert m'.FieldSlices() == m.FieldSlices();
    assert m'.PredSlices() == m.PredSlices() && m'.InterSlices() == m.InterSlices()
      && m'.OrderSlices() == m.OrderSlices();
    OnlyChanged(m, m', b, Value(m, b).(limit := limit, offset := offset, unique := unique));
  }

  lemma RestSet(m: Memory, b: nat, modifiers: nat, edges: map<Edge, nat>)
    requires Separate(m) && b < |m.builders|
    ensures var m' := SetRest(m, b, modifiers, edges);
            Separate(m') && Values(m') == Values(m)[b := Value(m, b).(modifiers := modifiers, edges := edges)]
  {
    var m' := SetRest(m, b, modifiers, edges);
    assert m'.FieldSlices() == m.FieldSlices();
    assert m'.PredSlices() == m.PredSlices() && m'.InterSlices() == m.InterSlices()
      && m'.OrderSlices() == m.OrderSlices();
    OnlyChanged(m, m', b, Value(m, b).(modifiers := modifiers, edges := edges));
  }

  /** The storage of the builders from position n on is newer than the memory m. */
  ghost predicate NewStorage(m: Memory, m': Memory, n: nat) {
    forall b :: n <= b < |m'.builders| ==>
      && |m.ctxs| <= m'.builders[b].ctx < |m'.ctxs|
      && Newer(m.fields, m'.ctxs[m'.builders[b].ctx].fields)
      && Newer(m.preds, m'.builders[b].preds)
      && Newer(m.orders, m'.builders[b].order)
      && Newer(m.inters, m'.builders[b].inters)
  }

  predicate Newer<T>(st: Store<T>, s: Slice) {
    s.Slice? ==> |st| <= s.arr
  }

  lemma BuilderAdded(m: Memory, cell: BuilderCell, spare: nat)
    requires Separate(m)
    ensures var m' := NewBuilder(m, cell, spare);
            && Separate(m') && Values(m') == Values(m) + [cell]
            && NewStorage(m, m', |m.builders|)
  {
    BuilderSeparate(m, cell, spare);
    var n, m' := |m.builders|, NewBuilder(m, cell, spare);
    assert forall c :: 0 <= c < n ==> Value(m', c) == Value(m, c);
    assert Values(m') == Values(m) + [cell];
  }

  lemma BuilderSeparate(m: Memory, cell: BuilderCell, spare: nat)
    requires Separate(m)
    ensures var m' := NewBuilder(m, cell, spare);
            && Separate(m') && NewStorage(m, m', |m.builders|)
            && Value(m', |m.builders|) == cell
            && forall c :: 0 <= c < |m.builders| ==> Value(m', c) == Value(m, c)
  {
    var m' := NewBuilder(m, cell, spare);
    AddOne(m.fields, m.FieldSlices(), cell.fields, spare);
    AddOne(m.preds, m.PredSlices(), cell.preds, spare);
    AddOne(m.orders, m.OrderSlices(), cell.order, spare);
    AddOne(m.inters, m.InterSlices(), cell.inters, spare);
    var n := |m.builders|;
    assert m'.FieldSlices() == m.FieldSlices() + [m'.ctxs[n].fields];
    assert m'.PredSlices() == m.PredSlices() + [m'.builders[n].preds];
    assert m'.OrderSlices() == m.OrderSlices() + [m'.builders[n].order];
    assert m'.InterSlices() == m.InterSlices() + [m'.builders[n].inters];
    assert Separate(m');
    assert Value(m', n) == cell;
    forall c | 0 <= c < n ensures Value(m', c) == Value(m, c) {
      assert m.FieldSlices()[m.builders[c].ctx] == m.ctxs[m.builders[c].ctx].fields;
      assert m.PredSlices()[c] == m.builders[c].preds && m.OrderSlices()[c] == m.builders[c].order
        && m.InterSlices()[c] == m.builders[c].inters;
    }
  }

  // ---------------------------------------------------------------- the program

  /** The builders and contexts of m are still there, unchanged, and arrays have only been added. */
  ghost predicate Extended(m: Memory, m': Memory) {
    && m.builders <= m'.builders && m.ctxs <= m'.ctxs
    && |m.fields| <= |m'.fields| && |m.preds| <= |m'.preds| && |m.orders| <= |m'.orders| && |m.inters| <= |m'.inters|
  }

  lemma StorageStaysNew(m: Memory, m1: Memory, m2: Memory, c: nat, d: nat)
    requires Extended(m, m1) && Extended(m1, m2) && c <= d == |m1.builders| && |m.builders| <= c
    requires NewStorage(m, m1, c) && NewStorage(m1, m2, d)
    ensures Extended(m, m2) && NewStorage(m, m2, c)
  {
    forall b | c <= b < d ensures m2.builders[b] == m1.builders[b]
      && m2.ctxs[m1.builders[b].ctx] == m1.ctxs[m1.builders[b].ctx] {
    }
  }

  /** Pointing an edge at a builder moves no storage. */
  lemma AttachMovesNothing(m: Memory, m1: Memory, c: nat, edges: map<Edge, nat>)
    requires Extended(m, m1) && |m.builders| <= c < |m1.builders| && NewStorage(m, m1, c)
    ensures var m2 := SetRest(m1, c, m1.builders[c].modifiers, edges);
            Extended(m, m2) && NewStorage(m, m2, c)
  {
  }

  lemma NewBuilderExtends(m: Memory, cell: BuilderCell, spare: nat)
    ensures Extended(m, NewBuilder(m, cell, spare))
  {
  }

  /** The copy c of builder b is made up to the edge EDGES[i]; the rounds to come lead to the goal. */
  ghost predicate Cloning(before: Memory, m: Memory, n: nat, b: nat, c: nat, i: nat, goal: Heap) {
    && i <= |EDGES| && |before.builders| <= c && Separate(m) && Copying(Values(m), n, b, c)
    && goal == CloneEdges(Values(m), n, b, c, i)
    && Extended(before, m) && NewStorage(before, m, c)
  }

  lemma NothingToClone(before: Memory, m: Memory, n: nat, b: nat, c: nat, i: nat, goal: Heap)
    requires i < |EDGES| && Cloning(before, m, n, b, c, i, goal) && EDGES[i] !in m.builders[b].edges
    ensures Cloning(before, m, n, b, c, i + 1, goal)
  {
    CloneEdgesRound(Values(m), n, b, c, i);
  }

  lemma CloningStarts(before: Memory, m: Memory, n: nat, b: nat, c: nat)
    requires Separate(before) && Forward(Values(before)) && Closed(Values(before), n) && b < n && c == |before.builders|
    requires Separate(m) && Values(m) == Values(before) + [Copied(Values(before)[b])] && Extended(before, m)
      && NewStorage(before, m, c)
    ensures Cloning(before, m, n, b, c, 0, Clone(Values(before), n, b))
  {
    CloneStarts(Values(before), n, b);
  }

  lemma CloningEnds(before: Memory, m: Memory, n: nat, b: nat, c: nat, goal: Heap)
    requires Cloning(before, m, n, b, c, |EDGES|, goal)
    ensures Separate(m) && Values(m) == goal && Extended(before, m) && NewStorage(before, m, c)
  {
    CloneEnds(Values(m), n, b, c);
  }

  /** The builders of a program, in memory. How much room an append leaves is up to the runtime. */
  class Builders {
    var mem: Memory

    constructor ()
      ensures Separate(mem) && Values(mem) == []
    {
      mem := Memory([], [], [], [], [], []);
    }

    /** `Clone`: returns the copy of builder b < n. The copy and the copies below it own new storage: contexts and
        arrays that did not exist before. */
    method CloneBuilder(ghost n: nat, b: nat) returns (c: nat)
      requires Separate(mem) && Forward(Values(mem)) && Closed(Values(mem), n) && b < n
      modifies this
      ensures Separate(mem) && Values(mem) == Clone(old(Values(mem)), n, b) && c == |old(mem).builders|
      ensures Extended(old(mem), mem) && NewStorage(old(mem), mem, c)
      decreases n - b, 2
    {
      ghost var before := mem;
      ghost var goal := Clone(Values(mem), n, b);
      c := CopyTop(b);
      CloningStarts(before, mem, n, b, c);
      CloneRounds(n, b, c, before, goal);
      CloningEnds(before, mem, n, b, c, goal);
    }

    method CloneRounds(ghost n: nat, b: nat, c: nat, ghost before: Memory, ghost goal: Heap)
      requires Cloning(before, mem, n, b, c, 0, goal)
      modifies this
      ensures Cloning(before, mem, n, b, c, |EDGES|, goal)
      decreases n - b, 1
    {
      for i := 0 to |EDGES|
        invariant Cloning(before, mem, n, b, c, i, goal)
      {
        CloneRound(n, b, c, i, before, goal);
      }
    }

    /** The new struct of a clone, without edges: a new context, and slices over new arrays. */
    method CopyTop(b: nat) returns (c: nat)
      requires Separate(mem) && b < |mem.builders|
      modifies this
      ensures Separate(mem) && Values(mem) == old(Values(mem)) + [Copied(old(Values(mem))[b])]
        && c == |old(mem).builders|
      ensures Extended(old(mem), mem) && NewStorage(old(mem), mem, c)
    {
      c := |mem.builders|;
      var room: nat := *;
      BuilderAdded(mem, Copied(Value(mem, b)), room);
      NewBuilderExtends(mem, Copied(Value(mem, b)), room);
      mem := NewBuilder(mem, Copied(Value(mem, b)), room);
    }

    /** Copies the builder of the edge EDGES[i] of b, if there is one, and points the copy c of b to it. */
    method CloneRound(ghost n: nat, b: nat, c: nat, i: nat, ghost before: Memory, ghost goal: Heap)
      requires i < |EDGES| && Cloning(before, mem, n, b, c, i, goal)
      modifies this
      ensures Cloning(before, mem, n, b, c, i + 1, goal)
      decreases n - b, 0
    {
      if EDGES[i] !in mem.builders[b].edges {
        NothingToClone(before, mem, n, b, c, i, goal);
        return;
      }
      ghost var was := mem;
      CloneEdgesRound(Values(mem), n, b, c, i);
      var d := CloneBuilder(n, mem.builders[b].edges[EDGES[i]]);
      StorageStaysNew(before, was, mem, c, d);
      AttachMovesNothing(before, mem, c, mem.builders[c].edges[EDGES[i] := d]);
      RestSet(mem, c, mem.builders[c].modifiers, mem.builders[c].edges[EDGES[i] := d]);
      mem := SetRest(mem, c, mem.builders[c].modifiers, mem.builders[c].edges[EDGES[i] := d]);
      assert Values(mem) == CloneEdge(Values(was), n, b, c, i);
    }

    /** A `With*` method: the options run before the new builder is attached. */
    method ApplyLoad(op: Op)
      requires Separate(mem) && Forward(Values(mem)) && op.Load? && op.b < |mem.builders|
        && Source(op.e) == mem.builders[op.b].table
      modifies this
      ensures Separate(mem) && Values(mem) == StepLoad(old(Values(mem)), op)
      decreases op, 0
    {
      var query := |mem.builders|;
      var room: nat := *;
      AppendForward(Values(mem), Fresh(Target(op.e), op.inters));
      BuilderAdded(mem, Fresh(Target(op.e), op.inters), room);
      mem := NewBuilder(mem, Fresh(Target(op.e), op.inters), room);
      ghost var made := Values(mem);
      for i := 0 to |op.opts|
        invariant Separate(mem) && Forward(Values(mem)) && Values(mem) == RunOpts(made, op, i)
      {
        Apply(op.opts[i]);
      }
      RestSet(mem, op.b, mem.builders[op.b].modifiers, mem.builders[op.b].edges[op.e := query]);
      mem := SetRest(mem, op.b, mem.builders[op.b].modifiers, mem.builders[op.b].edges[op.e := query]);
    }

    /** `Where`, `Order`, `Limit`, `Offset`, `Unique`, `Select`, `ForUpdate` and `ForShare`. */
    method ApplyConfigure(op: Op)
      requires Separate(mem) && !op.New? && !op.Load? && !op.Copy? && op.b < |mem.builders|
      modifies this
      ensures Separate(mem) && Values(mem) == old(Values(mem))[op.b := Configure(old(Value(mem, op.b)), op)]
    {
      var room: nat := *;
      var b := op.b;
      var ctx := mem.ctxs[mem.builders[b].ctx];
      match op {
        case Where(_, ps) =>
          PredsAdded(mem, b, ps, room);
          mem := AddPreds(mem, b, ps, room);
        case Order(_, os) =>
          OrderAdded(mem, b, os, room);
          mem := AddOrder(mem, b, os, room);
        case Select(_, fields) =>
          FieldsAdded(mem, b, fields, room);
          mem := AddFields(mem, b, fields, room);
        case Limit(_, limit) =>
          CtxSet(mem, b, Some(limit), ctx.offset, ctx.unique);
          mem := SetCtx(mem, b, Some(limit), ctx.offset, ctx.unique);
        case Offset(_, offset) =>
          CtxSet(mem, b, ctx.limit, Some(offset), ctx.unique);
          mem := SetCtx(mem, b, ctx.limit, Some(offset), ctx.unique);
        case Unique(_, unique) =>
          CtxSet(mem, b, ctx.limit, ctx.offset, Some(unique));
          mem := SetCtx(mem, b, ctx.limit, ctx.offset, Some(unique));
        case Lock(_) =>
          CtxSet(mem, b, ctx.limit, ctx.offset, Some(false));
          mem := SetCtx(mem, b, ctx.limit, ctx.offset, Some(false));
          RestSet(mem, b, mem.builders[b].modifiers + 1, mem.builders[b].edges);
          mem := SetRest(mem, b, mem.builders[b].modifiers + 1, mem.builders[b].edges);
      }
    }

    /** Any one operation. */
    method Apply(op: Op)
      requires Separate(mem) && Forward(Values(mem))
      modifies this
      ensures Separate(mem) && Forward(Values(mem)) && Values(mem) == Step(old(Values(mem)), op)
      ensures Effects(old(Values(mem)), CallsOf(old(Values(mem)), op), Values(mem))
      decreases op, 1
    {
      ghost var heap := Values(mem);
      StepEffects(heap, op);
      if op.New? {
        var room: nat := *;
        BuilderAdded(mem, Fresh(op.table, op.inters), room);
        mem := NewBuilder(mem, Fresh(op.table, op.inters), room);
        assert Values(mem) == Step(heap, op);
        return;
      }
      if op.b >= |mem.builders| {
        assert Values(mem) == Step(heap, op);
        return;
      }
      if op.Copy? {
        var c := CloneBuilder(|mem.builders|, op.b);
        assert Values(mem) == Step(heap, op);
        return;
      }
      if op.Load? {
        if Source(op.e) == mem.builders[op.b].table {
          ApplyLoad(op);
        }
        assert Values(mem) == Step(heap, op);
        return;
      }
      ApplyConfigure(op);
      assert Values(mem) == Step(heap, op);
    }

    /** A whole program: afterwards no two builders share storage, and every builder means what it means for
        builders as values. */
    method Execute(ops: seq<Op>)
      requires Separate(mem) && Forward(Values(mem))
      modifies this
      ensures Separate(mem) && Values(mem) == Run(old(Values(mem)), ops)
      ensures Effects(old(Values(mem)), CallsOfAll(old(Values(mem)), ops), Values(mem))
    {
      RunEffects(Values(mem), ops);
      ExecuteAll(ops);
    }

    method ExecuteAll(ops: seq<Op>)
      requires Separate(mem) && Forward(Values(mem))
      modifies this
      ensures Separate(mem) && Values(mem) == Run(old(Values(mem)), ops)
    {
      ghost var heap := Values(mem);
      for i := 0 to |ops|
        invariant Separate(mem) && Forward(Values(mem)) && Values(mem) == Run(heap, ops[..i])
      {
        Apply(ops[i]);
        assert ops[..i + 1][..i] == ops[..i];
      }
      assert ops[..|ops|] == ops;
    }

    /** A clone in memory is independent: whatever calls are made afterwards, those that stay away from the
        builders there were before leave each of them meaning what it meant, and those that stay away from the
        copy leave the copy meaning what the original meant, lock modifiers apart. */
    method CloneAndExecute(b: nat, ops: seq<Op>) returns (c: nat)
      requires Separate(mem) && Forward(Values(mem)) && b < |mem.builders|
      modifies this
      ensures c == |old(mem).builders| < |mem.builders| && Separate(mem) && Forward(Values(mem))
      ensures var heap := old(Values(mem));
              && (AllAvoid(ops, 0, |heap|) ==> forall x :: 0 <= x < |heap| ==>
                Unfold(Values(mem), x) == Unfold(heap, x))
              && (AllAvoid(ops, |heap|, |Step(heap, Copy(b))|) ==> Unfold(Values(mem), c) == Strip(Unfold(heap, b)))
    {
      ghost var heap := Values(mem);
      c := |mem.builders|;
      Apply(Copy(b));
      Execute(ops);
      CloneIsIndependent(heap, b, ops);
    }
  }
}
