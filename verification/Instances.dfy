/** One small database, to show that what the iff-lemmas allow for does happen. */
module Instances {
  import opened Wrappers
  import opened Schema
  import opened Sequences
  import opened Relational
  import opened LoadPlan
  import opened Paging
  import opened SecondRuns

  /** The id and the key columns of each table. */
  function ColumnsOf(t: Table): seq<Column> {
    match t
    case Account => [ID, ProxyID, ParentAccountID]
    case Group | Proxy | User => [ID]
    case UsageLog => [ID, AccountID, APIKeyID]
    case AccountGroup => [AccountID, GroupID, Data("priority")]
    case APIKey => [ID, UserID, GroupID]
    case AuthIdentity => [ID, UserID]
    case AuthIdentityChannel | IdentityAdoptionDecision => [ID, IdentityID]
  }

  function AccountRow(id: int): Row {
    map[ID := Some(id), ProxyID := Some(id), ParentAccountID := None]
  }

  function IdRow(id: int): Row {
    map[ID := Some(id)]
  }

  function LinkRow(account: int, group: int): Row {
    map[AccountID := Some(account), GroupID := Some(group), Data("priority") := Some(50)]
  }

  /** Two accounts, each with a proxy of its own; the first is in two groups with the same priority. */
  function Sample(): Database {
    Database(
      (t: Table) =>
        match t
        case Account => [AccountRow(1), AccountRow(2)]
        case Proxy | Group => [IdRow(1), IdRow(2)]
        case AccountGroup => [LinkRow(1, 1), LinkRow(1, 2)]
        case _ => [],
      ColumnsOf,
      (tag: nat, row: Row) => true,
      (tag: nat, row: Row) => 0)
  }

  lemma SampleIsValid()
    ensures ValidDatabase(Sample())
  {
    forall t: Table ensures ValidTable(Sample(), t) {
      SampleTableIsValid(t);
    }
    forall e: Edge ensures ValidEdge(Sample(), e) {
      SampleEdgeIsValid(e);
    }
  }

  lemma SampleTableIsValid(t: Table)
    ensures ValidTable(Sample(), t)
  {
    match t
    case Account => TwoRowsValid(Sample(), t, AccountRow(1), AccountRow(2));
    case Proxy | Group => TwoRowsValid(Sample(), t, IdRow(1), IdRow(2));
    case AccountGroup =>
      forall row | row in Sample().rows(AccountGroup) ensures row.Keys == set c | c in ColumnsOf(AccountGroup) {
      }
    case _ =>
  }

  lemma TwoRowsValid(db: Database, t: Table, a: Row, b: Row)
    requires db.rows(t) == [a, b] && |db.columns(t)| > 0 && db.columns(t)[0] == ID
    requires a.Keys == b.Keys == set c | c in db.columns(t)
    requires Cell(a, ID) == Some(1) && Cell(b, ID) == Some(2)
    ensures ValidTable(db, t)
  {
  }

  lemma SampleEdgeIsValid(e: Edge)
    ensures ValidEdge(Sample(), e)
  {
  }

  /** `WithAccountGroups(func(q) { q.Unique(true); q.Select("priority") })`. */
  const UNIQUE_LINKS := With(AccountAccountGroups,
      Query(AccountGroup, [Data("priority")], [], [], None, None, Some(true), []))

  /** DISTINCT drops one of the two links, because they agree on the priority and on the account. */
  lemma UniqueJoinShrinks()
    ensures var row := AccountRow(1);
            && ValidDatabase(Sample()) && ValidWith(UNIQUE_LINKS) && row in Sample().rows(Account)
            && RelatedRows(Sample(), UNIQUE_LINKS, row) == [LinkRow(1, 1), LinkRow(1, 2)]
            && NaiveJoin(Sample(), UNIQUE_LINKS, row) == [LinkRow(1, 1)]
  {
    SampleIsValid();
    RelatedLinks();
    LinksAgree();
    FirstOfTwo(LinkRow(1, 1), LinkRow(1, 2), SubColumns(Sample(), UNIQUE_LINKS));
  }

  lemma RelatedLinks()
    ensures RelatedRows(Sample(), UNIQUE_LINKS, AccountRow(1)) == [LinkRow(1, 1), LinkRow(1, 2)]
  {
    LinkMatches(1);
    LinkMatches(2);
    BothRelated(Sample(), UNIQUE_LINKS, AccountRow(1), LinkRow(1, 1), LinkRow(1, 2));
  }

  lemma BothRelated(db: Database, w: With, row: Row, a: Row, b: Row)
    requires db.rows(Target(w.edge)) == [a, b] && Match(db, w, row)(a) && Match(db, w, row)(b)
    ensures RelatedRows(db, w, row) == [a, b]
  {
    FilterBoth(a, b, Match(db, w, row));
  }

  lemma FilterBoth<T>(a: T, b: T, f: T -> bool)
    requires f(a) && f(b)
    ensures Filter([a, b], f) == [a, b]
  {
    FilterAll([a, b], f);
  }

  lemma LinkMatches(group: int)
    ensures Match(Sample(), UNIQUE_LINKS, AccountRow(1))(LinkRow(1, group))
  {
  }

  lemma LinksAgree()
    ensures var columns := SubColumns(Sample(), UNIQUE_LINKS);
            Project(LinkRow(1, 1), columns) == Project(LinkRow(1, 2), columns)
  {
    assert SubColumns(Sample(), UNIQUE_LINKS) == [Data("priority"), AccountID];
  }

  lemma FirstOfTwo(a: Row, b: Row, columns: seq<Column>)
    requires Project(a, columns) == Project(b, columns)
    ensures FirstOfEach([a, b], columns) == [a]
  {
    FirstOfEachStep([], a, columns);
    assert [] + [a] == [a];
    assert FirstOfEach([a], columns) == [a];
    FirstOfEachStep([a], b, columns);
    assert [a] + [b] == [a, b];
    assert a in [a];
  }

  const PROXY := With(AccountProxy, Query(Proxy, [], [], [], None, None, None, []))

  /** A builder that was run for the first account loses the proxy of the second. */
  lemma SecondRunLoses()
    ensures var again := With(AccountProxy, Narrow(PROXY, [1]));
            && ValidDatabase(Sample()) && ValidWith(PROXY) && AccountRow(2) in Sample().rows(Account)
            && NaiveJoin(Sample(), PROXY, AccountRow(2)) == [IdRow(2)]
            && NaiveJoin(Sample(), again, AccountRow(2)) == []
  {
    SampleIsValid();
    FilterSecond(IdRow(1), IdRow(2), Match(Sample(), PROXY, AccountRow(2)));
    SecondRunJoin(Sample(), PROXY, [1], AccountRow(2));
  }

  lemma FilterSecond<T>(a: T, b: T, f: T -> bool)
    requires !f(a) && f(b)
    ensures Filter([a, b], f) == [b]
  {
    FilterStep([a, b], 0, f);
    FilterStep([a, b], 1, f);
    assert [a, b][..2] == [a, b];
  }

  const GROUPS := With(AccountGroups, Query(Group, [], [], [], None, None, None, []))

  lemma FirstHasGroup()
    ensures ValidDatabase(Sample()) && ValidWith(GROUPS) && NaiveJoin(Sample(), GROUPS, AccountRow(1)) != []
  {
    SampleIsValid();
    assert LinkRow(1, 1) in Sample().rows(AccountGroup);
    assert Linked(Sample(), 1, 1);
    NeighborJoins(Sample(), GROUPS, AccountRow(1), IdRow(1));
  }

  /** Loading the groups of the first account twice with one builder panics, if the driver answers. */
  lemma SecondRunPanics(d: Driver, again: With)
    requires Honours(d) && d.db == Sample()
    requires again == With(AccountGroups, EdgeQuery(GROUPS, [AccountRow(1)]))
    requires d.ask(SpecOf(d.db, EdgeQuery(again, [AccountRow(1)]))).Some?
    ensures EdgeError(d, again, [AccountRow(1)]) == Some(WrongSlot)
  {
    FirstHasGroup();
    PanicsAgain(d, GROUPS, AccountRow(1));
  }
}
