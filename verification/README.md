# Verified models of the account persistence layer and the audit gate

This project models three parts of the Hermes proxy repository and proves what they promise:

* **Eager loading** (`backend/ent/*_query.go`). A query with `With*` edges runs one SQL query per edge and
  distributes the returned rows over the nodes through in-memory maps. The model keeps the loops, the maps and
  the nodes that are filled in place, in the three shapes the code generator emits (many-to-many,
  many-to-one, one-to-many, each with nullable and required keys). It proves that for every database, every
  answer that honours the query, and every tree of requests, a run ends with exactly the error, or exactly the nodes
  and the builders, that a plan on rows alone predicts; that valid fields and an answering driver suffice for
  success; and that each node then holds what joining that node on its own would give, on every level. The query
  builders, as values and as storage with shared backing arrays, and the column codec of the account entity
  belong to the same part.
* **Bulk create** (`backend/ent/account_create.go`). `AccountCreateBulk.Save` is a chain of closures, one per
  builder, each wrapped in that builder's hooks, around a single batch insert. The model runs that chain
  with arbitrary hooks over shared arrays.
* **The audit-exception gate** (`tools/check_pnpm_audit_exceptions.py`). A line-oriented reader, an index in which
  the first exception wins, and a scan that skips repeated keys. Its exit code is proved equivalent to a
  declarative policy.

| file | part |
|---|---|
| `Wrappers.dfy`, `Sequences.dfy`, `Text.dfy` | options and results; filtering of sequences; `str.strip`, `str.find`, `startswith`, the lines of a file |
| `Schema.dfy`, `Relational.dfy` | edges and their shapes; databases, queries, answers, the naive join, column selection |
| `LoadPlan.dfy` | what a run asks, gets, fails with and leaves behind, in terms of rows; the rows of a node are its naive join |
| `HandOut.dfy`, `EagerLoad.dfy` | the bookkeeping loops; `All`, `sqlAll` and the loads, proved to follow the plan |
| `LoadProperties.dfy`, `Chains.dfy`, `Paging.dfy` | accessors, repeated ids, conservation; nested parents and children; limits and DISTINCT |
| `SecondRuns.dfy`, `Instances.dfy` | running a builder again; a small database where the failures happen |
| `QueryBuilders.dfy`, `Programs.dfy` | builders as values that point to each other: `Where` ... `With*`, `Clone`; what a program of calls means |
| `BuilderStorage.dfy` | the same builders in memory: context pointers, slices with spare capacity, `append` |
| `AccountCodec.dfy` | `scanValues` and `assignValues` |
| `AccountCreate.dfy`, `BulkCreate.dfy` | `defaults` and `check`; the mutator chain |
| `ExceptionFile.dfy`, `AuditGate.dfy` | the reader and a printer; index, scan, policy |

`dafny verify dfyconfig.toml` checks everything.

## Assumptions

* A driver is any function from the query it gets to a list of rows or an error. `Relational.Honours` is all that is
  assumed of it: a plain answer is a page of the matching rows, sorted as the query asks, ties in any order; an answer to a joined query
  is a page of the matching rows with their linked accounts, sorted so and with any repetitions. An order is a rank of
  rows. Without limit and offset the page is everything. A limit or an offset of 0 is the same as none, because both are plain fields of the specification. With `Unique(true)` one row, the
  first in the table, stands for all rows that agree on the selected columns. Calls for the same query give the same answer.
* Every application of the join of a many-to-many load puts its account column in front of the columns selected before
  it (`account_query.go`, lines 638-646). So after two applications the second column of a row is an account id, for
  which `scanValues` of a group allocates no integer slot, and the type assertion on the second slot panics.
* A valid database (`Relational.ValidDatabase`) has the table's columns in every row, unique ids that are not NULL, and no NULL
  in a required key. Interceptors pass queries through unchanged.
* A hook calls the next mutator at most once. What it does before and after is given by two arbitrary functions; a
  hook that puts another mutation in place of the builder's own makes a new one.
* `str.lower`, `date.fromisoformat` and today's date are parameters of the gate; dates are day numbers. The findings that
  `iter_vulns` yields are its input.
* JSON encoding is a parameter of the codec.

## What the code does that its callers may not expect

* The guard `if line` after the item marker (`tools/check_pnpm_audit_exceptions.py`, line 39) is never false
  (`ExceptionFile.ItemLineIsNotBare`).
* When one key is reported with two severities, the order of the findings can decide the exit code (`AuditGate.OrderMatters`). It
  does exactly when the exception list is well formed, all relevant findings are identified and some of them is not
  covered but each shares its key with one that is (`AuditGate.OrderIsIrrelevant`).
* A value with a line end in it does not survive the exception file: the rest of the line is read as a line of its own
  (`ExceptionFile.ParsePrintExactly`).
* `check` runs on the builder's own mutation before the mutation that the hooks handed on replaces it (`account_create.go`,
  lines 2111 and 2114), so a row from a swapped mutation is inserted unchecked (`BulkCreate.SwappedFieldsSkipCheck`; exact condition in
  `BulkCreate.InsertedRowsChecked`).
* A hook can make `Save` succeed with rows that were not written or with nil nodes. This happens exactly when no batch was
  accepted and either a hook stopped early with success or one turned the failure that reached it into success, and all
  hooks around it left it so (`BulkCreate.SuccessWithoutBatch`); which builders are then marked done is
  `BulkCreate.DoneExactly`. Instances: `BulkCreate.HiddenErrorMarksDone`, `BulkCreate.EarlyStopLeavesNil`.
* A load leaves its key filter in the builder of the edge, so running the same builder again loses the targets of rows that
  the first run did not see (`SecondRuns.SecondRunJoin`, `SecondRuns.SecondRunComplete`, `Instances.SecondRunLoses`); on an
  unchanged database nothing is lost (`SecondRuns.RunTwice`). The second run of a many-to-many edge panics, without paging
  exactly when some matching neighbour is linked to an account of each run (`SecondRuns.SecondManyToManyRun`,
  `Instances.SecondRunPanics`).
* A `Limit` on an edge bounds the neighbours of all nodes together, not of each (`Paging.LimitIsShared`,
  `Paging.JoinedLimitIsShared`), and `Limit(0)` is no limit (`Paging.LimitZeroIsNone`).
* `Unique(true)` on the query of an edge to a table without an id drops rows of the join unless the selected columns tell
  them apart (`Paging.UniqueJoin`, `Instances.UniqueJoinShrinks`).
* If a clone shared a slice with its original, an append to the one would overwrite an earlier append to the other
  exactly when there is spare capacity for both and the elements differ (`BuilderStorage.SharedSliceChanges`). `Clone`
  copies every slice, so none is shared (`BuilderStorage.Builders.CloneBuilder`).
* Nodes with repeated ids: to-one loads serve all of them, to-many loads only the last (`LoadProperties.LastOccurrenceTakesAll`,
  `LoadProperties.LastOccurrenceOwnsAll`).

## Model

| member | source | states |
|---|---|---|
| EagerLoad.All | backend/ent/account_query.go:524-625 | for any driver that honours its queries and any tree of requests: the error is exactly the one the plan predicts, if any; otherwise the nodes are the rows that satisfy the builder's predicates, sorted by its orders, from its offset on and up to its limit; every requested edge of every node holds, in order, the rows got that belong to it, paged or not, and they are the naive join of that node alone, or a part of it when the edge's query is paged, level by level to the height of the tree; no other edge is set; every node of every level shows its whole row if its query chose no fields, and otherwise the chosen fields and the keys; and every builder of the tree is left as the plan says |
| Relational.AnswerReturns | backend/ent/account_query.go:888-900 | an answered query gives the rows that the builder selects, in its orders, from its offset on and up to its limit, in terms of the builder's own values; the number of rows follows |
| Paging.EdgeReturns | backend/ent/account_query.go:704-708 | the rows of a to-one or one-to-many load are those that the caller's predicates and the keys admit, sorted and cut by the edge builder's own orders, offset and limit |
| Paging.JoinedReturns | backend/ent/account_query.go:638-652 | the pairs of a many-to-many load are sorted by the orders of the edge's builder and cut by its own offset and limit |
| EagerLoad.LoadedShows | backend/ent/account_query.go:858-881 | on every level: a node whose query chose no fields holds its whole row; otherwise it holds the chosen fields and, besides them, only the id and needed keys |
| EagerLoad.LoadEdges | backend/ent/account_query.go:581-623 | any subset of edges equals that many independent loads; the first failing load, in order, decides the error; loading one edge leaves the others as they are |
| EagerLoad.LoadToOne | backend/ent/account_query.go:688-751 | a many-to-one load asks nothing when no node has a key; it fails exactly as its query does; otherwise each node's edge is set to the returned row with its key iff there is one, paged or not |
| EagerLoad.LoadToMany | backend/ent/account_query.go:752-844 | a one-to-many load fails exactly as its query does; otherwise each node gets, in order, the returned rows that point at it, the empty list included |
| EagerLoad.LoadManyToMany | backend/ent/account_query.go:627-687 | a many-to-many load fails exactly as its query does; otherwise each node gets, in first-seen order and each once, the neighbours returned for it, whatever rows repeat or interleave; the join stays in the builder |
| EagerLoad.BuildJoined | backend/ent/account_query.go:653-671 | scanning the joined rows makes one node for the first row of each id and collects all owners of each id; with two or more joins it panics iff there is a row |
| EagerLoad.BuildNodes | backend/ent/account_query.go:563-571 | one new node per returned row, in order, holding exactly the selected columns, without edges |
| EagerLoad.FilledIsLoaded | backend/ent/account_query.go:550-625 | on every level of a tree of requests, handing out the returned rows by their keys leaves the naive join of each node |
| EagerLoad.ToOneFills | backend/ent/account_query.go:689-718 | what the buckets and the hand-out of a many-to-one load leave in a node is the returned row with its key, or nothing |
| EagerLoad.ToManyFills | backend/ent/account_query.go:753-784 | what the id map and the hand-out of a one-to-many load leave in a node is the list of returned rows that point at it |
| EagerLoad.ManyToManyFills | backend/ent/account_query.go:628-686 | what the owner sets and the hand-out of a many-to-many load leave in a node is the list of neighbours returned for its id |
| EagerLoad.ToOneExpected | backend/ent/account_query.go:740-744 | every neighbour returned under the key filter has an id that some node asked for |
| EagerLoad.ToManyPlaced | backend/ent/account_query.go:772-781 | every neighbour returned under the key filter has a selected key, not nil, of some node |
| EagerLoad.JoinedOwned | backend/ent/account_query.go:661-685 | every neighbour of the joined query has owners and none of them is nil |
| LoadPlan.ErrorsAreJustified | backend/ent/account_query.go:524-548 | a run ends with an invalid field only if that field is chosen in some query of the tree and is not a column of that query's table, with a driver error only if that very query of the run was not answered, and with the slot panic only if a many-to-many load had run on a builder of the tree; with no other error |
| LoadPlan.RunSucceeds | backend/ent/account_query.go:550-625 | valid fields on the whole tree, fresh builders and a driver that answers what the run asks are enough for success |
| LoadPlan.AskedIsJoin | backend/ent/account_query.go:688-844 | the rows returned for all nodes, restricted to those that belong to one of them, are that node's naive join, all of it unless the edge's query is paged |
| LoadPlan.JoinedIsJoin | backend/ent/account_query.go:638-687 | the first-seen rows of the joined answer that came with a node's id are that node's naive join through account_groups |
| LoadPlan.FirstSeenOrdered | backend/ent/account_query.go:661-671 | the rows kept are those of the first hits with their ids, in the order in which the ids first appear |
| LoadPlan.AskedHasKey | backend/ent/account_query.go:704-708 | every row that comes back has one of the keys that were asked for |
| LoadProperties.NoKeysNoQuery | backend/ent/account_query.go:701-703 | a to-one load for nodes without keys cannot fail, whatever the driver does, and leaves its builder alone |
| LoadPlan.ToOneIsSingle | backend/ent/account_query.go:709-718 | at most one returned row has the key of a node |
| LoadProperties.JoinsByKeys | backend/ent/account_query.go:638-844 | edge by edge, with the column named: the naive join holds the rows whose key, or link, says that they belong to the row |
| LoadProperties.KeysRefer | backend/ent/account_query.go:712-775 | the key of every edge holds ids of the table at its other end |
| LoadPlan.SelectsKeys | backend/ent/account_query.go:866-881 | whatever fields are chosen, the id and every key that a many-to-one edge reads are selected |
| LoadPlan.KeyColumnSelected | backend/ent/account_query.go:762-764 | the column by which a load hands out its rows is always selected by the query of the edge |
| LoadPlan.SubHeight | backend/ent/account_query.go:434-452 | the measure of the recursion: the builder below an edge is strictly lower than the builder above it |
| Relational.QuerySpecColumns | backend/ent/account_query.go:859-881 | the loops compute the selected columns, whose meaning is `SelectedHas` and `LoadedShows` |
| Relational.SelectedHas | backend/ent/account_query.go:866-881 | the id comes first and, with chosen fields, exactly once; all chosen fields and needed keys are selected, and nothing else |
| Relational.FirstOfEachIsAll | backend/ent/account_query.go:861-865 | DISTINCT changes a list of rows iff two of them agree on the selected columns |
| Relational.FirstOfEachFilter | backend/ent/account_query.go:861-865 | dropping duplicates for all nodes at once and then handing out equals dropping them node by node, when the selected columns decide who gets a row |
| HandOut.CollectKeys | backend/ent/account_query.go:689-700 | the first loop of a many-to-one load: ids in order of first appearance and the bucket of each |
| HandOut.KeysAre | backend/ent/apikey_query.go:526-545 | the ids are duplicate-free, are the keys that are not nil, and are the keys of the buckets |
| HandOut.BucketIs | backend/ent/apikey_query.go:526-545 | a bucket holds exactly the nodes with its key, in order: the buckets partition the nodes that have a key |
| HandOut.HandOutToOne | backend/ent/account_query.go:709-718 | each node gets the last returned neighbour with its key, also when nodes share an id; an error iff a neighbour was not asked for, and then it names the first such neighbour |
| HandOut.CollectIds | backend/ent/account_query.go:753-761 | the ids, the last node of each id, and the edge of every node set to the empty list |
| HandOut.HandOutToMany | backend/ent/authidentity_query.go:576-590 | a stable partition: each node's list is the subsequence of neighbours that point at it; an error iff some neighbour has a nil key or the key of no node, and then it is about the first such neighbour |
| HandOut.AssignSet | backend/ent/account_query.go:682-684 | each owner gets the neighbour once, in whatever order the map is visited; fails iff a nil owner is among them |
| HandOut.HandOutToOwners | backend/ent/account_query.go:677-686 | each node's list is the subsequence of neighbours it owns, independent of map order; the error is about the first neighbour without owners or with a nil owner |
| LoadProperties.UniqueAccessor | backend/ent/account.go:120-140 | for every requested unique edge, paged or not: the accessor returns the node of a returned row that has the node's key, and NotFound iff no returned row has it |
| LoadProperties.UnpagedAccessor | backend/ent/account.go:120-140 | without paging the accessor returns the one row of the target table that joins, or NotFound iff there is none |
| LoadProperties.ListAccessor | backend/ent/account.go:109-118 | the accessor of a requested list edge returns the naive join, the empty list included |
| Chains.ParentsStopAtDepth | backend/ent/account_query.go:432-441 | for any account: k nested `WithParent` let one follow the parent rows exactly k times, or up to the first account without a parent, whose accessor says NotFound |
| Chains.CyclesStopAtDepth | backend/ent/account_query.go:432-441 | on a cycle of parent links, other accounts being what they may, k nested `WithParent` load exactly k parents; the last one's parent is not loaded |
| Chains.ChildrenStopAtDepth | backend/ent/account_query.go:443-452 | whatever the links, the children can be followed at most k times, what is followed are child rows, and exactly the last level is not loaded |
| Chains.ChildPathsLoaded | backend/ent/account_query.go:443-452 | k nested `WithChildren` load every path of child rows of at most k steps |
| Chains.ChildCyclesStopAtDepth | backend/ent/account_query.go:443-452 | on a cycle of child links some chain of children has k steps and none has more |
| Chains.ParentsHeight | backend/ent/account_query.go:432-441 | the measure of that query is k |
| LoadProperties.LastOccurrenceTakesAll | backend/ent/account_query.go:753-761 | with repeated ids the last node with an id takes every neighbour that points at the id, the earlier ones none |
| LoadProperties.LastOccurrenceOwnsAll | backend/ent/account_query.go:628-637 | with repeated ids the last node with an id owns every neighbour that was returned for the id, the earlier ones none |
| LoadProperties.AssignToMany | backend/ent/account_query.go:752-784 | the whole bookkeeping of a one-to-many load on nodes whose ids may repeat: exact error condition and exact lists, stated on the nodes' edges |
| LoadProperties.AssignToOwners | backend/ent/account_query.go:627-687 | the same for a many-to-many load |
| LoadProperties.EveryNeighborAssignedOnce | backend/ent/authidentity_query.go:529-591 | conservation: a one-to-many load without error assigns as many neighbours as were returned |
| Paging.LimitIsShared | backend/ent/account_query.go:752-784 | for a to-one or one-to-many edge: every node gets its whole join iff the matches of all nodes together fit the page: nothing matches, or nothing is skipped and there is no limit or they fit it |
| Paging.JoinedLimitIsShared | backend/ent/account_query.go:638-687 | for a many-to-many edge: every node gets its whole join iff no pair of account and neighbour is missing from the page; if no pair is repeated, iff the pairs of all nodes together fit it |
| Paging.UniqueJoin | backend/ent/accountgroup_query.go:448-466 | `Unique(true)` keeps the join of a node iff the selected columns tell the joining rows apart, which they always do on a table with an id |
| Instances.UniqueJoinShrinks | backend/ent/accountgroup_query.go:448-466 | a valid database where `Unique(true)` and `Select("priority")` lose one of two links |
| SecondRuns.SecondRunJoin | backend/ent/account_query.go:704-708 | after a first run with some keys the builder's join of a row is unchanged if its key was among them, and for a to-one or one-to-many edge empty otherwise |
| SecondRuns.SecondRunComplete | backend/ent/account_query.go:765-768 | a second run loads a row's to-one or one-to-many edge completely iff the first run asked for its key or there is nothing to load |
| Instances.SecondRunLoses | backend/ent/account_query.go:704-708 | a valid database where a builder that was run for one account loses the proxy of another |
| SecondRuns.SecondJoinComplete | backend/ent/account_query.go:638-646 | what the first run leaves of a row's many-to-many join is all of it iff each of its neighbours is also a neighbour of an account of the first run |
| SecondRuns.SecondManyToManyRun | backend/ent/account_query.go:638-660 | a second run of a many-to-many edge asks for the joins with the accounts of both runs; it panics only if some matching neighbour is linked to an account of each run, and without paging exactly then |
| SecondRuns.SameAccountsAgain | backend/ent/account_query.go:638-660 | for the same accounts and without paging the second run panics iff any of them has a matching neighbour |
| Instances.SecondRunPanics | backend/ent/account_query.go:638-660 | a valid database where loading the groups of one account twice panics for every driver that answers |
| SecondRuns.RunLeavesFilters | backend/ent/account_query.go:638-646 | on every level a successful run leaves the builder of an edge with the join that its own load's filter gives, or unchanged if that load was skipped |
| SecondRuns.AfterIsValid | backend/ent/account_query.go:412-474 | the builder that a run leaves can be run again and differs from the one before below its edges only |
| SecondRuns.RunTwice | backend/ent/account_query.go:524-625 | a tree without many-to-many edges, run twice: the second run makes nodes of the same rows, and their edges hold the same joins on every level; with valid fields and an answering driver both runs succeed |
| QueryBuilders.BuildersFormTrees | backend/ent/account_query.go:412-474 | after any program of builder calls, options included, pointers go to younger builders of the right type and none is attached twice |
| QueryBuilders.BuildersAreValid | backend/ent/account_query.go:412-474 | every builder a program can make, `Unique` included, unfolds to a query tree that the join theorem covers |
| Programs.RunReflects | backend/ent/account_query.go:44-72 | the same from any builders on, for every builder |
| Programs.ProgramMeans | backend/ent/account_query.go:44-72 | the query of a new builder after any program, options included: its predicates, orders and fields are those of all its calls in call order, its limit, offset and uniqueness those of the last such call, its edges those of the `With*` calls |
| Programs.WhereNarrows | backend/ent/account_query.go:44-47 | the rows that match after `Where` are those that matched before and satisfy the new predicates too |
| Programs.LoadAttaches | backend/ent/account_query.go:434-441 | a `With*` call attaches a new builder of the edge's table, set up by the options, and the query loads the edge with it |
| QueryBuilders.CloneUnfolds | backend/ent/account_query.go:388-408 | the copy unfolds to the same tree without lock modifiers |
| QueryBuilders.CloneIsIndependent | backend/ent/account_query.go:388-408 | any calls that stay off the copy leave the copy's meaning alone, and any calls that stay off the originals leave theirs alone |
| BuilderStorage.Builders.CloneBuilder | backend/ent/account_query.go:388-408 | in memory `Clone` means what it means for values, and the copy and every copy below it own contexts and arrays that did not exist before |
| BuilderStorage.Builders.Execute | backend/ent/account_query.go:44-72 | after any program no two builders share a context or a backing array, and each holds what the calls on it say |
| BuilderStorage.Builders.CloneAndExecute | backend/ent/account_query.go:388-408 | clone, then any calls in memory: those that stay off one side leave the other side's meaning alone |
| BuilderStorage.Builders.ApplyLoad | backend/ent/account_query.go:434-441 | a `With*` method makes a new builder, runs the options, then attaches it |
| BuilderStorage.Builders.Apply | backend/ent/account_query.go:44-72 | every builder call, done with pointers and `append`, has its specified effect on the values, and does to every builder what its calls say |
| BuilderStorage.AppendChanges | backend/ent/account_query.go:397-399 | appending to one slice changes another iff they are over one array, there is spare capacity, and what is written over the other differs |
| BuilderStorage.SharedSliceChanges | backend/ent/account_query.go:397-399 | without the copying: two appends to a shared slice spoil the first one's result iff there was room for both and the elements differ |
| AccountCodec.ScanValues | backend/ent/account.go:169-189 | one empty slot of the column's type for every column |
| AccountCodec.Account.AssignValues | backend/ent/account.go:193-417 | the loop computes the fold of the columns over the entity; it stops at the first error and keeps what was assigned before |
| AccountCodec.Account.AssignColumn | backend/ent/account.go:198-414 | one column: type test, NULL, JSON and dynamic columns |
| AccountCodec.PutView | backend/ent/account.go:199-411 | each of the 32 branches sets its own field and no other |
| AccountCodec.AllocatedFits | backend/ent/account.go:172-187 | the slot type allocated for a field is the one that `assignValues` tests for |
| AccountCodec.ScannedNeverMismatch | backend/ent/account.go:169-417 | for any column list, repeated and unknown columns included, scanned slots never cause a length or type error |
| AccountCodec.FirstUnreadableDecides | backend/ent/account.go:193-417 | with enough values an error is returned exactly if some column cannot be read, a wrong type or text that is not JSON; it is about the first such column, and what was read before stays |
| AccountCodec.LastSettingWins | backend/ent/account.go:197-415 | a field ends with its last value that is not NULL, or as it was; the id is overwritten by NULL too |
| AccountCodec.RoundTrip | backend/ent/account.go:193-417 | decoding an encoded row restores exactly the selected columns; other fields stay zero and exactly the dynamic columns are kept |
| AccountCodec.RoundTripWhole | backend/ent/account.go:193-417 | with all columns selected the entity comes back whole |
| AccountCreate.AccountCreateBuilder.ApplyDefaults | backend/ent/account_create.go:527-585 | fills missing fields in order and stops at a nil default function, keeping what it filled |
| AccountCreate.AccountCreateBuilder.RunChecks | backend/ent/account_create.go:588-662 | passes iff all required fields are set and all set values are valid; otherwise names the first field in declared order that is missing or invalid, and says which |
| AccountCreate.CheckIsWritable | backend/ent/account_create.go:588-662 | `check` passes iff all required fields are set and all validated values that are set are valid |
| AccountCreate.FirstProblemDecides | backend/ent/account_create.go:588-662 | an error is reported iff its field has that problem and every field declared before is there and valid |
| AccountCreate.DefaultsFill | backend/ent/account_create.go:527-585 | `defaults` overwrites nothing, sets only its own fields, all of them unless it fails, and fails only at a missing field without a default |
| AccountCreate.DefaultsStop | backend/ent/account_create.go:527-585 | when `defaults` stops it is at the first missing field without a default; what comes before is filled and nothing else |
| AccountCreate.CheckCatchesDefaults | backend/ent/account_create.go:2105-2111 | dropping the error of `defaults` is safe: whenever it fails, `check` fails |
| AccountCreate.OnlyThreeCanBeMissing | backend/ent/account_create.go:588-662 | after `defaults` only name, platform and type can be reported missing |
| AccountCreate.AcceptedExactlyWhen | backend/ent/account_create.go:527-662 | the exact condition on the given fields for `defaults` and `check` to pass |
| BulkCreate.AccountCreateBulk.Save | backend/ent/account_create.go:2095-2152 | the program computes the specified run, also for builders that were saved before: state, nodes and error |
| BulkCreate.AccountCreateBulk.Call | backend/ent/account_create.go:2107-2141 | one mutator, hook or closure, has its specified effect |
| BulkCreate.AccountCreateBulk.CallTerminal | backend/ent/account_create.go:2107-2138 | the closure of one builder |
| BulkCreate.RunFollowsPlan | backend/ent/account_create.go:2102-2150 | for any hooks the calls are a prefix of one plan: builders in order, hook 0 outermost, each check after its hooks, the insert last and at most once |
| BulkCreate.BatchIsPerBuilder | backend/ent/account_create.go:2102-2150 | the insert runs iff every builder, looked at alone, hands on an account mutation and passes `check`; then the batch is exactly those rows in order, and no returned node is nil |
| BulkCreate.InsertedRowsChecked | backend/ent/account_create.go:2108-2116 | all rows of an inserted batch have what `check` asks of a row iff every mutation that a hook put in place of a builder's own has |
| BulkCreate.EditsReachRow | backend/ent/account_create.go:2107-2116 | a builder whose hooks edit its mutation: its fields with defaults, edited from the outermost hook inwards, are what is checked and inserted |
| BulkCreate.LastSettingReachesRow | backend/ent/account_create.go:2107-2116 | what the innermost hook sets, by editing or by swapping the mutation, is the inserted row |
| BulkCreate.SwappedFieldsSkipCheck | backend/ent/account_create.go:2111-2116 | a hook that hands on another mutation gets any fields inserted unchecked |
| BulkCreate.DoneIsSuffix | backend/ent/account_create.go:2117-2138 | with hooks that hide no error, the builders marked done are a suffix, only after an accepted insert, with the ids of their rows; success marks all |
| BulkCreate.AllOrNothing | backend/ent/account_create.go:2095-2152 | with transparent hooks: all done with their ids, or none; success iff every builder writes its row and the driver accepts the batch |
| BulkCreate.OutcomeIsFold | backend/ent/account_create.go:2102-2150 | for any hooks: the outcome of `Save` is the fold of the second halves of the hooks that called on over the outcome of the innermost call |
| BulkCreate.FoldSucceeds | backend/ent/account_create.go:2107-2141 | what the second halves of the called hooks make of an outcome is success iff it was and all leave success alone, or some hook hides a failure and all around it leave success alone |
| BulkCreate.AcceptedIsInserted | backend/ent/account_create.go:2142-2150 | a batch was inserted and accepted iff every builder alone writes its row and the driver takes these rows |
| BulkCreate.SuccessWithoutBatch | backend/ent/account_create.go:2095-2152 | for any hooks: `Save` succeeds without an accepted batch iff no batch is accepted and either a hook stops early with success and all around it leave it so, or a hook turns a failure into success and all around it leave it so |
| BulkCreate.DoneExactly | backend/ent/account_create.go:2117-2138 | for any hooks: a builder is marked done iff it and all earlier ones write their rows and what the later builders' hooks make of the innermost outcome, for the batch of the rows given, is success |
| BulkCreate.HiddenErrorMarksDone | backend/ent/account_create.go:2117-2138 | an instance: a hook that hides the driver's error lets `Save` succeed with nothing written and an earlier builder done |
| BulkCreate.EarlyStopLeavesNil | backend/ent/account_create.go:2146-2151 | an instance: a hook that stops with success makes `Save` return a nil node |
| ExceptionFile.ParseExceptions | tools/check_pnpm_audit_exceptions.py:23-48 | the reading loop over the lines of a text computes the specified records or the error of `split_kv` |
| ExceptionFile.ItemLineIsNotBare | tools/check_pnpm_audit_exceptions.py:35-41 | an item line always carries text after its marker |
| ExceptionFile.ParseCountsItems | tools/check_pnpm_audit_exceptions.py:23-48 | an accepted text yields one record, not empty, for each line that opens an item |
| ExceptionFile.ParsePrint | tools/check_pnpm_audit_exceptions.py:12-48 | reading the printed text gives the list back, for every choice of writing each value bare, in single or in double quotes that its text allows, and for every choice of line ends, a missing last one included |
| ExceptionFile.ParsePrintExactly | tools/check_pnpm_audit_exceptions.py:12-48 | with clean and distinct keys the text, written in any such way, reads back iff no key and no value contains a line end |
| ExceptionFile.RecordHolds | tools/check_pnpm_audit_exceptions.py:38-46 | the dict of a record has the keys of its entries and no others, each with the value of its last entry |
| ExceptionFile.IgnoredLine | tools/check_pnpm_audit_exceptions.py:28-46 | blank lines, comments, the header lines, lines outside an item and lines without a colon inside one have no effect, wherever they are |
| ExceptionFile.ItemWithoutColon | tools/check_pnpm_audit_exceptions.py:35-41 | an item line without a colon stops the reading with its text |
| AuditGate.BuildIndex | tools/check_pnpm_audit_exceptions.py:153-185 | the first loop builds the index; every exception is indexed or reported, and what is reported for each, and why, is exact |
| AuditGate.AddException | tools/check_pnpm_audit_exceptions.py:157-185 | one round of the first loop indexes the exception iff it is well formed and its key is new, and otherwise gives the first reason that applies |
| AuditGate.IndexKeepsFirst | tools/check_pnpm_audit_exceptions.py:174-185 | of several well-formed exceptions with one key the index keeps the first |
| AuditGate.IndexAnswers | tools/check_pnpm_audit_exceptions.py:174-185 | after an error-free first loop every exception is found under its key |
| AuditGate.Scan | tools/check_pnpm_audit_exceptions.py:187-219 | exactly which findings the second loop reports as without advisory, of another severity, without exception or expired; it is silent iff all relevant findings are identified and the first of each key is accepted |
| AuditGate.Gate | tools/check_pnpm_audit_exceptions.py:142-243 | on the text of the exception file: exit code 0 iff the policy holds; the messages besides the headings are exactly what is to be reported; a line without a colon is the only other outcome |
| AuditGate.ScanDecidesPolicy | tools/check_pnpm_audit_exceptions.py:156-219 | the policy, which mentions no index and no seen set, is what the two loops decide |
| AuditGate.AloneDecides | tools/check_pnpm_audit_exceptions.py:100-219 | one exception and one finding, in terms of their texts alone: when the gate passes, the last valid day included |
| AuditGate.PolicyIsStrict | tools/check_pnpm_audit_exceptions.py:204-217 | with one severity per key, checking the first finding of each key checks all |
| AuditGate.OrderIndependent | tools/check_pnpm_audit_exceptions.py:187-219 | then the verdict is the same in every order |
| AuditGate.PassesInEveryOrder | tools/check_pnpm_audit_exceptions.py:187-219 | for any findings: the gate passes in every order iff every relevant finding is covered |
| AuditGate.PassesInSomeOrder | tools/check_pnpm_audit_exceptions.py:187-219 | for any findings: some order passes iff every relevant finding is identified and shares its key with one that is covered |
| AuditGate.OrderIsIrrelevant | tools/check_pnpm_audit_exceptions.py:187-219 | for any findings: the verdict is the same in every order iff every order passes (each relevant finding is covered) or none does (some relevant finding is not identified or shares its key with no covered one, or the list is not well formed) |
| AuditGate.OrderMatters | tools/check_pnpm_audit_exceptions.py:203-214 | two severities under one key: one order passes and the other fails |
| AuditGate.LaterTodayNeverRepairs | tools/check_pnpm_audit_exceptions.py:215-218 | a later date never turns a failure into a pass |
| AuditGate.FreshExceptionNeverBreaks | tools/check_pnpm_audit_exceptions.py:156-185 | a well-formed exception with a fresh key, anywhere in the list, never turns a pass into a failure |

## Left out

- SQL generation, `sqlgraph`, drivers, transactions and row locking: only the answers of a driver are modelled.
- Interceptors that change a query or its result, `Count`, `IDs`, `First`, `Only`, `GroupBy`, `Select`, `Aggregate` and the traversals `Query*`.
- EagerLoad.All: takes the tree of builders as a value and returns the tree it leaves behind; the builders of a run that ends with an error are not described. A negative limit or offset, and the limit that SQL needs next to a lone offset, are not modelled.
- SecondRuns.SecondJoinComplete: is about the rows that satisfy both joins; that the second run itself panics on them is `SecondManyToManyRun`.
- SecondRuns.RunTwice: expects no limit or offset on an edge that has edges below it; there the second page may hold other rows, and `SecondRunComplete` says row by row what these lose.
- Paging.JoinedLimitIsShared: is about the first run of a many-to-many edge; a second one panics.
- QueryBuilders.CloneUnfolds: the traversal path and the intermediate SQL, which `Clone` shares and copies respectively, are not modelled. `ForUpdate` and `ForShare` set `Unique(false)` as on Postgres.
- QueryBuilders.BuildersAreValid: covers builders that no load has touched; a sub-builder that an option keeps a pointer to and that is run again after a many-to-many load has a join, and `SecondManyToManyRun` says what that does.
- BuilderStorage.Builders.Execute: gives every new builder its own interceptor slice; in the code the builders of one client start with the slice of that client, to which no builder call appends, when the schema adds no interceptors.
- BulkCreate.AccountCreateBulk.Save: gives each entry of the list a mutation of its own; the same builder listed twice shares one mutation in the code, and then the builders marked done need not be a suffix. The `id` field of a mutation, hooks that call the next mutator more than once, and the class of an insert error are not modelled. A builder's `OnConflict` clause is passed to the insert unseen.
- AccountCodec.Account.AssignValues: integers are not bounded; the conversion from 64-bit integers to `int` is exact on 64-bit platforms. A failed JSON decoding leaves the map alone.
- AuditGate.Gate: argument parsing, reading of the files, JSON decoding, extraction of findings from the audit report and the wording of messages; a reading error of the exception list ends the program with a traceback, which is the error result here.
- ExceptionFile.ParsePrint: the printer is this project's own; the repository only reads such files.
- The queries of users, proxies, groups, channels, decisions and usage logs have no edges of their own in this model; they are filled as targets.
- Updates, deletes, upserts, single creates, and the generated setters: one-line forwarding or code of the same template.
