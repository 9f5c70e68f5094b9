/** The decision that `check_pnpm_audit_exceptions.py` makes: the index of exceptions, the scan of the
    audit findings, and the policy that its exit code stands for. */
module AuditGate {
  import opened Wrappers
  import opened Sequences
  import opened Text
  import opened ExceptionFile

  // ---------------------------------------------------------------- inputs

  /** A scalar of the audit file. A number carries the text `str` gives it. */
  datatype Scalar = Null | Str(text: string) | Number(text: string, zero: bool)

  /** What `iter_vulns` yields, without the title, which only appears in messages. */
  datatype Finding = Finding(name: Scalar, severity: Option<string>, advisory: Scalar)

  /** `str.lower`, `date.fromisoformat` (dates as day numbers, None for ValueError) and `date.today`. */
  datatype Env = Env(lower: string -> string, parseDate: string -> Option<int>, today: int)

  // ---------------------------------------------------------------- normalisation

  predicate Truthy(v: Scalar) {
    match v
    case Null => false
    case Str(text) => text != ""
    case Number(_, zero) => !zero
  }

  function NormalizeSeverity(env: Env, severity: Option<string>): string {
    env.lower(Strip(if severity.Some? then severity.value else ""))
  }

  function NormalizePackage(name: Scalar): string {
    if name.Null? then "" else Strip(name.text)
  }

  function NormalizeAdvisory(env: Env, advisory: Scalar): string {
    if advisory.Null? then "" else env.lower(Strip(advisory.text))
  }

  // ---------------------------------------------------------------- exceptions

  type Key = (string, string)

  datatype IndexEntry = IndexEntry(severity: string, expiresOn: int)

  const REQUIRED_FIELDS := ["package", "advisory", "severity", "mitigation", "expires_on"]

  /** `not exc.get(field)`: the field is absent or empty. */
  predicate Lacks(exc: Record, field: string) {
    field !in exc || exc[field] == ""
  }

  predicate Complete(exc: Record) {
    forall field :: field in REQUIRED_FIELDS ==> !Lacks(exc, field)
  }

  function Get(exc: Record, field: string): string {
    if field in exc then exc[field] else ""
  }

  function ExceptionKey(env: Env, exc: Record): Key {
    (Strip(Get(exc, "package")), env.lower(Strip(Get(exc, "advisory"))))
  }

  /** All required fields present, a valid date, and a package and advisory that are not blank. */
  predicate WellFormed(env: Env, exc: Record) {
    && Complete(exc)
    && env.parseDate(Get(exc, "expires_on")).Some?
    && ExceptionKey(env, exc).0 != ""
    && ExceptionKey(env, exc).1 != ""
  }

  function EntryOf(env: Env, exc: Record): IndexEntry
    requires WellFormed(env, exc)
  {
    IndexEntry(env.lower(Strip(Get(exc, "severity"))), env.parseDate(Get(exc, "expires_on")).value)
  }

  // ---------------------------------------------------------------- findings

  function FindingKey(env: Env, f: Finding): Key {
    (NormalizePackage(f.name), NormalizeAdvisory(env, f.advisory))
  }

  /** A named finding of high or critical severity. */
  predicate Relevant(env: Env, f: Finding) {
    NormalizeSeverity(env, f.severity) in {"high", "critical"} && Truthy(f.name)
  }

  predicate Identified(env: Env, f: Finding) {
    NormalizeAdvisory(env, f.advisory) != ""
  }

  /** The entry is not expired and names no other severity; a blank severity matches any. */
  predicate Admits(env: Env, entry: IndexEntry, f: Finding) {
    && (entry.severity == "" || entry.severity == NormalizeSeverity(env, f.severity))
    && !(entry.expiresOn < env.today)
  }

  /** The exception excuses the finding. */
  predicate Covers(env: Env, exc: Record, f: Finding) {
    WellFormed(env, exc) && ExceptionKey(env, exc) == FindingKey(env, f) && Admits(env, EntryOf(env, exc), f)
  }

  // ---------------------------------------------------------------- the policy

  predicate WellFormedList(env: Env, excs: seq<Record>) {
    && (forall i :: 0 <= i < |excs| ==> WellFormed(env, excs[i]))
    && (forall i, j :: 0 <= i < j < |excs| ==> ExceptionKey(env, excs[i]) != ExceptionKey(env, excs[j]))
  }

  /** The first relevant finding with its key: later ones with the same key are not looked at. */
  predicate IsFirst(env: Env, findings: seq<Finding>, i: nat)
    requires i < |findings|
  {
    && Relevant(env, findings[i])
    && Identified(env, findings[i])
    && forall j :: 0 <= j < i && Relevant(env, findings[j]) ==>
      FindingKey(env, findings[j]) != FindingKey(env, findings[i])
  }

  predicate AllIdentified(env: Env, findings: seq<Finding>) {
    forall f :: f in findings && Relevant(env, f) ==> Identified(env, f)
  }

  predicate Covered(env: Env, excs: seq<Record>, f: Finding) {
    exists exc :: exc in excs && Covers(env, exc, f)
  }

  /** What exit code 0 means. */
  predicate Policy(env: Env, excs: seq<Record>, findings: seq<Finding>) {
    && WellFormedList(env, excs)
    && AllIdentified(env, findings)
    && forall i :: 0 <= i < |findings| && IsFirst(env, findings, i) ==> Covered(env, excs, findings[i])
  }

  // ---------------------------------------------------------------- the program

  datatype Problem =
    | MissingFields(exc: Record)
    | InvalidDate(exc: Record)
    | BlankKey
    | Duplicate(key: Key)
    | NoAdvisory(finding: Finding)
    | SeverityMismatch(finding: Finding, expected: string)
    | Heading(text: string)
    | Uncovered(finding: Finding)
    | Expired(finding: Finding, expiresOn: int)

  type Index = map<Key, IndexEntry>

  /** The dict that the first loop builds: the first well-formed exception with a key wins. */
  function IndexOf(env: Env, excs: seq<Record>): Index {
    if excs == [] then map[]
    else
      var index := IndexOf(env, excs[..|excs| - 1]);
      var exc := excs[|excs| - 1];
      if WellFormed(env, exc) && ExceptionKey(env, exc) !in index then
        index[ExceptionKey(env, exc) := EntryOf(env, exc)]
      else
        index
  }

  lemma {:induction false} IndexedKeys(env: Env, excs: seq<Record>, k: Key)
    requires k in IndexOf(env, excs)
    ensures exists exc :: exc in excs && ExceptionKey(env, exc) == k
  {
    var n := |excs| - 1;
    assert excs == excs[..n] + [excs[n]];
    if k in IndexOf(env, excs[..n]) {
      IndexedKeys(env, excs[..n], k);
    }
  }

  /** After an error-free first loop the index answers every look-up with the one exception that has
      the key. */
  lemma {:induction false} IndexAnswers(env: Env, excs: seq<Record>, exc: Record)
    requires WellFormedList(env, excs) && exc in excs
    ensures ExceptionKey(env, exc) in IndexOf(env, excs)
    ensures IndexOf(env, excs)[ExceptionKey(env, exc)] == EntryOf(env, exc)
  {
    var n := |excs| - 1;
    var before, last := excs[..n], excs[n];
    assert excs == before + [last];
    WellFormedExtend(env, before, last);
    if ExceptionKey(env, last) in IndexOf(env, before) {
      IndexedKeys(env, before, ExceptionKey(env, last));
    }
    if exc in before {
      IndexAnswers(env, before, exc);
    }
  }

  /** Why exception i of the list is not indexed. */
  predicate Rejected(env: Env, excs: seq<Record>, i: nat, p: Problem)
    requires i < |excs|
  {
    var exc := excs[i];
    match p
    case MissingFields(e) => e == exc && exists field :: field in REQUIRED_FIELDS && Lacks(exc, field)
    case InvalidDate(e) => e == exc && Complete(exc) && env.parseDate(Get(exc, "expires_on")).None?
    case BlankKey =>
      && Complete(exc) && env.parseDate(Get(exc, "expires_on")).Some?
      && (Strip(Get(exc, "package")) == "" || env.lower(Strip(Get(exc, "advisory"))) == "")
    case Duplicate(key) => WellFormed(env, exc) && ExceptionKey(env, exc) == key && HasKey(env, excs[..i], key)
    case _ => false
  }

  /** A well-formed exception of the list has the key. */
  predicate HasKey(env: Env, excs: seq<Record>, key: Key) {
    exists exc :: exc in excs && WellFormed(env, exc) && ExceptionKey(env, exc) == key
  }

  /** The problem is reported for one of the first n exceptions. */
  predicate RejectedAmong(env: Env, excs: seq<Record>, n: nat, p: Problem)
    requires n <= |excs|
  {
    exists i :: 0 <= i < n && Rejected(env, excs, i, p)
  }

  lemma {:induction false} IndexHas(env: Env, excs: seq<Record>, k: Key)
    ensures k in IndexOf(env, excs) <==> HasKey(env, excs, k)
  {
    if excs != [] {
      var n := |excs| - 1;
      IndexHas(env, excs[..n], k);
      assert excs == excs[..n] + [excs[n]];
    }
  }

  /** The first well-formed exception with a key is the one that the index keeps. */
  lemma {:induction false} IndexKeepsFirst(env: Env, excs: seq<Record>, i: nat)
    requires i < |excs| && WellFormed(env, excs[i]) && !HasKey(env, excs[..i], ExceptionKey(env, excs[i]))
    ensures var key := ExceptionKey(env, excs[i]);
            key in IndexOf(env, excs) && IndexOf(env, excs)[key] == EntryOf(env, excs[i])
    decreases |excs|
  {
    var n := |excs| - 1;
    if i == n {
      IndexHas(env, excs[..n], ExceptionKey(env, excs[i]));
      return;
    }
    assert excs[..n][..i] == excs[..i];
    IndexKeepsFirst(env, excs[..n], i);
    IndexKeeps(env, excs, ExceptionKey(env, excs[i]));
  }

  lemma IndexKeeps(env: Env, excs: seq<Record>, k: Key)
    requires excs != [] && k in IndexOf(env, excs[..|excs| - 1])
    ensures k in IndexOf(env, excs) && IndexOf(env, excs)[k] == IndexOf(env, excs[..|excs| - 1])[k]
  {
  }

  /** The first loop of `main`: indexes exceptions and reports, with the reason, exactly those that it does not
      index. */
  method BuildIndex(env: Env, excs: seq<Record>) returns (index: Index, errors: seq<Problem>)
    ensures index == IndexOf(env, excs)
    ensures errors == [] <==> WellFormedList(env, excs)
    ensures forall p :: p in errors <==> RejectedAmong(env, excs, |excs|, p)
    ensures |errors| + |index| == |excs|
  {
    index, errors := map[], [];
    for n := 0 to |excs|
      invariant Built(env, excs, n, index, errors)
    {
      ghost var index0, errors0 := index, errors;
      var problem;
      index, problem := AddException(env, index, excs[n]);
      if problem.Some? {
        errors := errors + [problem.value];
      }
      BuiltStep(env, excs, n, index0, errors0, index, problem);
    }
    assert excs[..|excs|] == excs;
  }

  /** The state of the first loop after n rounds. */
  ghost predicate Built(env: Env, excs: seq<Record>, n: nat, index: Index, errors: seq<Problem>)
    requires n <= |excs|
  {
    && index == IndexOf(env, excs[..n])
    && (errors == [] <==> WellFormedList(env, excs[..n]))
    && (forall p :: p in errors <==> RejectedAmong(env, excs, n, p))
    && |errors| + |index| == n
  }

  lemma BuiltStep(env: Env, excs: seq<Record>, n: nat, index: Index, errors: seq<Problem>, index': Index,
      problem: Option<Problem>)
    requires n < |excs| && Built(env, excs, n, index, errors)
    requires problem == ProblemOf(env, index, excs[n])
    requires var exc := excs[n];
             index' == if problem.None? then index[ExceptionKey(env, exc) := EntryOf(env, exc)] else index
    ensures Built(env, excs, n + 1, index', if problem.Some? then errors + [problem.value] else errors)
  {
    EntryIndexed(env, excs, n, problem);
    OneMoreRejected(env, excs, n, errors, problem);
  }

  lemma EntryIndexed(env: Env, excs: seq<Record>, n: nat, problem: Option<Problem>)
    requires n < |excs| && problem == ProblemOf(env, IndexOf(env, excs[..n]), excs[n])
    ensures WellFormedList(env, excs[..n + 1]) <==> WellFormedList(env, excs[..n]) && problem.None?
    ensures problem.Some? ==> IndexOf(env, excs[..n + 1]) == IndexOf(env, excs[..n])
    ensures problem.None? ==> WellFormed(env, excs[n]) && ExceptionKey(env, excs[n]) !in IndexOf(env, excs[..n])
    ensures problem.None? ==>
      IndexOf(env, excs[..n + 1]) == IndexOf(env, excs[..n])[ExceptionKey(env, excs[n]) := EntryOf(env, excs[n])]
  {
    assert excs[..n + 1] == excs[..n] + [excs[n]];
    IndexStep(env, excs[..n], excs[n]);
  }

  lemma OneMoreRejected(env: Env, excs: seq<Record>, n: nat, errors: seq<Problem>, problem: Option<Problem>)
    requires n < |excs| && forall p :: p in errors <==> RejectedAmong(env, excs, n, p)
    requires problem == ProblemOf(env, IndexOf(env, excs[..n]), excs[n])
    ensures var more := if problem.Some? then errors + [problem.value] else errors;
            forall p :: p in more <==> RejectedAmong(env, excs, n + 1, p)
  {
    forall p ensures RejectedAmong(env, excs, n + 1, p) <==> RejectedAmong(env, excs, n, p) || problem == Some(p) {
      ProblemRejects(env, excs, n, p);
      RejectedStep(env, excs, n, p);
    }
  }

  lemma RejectedStep(env: Env, excs: seq<Record>, n: nat, p: Problem)
    requires n < |excs|
    ensures RejectedAmong(env, excs, n + 1, p) <==> RejectedAmong(env, excs, n, p) || Rejected(env, excs, n, p)
  {
  }

  lemma ProblemRejects(env: Env, excs: seq<Record>, n: nat, p: Problem)
    requires n < |excs|
    ensures ProblemOf(env, IndexOf(env, excs[..n]), excs[n]) == Some(p) <==> Rejected(env, excs, n, p)
  {
    IndexHas(env, excs[..n], ExceptionKey(env, excs[n]));
  }

  /** The problem, if any, of one exception. */
  function ProblemOf(env: Env, index: Index, exc: Record): Option<Problem> {
    if !Complete(exc) then Some(MissingFields(exc))
    else if env.parseDate(Get(exc, "expires_on")).None? then Some(InvalidDate(exc))
    else if !WellFormed(env, exc) then Some(BlankKey)
    else if ExceptionKey(env, exc) in index then Some(Duplicate(ExceptionKey(env, exc)))
    else None
  }

  /** The body of the loop: indexes the exception or says what is wrong with it. */
  method AddException(env: Env, index: Index, exc: Record) returns (index': Index, problem: Option<Problem>)
    ensures problem == ProblemOf(env, index, exc)
    ensures problem.None? <==> WellFormed(env, exc) && ExceptionKey(env, exc) !in index
    ensures index' == if problem.None? then index[ExceptionKey(env, exc) := EntryOf(env, exc)] else index
  {
    if exists field :: field in REQUIRED_FIELDS && Lacks(exc, field) {
      return index, Some(MissingFields(exc));
    }
    var severity := NormalizeSeverity(env, Some(Get(exc, "severity")));
    var package := NormalizePackage(Str(Get(exc, "package")));
    var advisory := NormalizeAdvisory(env, Str(Get(exc, "advisory")));
    var date := env.parseDate(Get(exc, "expires_on"));
    if date.None? {
      return index, Some(InvalidDate(exc));
    }
    if package == "" || advisory == "" {
      return index, Some(BlankKey);
    }
    var key := (package, advisory);
    if key in index {
      return index, Some(Duplicate(key));
    }
    return index[key := IndexEntry(severity, date.value)], None;
  }

  /** One round of the first loop: an exception that is well formed and has a new key is indexed, any other
      makes the list ill formed. */
  lemma IndexStep(env: Env, excs: seq<Record>, exc: Record)
    ensures WellFormedList(env, excs + [exc]) <==>
      WellFormedList(env, excs) && WellFormed(env, exc) && ExceptionKey(env, exc) !in IndexOf(env, excs)
    ensures IndexOf(env, excs + [exc]) ==
      if WellFormed(env, exc) && ExceptionKey(env, exc) !in IndexOf(env, excs) then
        IndexOf(env, excs)[ExceptionKey(env, exc) := EntryOf(env, exc)]
      else
        IndexOf(env, excs)
  {
    assert (excs + [exc])[..|excs|] == excs;
    WellFormedExtend(env, excs, exc);
    if WellFormedList(env, excs) {
      if ExceptionKey(env, exc) in IndexOf(env, excs) {
        IndexedKeys(env, excs, ExceptionKey(env, exc));
      }
      forall e | e in excs ensures ExceptionKey(env, e) in IndexOf(env, excs) {
        IndexAnswers(env, excs, e);
      }
    }
  }

  /** One more exception keeps the list well formed iff it is well formed and its key is new. */
  lemma WellFormedExtend(env: Env, excs: seq<Record>, exc: Record)
    ensures WellFormedList(env, excs + [exc]) <==>
      && WellFormedList(env, excs)
      && WellFormed(env, exc)
      && forall e :: e in excs ==> ExceptionKey(env, e) != ExceptionKey(env, exc)
  {
    var all := excs + [exc];
    assert all[|excs|] == exc;
    assert forall i :: 0 <= i < |excs| ==> all[i] == excs[i];
    if WellFormedList(env, all) {
      forall e | e in excs ensures ExceptionKey(env, e) != ExceptionKey(env, exc) {
        var i :| 0 <= i < |excs| && excs[i] == e;
        assert ExceptionKey(env, all[i]) != ExceptionKey(env, all[|excs|]);
      }
      assert forall i, j :: 0 <= i < j < |excs| ==> ExceptionKey(env, all[i]) != ExceptionKey(env, all[j]);
    }
  }

  /** The keys in `seen` after the first n findings. */
  function Seen(env: Env, findings: seq<Finding>, n: nat): set<Key>
    requires n <= |findings|
  {
    set i | 0 <= i < n && Relevant(env, findings[i]) && Identified(env, findings[i]) :: FindingKey(env, findings[i])
  }

  predicate Accepted(env: Env, index: Index, f: Finding) {
    var key := FindingKey(env, f);
    key in index && Admits(env, index[key], f)
  }

  /** The second loop raises nothing over the first n findings. */
  predicate CleanScan(env: Env, index: Index, findings: seq<Finding>, n: nat)
    requires n <= |findings|
  {
    && (forall i :: 0 <= i < n && Relevant(env, findings[i]) ==> Identified(env, findings[i]))
    && (forall i :: 0 <= i < n && IsFirst(env, findings, i) ==> Accepted(env, index, findings[i]))
  }

  lemma CleanStep(env: Env, index: Index, findings: seq<Finding>, n: nat)
    requires n < |findings|
    ensures CleanScan(env, index, findings, n + 1) <==>
      && CleanScan(env, index, findings, n)
      && (Relevant(env, findings[n]) ==> Identified(env, findings[n]))
      && (IsFirst(env, findings, n) ==> Accepted(env, index, findings[n]))
  {
  }

  /** `key in seen` tells whether the finding is the first with its key. */
  lemma SeenStep(env: Env, findings: seq<Finding>, n: nat)
    requires n < |findings|
    ensures Seen(env, findings, n + 1) == Seen(env, findings, n)
      + if Relevant(env, findings[n]) && Identified(env, findings[n]) then {FindingKey(env, findings[n])} else {}
    ensures Relevant(env, findings[n]) && Identified(env, findings[n]) ==>
      (FindingKey(env, findings[n]) in Seen(env, findings, n) <==> !IsFirst(env, findings, n))
  {
    if Relevant(env, findings[n]) && Identified(env, findings[n]) && !IsFirst(env, findings, n) {
      var j :| 0 <= j < n && Relevant(env, findings[j]) && FindingKey(env, findings[j]) == FindingKey(env, findings[n]);
      assert Identified(env, findings[j]);
    }
  }

  /** One of the first n findings is the finding, and the first with its key. */
  predicate FirstAmong(env: Env, findings: seq<Finding>, n: nat, f: Finding)
    requires n <= |findings|
  {
    exists i :: 0 <= i < n && IsFirst(env, findings, i) && findings[i] == f
  }

  predicate Unknown(env: Env, index: Index, findings: seq<Finding>, n: nat, f: Finding)
    requires n <= |findings|
  {
    FirstAmong(env, findings, n, f) && FindingKey(env, f) !in index
  }

  predicate Outdated(env: Env, index: Index, findings: seq<Finding>, n: nat, x: (Finding, int))
    requires n <= |findings|
  {
    && FirstAmong(env, findings, n, x.0) && FindingKey(env, x.0) in index
    && index[FindingKey(env, x.0)].expiresOn == x.1 && x.1 < env.today
  }

  /** The other errors of the second loop: no advisory, or an exception for another severity. */
  predicate Mistaken(env: Env, index: Index, findings: seq<Finding>, n: nat, p: Problem)
    requires n <= |findings|
  {
    match p
    case NoAdvisory(f) => f in findings[..n] && Relevant(env, f) && !Identified(env, f)
    case SeverityMismatch(f, s) =>
      && FirstAmong(env, findings, n, f) && FindingKey(env, f) in index
      && index[FindingKey(env, f)].severity == s && s != "" && s != NormalizeSeverity(env, f.severity)
    case _ => false
  }

  /** What the second loop says of one finding, given the keys that came before. */
  datatype Verdict = Verdict(error: Option<Problem>, missing: bool, expired: Option<int>)

  /** The finding is the first with its key, the keys that came before being given. */
  predicate FirstAfter(env: Env, f: Finding, seen: set<Key>) {
    Relevant(env, f) && Identified(env, f) && FindingKey(env, f) !in seen
  }

  ghost predicate Judged(env: Env, index: Index, f: Finding, seen: set<Key>, v: Verdict) {
    var key := FindingKey(env, f);
    && (v.missing <==> FirstAfter(env, f, seen) && key !in index)
    && (forall d :: v.expired == Some(d) <==>
      FirstAfter(env, f, seen) && key in index && index[key].expiresOn == d && d < env.today)
    && (forall p :: v.error == Some(p) <==>
      || (Relevant(env, f) && !Identified(env, f) && p == NoAdvisory(f))
      || (FirstAfter(env, f, seen) && Mismatched(env, index, f) && p == SeverityMismatch(f, index[key].severity)))
  }

  predicate Mismatched(env: Env, index: Index, f: Finding) {
    var key := FindingKey(env, f);
    key in index && index[key].severity != "" && index[key].severity != NormalizeSeverity(env, f.severity)
  }

  /** The body of the second loop. */
  method ScanOne(env: Env, index: Index, f: Finding, seen: set<Key>) returns (v: Verdict, seen': set<Key>)
    ensures seen' == seen + if FirstAfter(env, f, seen) then {FindingKey(env, f)} else {}
    ensures Judged(env, index, f, seen, v)
  {
    var sev := NormalizeSeverity(env, f.severity);
    if sev !in {"high", "critical"} || !Truthy(f.name) {
      return Verdict(None, false, None), seen;
    }
    var advisoryKey := NormalizeAdvisory(env, f.advisory);
    if advisoryKey == "" {
      return Verdict(Some(NoAdvisory(f)), false, None), seen;
    }
    var key := (NormalizePackage(f.name), advisoryKey);
    if key in seen {
      return Verdict(None, false, None), seen;
    }
    seen' := seen + {key};
    if key !in index {
      return Verdict(None, true, None), seen';
    }
    var exc := index[key];
    var error := None;
    if exc.severity != "" && exc.severity != sev {
      error := Some(SeverityMismatch(f, exc.severity));
    }
    v := Verdict(error, false, if exc.expiresOn < env.today then Some(exc.expiresOn) else None);
  }

  /** What the second loop has reported after n findings, exactly. */
  ghost predicate Scanned(env: Env, index: Index, findings: seq<Finding>, n: nat, errors: seq<Problem>,
      missing: seq<Finding>, expired: seq<(Finding, int)>)
    requires n <= |findings|
  {
    && (forall p :: p in errors <==> Mistaken(env, index, findings, n, p))
    && (forall f :: f in missing <==> Unknown(env, index, findings, n, f))
    && (forall x :: x in expired <==> Outdated(env, index, findings, n, x))
  }

  /** The second loop of `main`: what it reports, exactly. */
  method Scan(env: Env, index: Index, findings: seq<Finding>)
    returns (errors: seq<Problem>, missing: seq<Finding>, expired: seq<(Finding, int)>)
    ensures errors == [] && missing == [] && expired == [] <==> CleanScan(env, index, findings, |findings|)
    ensures Scanned(env, index, findings, |findings|, errors, missing, expired)
  {
    errors, missing, expired := [], [], [];
    var seen: set<Key> := {};
    for n := 0 to |findings|
      invariant seen == Seen(env, findings, n)
      invariant Scanned(env, index, findings, n, errors, missing, expired)
    {
      SeenStep(env, findings, n);
      var v;
      v, seen := ScanOne(env, index, findings[n], seen);
      ScannedStep(env, index, findings, n, v, errors, missing, expired);
      if v.error.Some? {
        errors := errors + [v.error.value];
      }
      if v.missing {
        missing := missing + [findings[n]];
      }
      if v.expired.Some? {
        expired := expired + [(findings[n], v.expired.value)];
      }
    }
    CleanIsSilent(env, index, findings, errors, missing, expired);
  }

  lemma ScannedStep(env: Env, index: Index, findings: seq<Finding>, n: nat, v: Verdict, errors: seq<Problem>,
      missing: seq<Finding>, expired: seq<(Finding, int)>)
    requires n < |findings| && Judged(env, index, findings[n], Seen(env, findings, n), v)
    requires Scanned(env, index, findings, n, errors, missing, expired)
    ensures Scanned(env, index, findings, n + 1,
      if v.error.Some? then errors + [v.error.value] else errors,
      if v.missing then missing + [findings[n]] else missing,
      if v.expired.Some? then expired + [(findings[n], v.expired.value)] else expired)
  {
    MistakenStep(env, index, findings, n, v, errors);
    MissingStep(env, index, findings, n, v, missing);
    ExpiredStep(env, index, findings, n, v, expired);
  }

  lemma FirstIsFirst(env: Env, findings: seq<Finding>, n: nat)
    requires n < |findings|
    ensures FirstAfter(env, findings[n], Seen(env, findings, n)) <==> IsFirst(env, findings, n)
  {
    SeenStep(env, findings, n);
  }

  lemma MistakenStep(env: Env, index: Index, findings: seq<Finding>, n: nat, v: Verdict, errors: seq<Problem>)
    requires n < |findings| && Judged(env, index, findings[n], Seen(env, findings, n), v)
    requires forall p :: p in errors <==> Mistaken(env, index, findings, n, p)
    ensures var more := if v.error.Some? then errors + [v.error.value] else errors;
            forall p :: p in more <==> Mistaken(env, index, findings, n + 1, p)
  {
    FirstIsFirst(env, findings, n);
    ReportStep(env, index, findings, n);
    forall p ensures Mistaken(env, index, findings, n + 1, p) <==>
      Mistaken(env, index, findings, n, p) || v.error == Some(p) {
    }
  }

  lemma MissingStep(env: Env, index: Index, findings: seq<Finding>, n: nat, v: Verdict, missing: seq<Finding>)
    requires n < |findings| && Judged(env, index, findings[n], Seen(env, findings, n), v)
    requires forall f :: f in missing <==> Unknown(env, index, findings, n, f)
    ensures var more := if v.missing then missing + [findings[n]] else missing;
            forall f :: f in more <==> Unknown(env, index, findings, n + 1, f)
  {
    FirstIsFirst(env, findings, n);
    ReportStep(env, index, findings, n);
  }

  lemma ExpiredStep(env: Env, index: Index, findings: seq<Finding>, n: nat, v: Verdict, expired: seq<(Finding, int)>)
    requires n < |findings| && Judged(env, index, findings[n], Seen(env, findings, n), v)
    requires forall x :: x in expired <==> Outdated(env, index, findings, n, x)
    ensures var more := if v.expired.Some? then expired + [(findings[n], v.expired.value)] else expired;
            forall x :: x in more <==> Outdated(env, index, findings, n + 1, x)
  {
    forall x ensures Outdated(env, index, findings, n + 1, x) <==>
      Outdated(env, index, findings, n, x) || (x.0 == findings[n] && v.expired == Some(x.1))
    {
      OutdatedStep(env, index, findings, n, v, x.0, x.1);
    }
  }

  lemma OutdatedStep(env: Env, index: Index, findings: seq<Finding>, n: nat, v: Verdict, f: Finding, day: int)
    requires n < |findings| && Judged(env, index, findings[n], Seen(env, findings, n), v)
    ensures Outdated(env, index, findings, n + 1, (f, day)) <==>
      Outdated(env, index, findings, n, (f, day)) || (f == findings[n] && v.expired == Some(day))
  {
    FirstIsFirst(env, findings, n);
    ReportStep(env, index, findings, n);
    var key := FindingKey(env, findings[n]);
    assert v.expired == Some(day) <==>
      FirstAfter(env, findings[n], Seen(env, findings, n)) && key in index && index[key].expiresOn == day
        && day < env.today;
  }

  lemma ReportStep(env: Env, index: Index, findings: seq<Finding>, n: nat)
    requires n < |findings|
    ensures forall f :: FirstAmong(env, findings, n + 1, f) <==>
      FirstAmong(env, findings, n, f) || (IsFirst(env, findings, n) && f == findings[n])
    ensures forall f :: f in findings[..n + 1] <==> f in findings[..n] || f == findings[n]
  {
    forall f ensures FirstAmong(env, findings, n + 1, f) <==>
      FirstAmong(env, findings, n, f) || (IsFirst(env, findings, n) && f == findings[n])
    {
      if IsFirst(env, findings, n) && f == findings[n] {
        assert FirstAmong(env, findings, n + 1, f);
      }
    }
    assert findings[..n + 1] == findings[..n] + [findings[n]];
  }

  /** The second loop is silent exactly on clean findings. */
  lemma CleanIsSilent(env: Env, index: Index, findings: seq<Finding>, errors: seq<Problem>, missing: seq<Finding>,
      expired: seq<(Finding, int)>)
    requires forall p :: p in errors <==> Mistaken(env, index, findings, |findings|, p)
    requires forall f :: f in missing <==> Unknown(env, index, findings, |findings|, f)
    requires forall x :: x in expired <==> Outdated(env, index, findings, |findings|, x)
    ensures errors == [] && missing == [] && expired == [] <==> CleanScan(env, index, findings, |findings|)
  {
    var n := |findings|;
    assert findings[..n] == findings;
    if CleanScan(env, index, findings, n) {
      forall p ensures !Mistaken(env, index, findings, n, p) {
        if p.NoAdvisory? && p.finding in findings {
          var i :| 0 <= i < n && findings[i] == p.finding;
        }
      }
      if errors != [] {
        SomeElement(errors);
      }
      if missing != [] {
        SomeElement(missing);
      }
      if expired != [] {
        SomeElement(expired);
      }
      return;
    }
    if errors == [] && missing == [] && expired == [] {
      NotCleanReports(env, index, findings);
    }
  }

  lemma NotCleanReports(env: Env, index: Index, findings: seq<Finding>)
    requires !CleanScan(env, index, findings, |findings|)
    ensures || (exists p :: Mistaken(env, index, findings, |findings|, p))
            || (exists f :: Unknown(env, index, findings, |findings|, f))
            || (exists x :: Outdated(env, index, findings, |findings|, x))
  {
    var n := |findings|;
    assert findings[..n] == findings;
    if i :| 0 <= i < n && Relevant(env, findings[i]) && !Identified(env, findings[i]) {
      assert Mistaken(env, index, findings, n, NoAdvisory(findings[i]));
      return;
    }
    var i :| 0 <= i < n && IsFirst(env, findings, i) && !Accepted(env, index, findings[i]);
    var f := findings[i];
    var key := FindingKey(env, f);
    assert FirstAmong(env, findings, n, f);
    if key !in index {
      assert Unknown(env, index, findings, n, f);
    } else if index[key].expiresOn < env.today {
      assert Outdated(env, index, findings, n, (f, index[key].expiresOn));
    } else {
      assert Mistaken(env, index, findings, n, SeverityMismatch(f, index[key].severity));
    }
  }

  /** What is reported for an exception list and findings: the exceptions that are not well formed or repeat a key;
      and the findings, the first of each key, that have no advisory, no exception, an exception for another
      severity, or an outdated one. */
  predicate Reports(env: Env, excs: seq<Record>, findings: seq<Finding>, p: Problem) {
    var index, n := IndexOf(env, excs), |findings|;
    || RejectedAmong(env, excs, |excs|, p)
    || Mistaken(env, index, findings, n, p)
    || (p.Uncovered? && Unknown(env, index, findings, n, p.finding))
    || (p.Expired? && Outdated(env, index, findings, n, (p.finding, p.expiresOn)))
  }

  /** `main` after its inputs are read. The exit code is 0 exactly when the policy holds, and besides the two headings
      the messages are exactly what is to be reported. */
  method Gate(env: Env, text: string, findings: seq<Finding>) returns (r: Result<(int, seq<Problem>), ParseError>)
    ensures r.Err? <==> ParseText(text).Err?
    ensures r.Ok? ==> r.value.0 == if Policy(env, ParseText(text).value, findings) then 0 else 1
    ensures r.Ok? ==> (r.value.0 == 0 <==> r.value.1 == [])
    ensures r.Ok? ==> forall p: Problem :: !p.Heading? ==>
      (p in r.value.1 <==> Reports(env, ParseText(text).value, findings, p))
  {
    var parsed := ParseExceptions(text);
    if parsed.Err? {
      return Err(parsed.error);
    }
    var excs := parsed.value;
    var index, indexErrors := BuildIndex(env, excs);
    var scanErrors, missing, expired := Scan(env, index, findings);
    var missed := MissingMessages(missing);
    var outdated := ExpiredMessages(expired);
    var errors := indexErrors + scanErrors + missed + outdated;
    ScanDecidesPolicy(env, excs, findings);
    return Ok((if errors != [] then 1 else 0, errors));
  }

  method MissingMessages(missing: seq<Finding>) returns (errors: seq<Problem>)
    ensures errors == [] <==> missing == []
    ensures forall p: Problem :: !p.Heading? ==> (p in errors <==> p.Uncovered? && p.finding in missing)
  {
    errors := [];
    if missing != [] {
      errors := [Heading("High/Critical vulnerabilities missing exceptions:")];
      for i := 0 to |missing|
        invariant errors != []
        invariant forall p: Problem :: !p.Heading? ==> (p in errors <==> p.Uncovered? && p.finding in missing[..i])
      {
        assert missing[..i + 1] == missing[..i] + [missing[i]];
        errors := errors + [Uncovered(missing[i])];
      }
      assert missing[..|missing|] == missing;
    }
  }

  method ExpiredMessages(expired: seq<(Finding, int)>) returns (errors: seq<Problem>)
    ensures errors == [] <==> expired == []
    ensures forall p: Problem :: !p.Heading? ==> (p in errors <==> p.Expired? && (p.finding, p.expiresOn) in expired)
  {
    errors := [];
    if expired != [] {
      errors := [Heading("Exceptions expired:")];
      for i := 0 to |expired|
        invariant errors != []
        invariant forall p: Problem :: !p.Heading? ==>
          (p in errors <==> p.Expired? && (p.finding, p.expiresOn) in expired[..i])
      {
        assert expired[..i + 1] == expired[..i] + [expired[i]];
        errors := errors + [Expired(expired[i].0, expired[i].1)];
      }
      assert expired[..|expired|] == expired;
    }
  }

  /** Looking a key up in the index is the same as asking whether some exception covers the finding. */
  lemma AcceptedIsCovered(env: Env, excs: seq<Record>, f: Finding)
    requires WellFormedList(env, excs)
    ensures Accepted(env, IndexOf(env, excs), f) <==> Covered(env, excs, f)
  {
    if Accepted(env, IndexOf(env, excs), f) {
      IndexedKeys(env, excs, FindingKey(env, f));
      var exc :| exc in excs && ExceptionKey(env, exc) == FindingKey(env, f);
      IndexAnswers(env, excs, exc);
      assert Covers(env, exc, f);
    }
    if exc :| exc in excs && Covers(env, exc, f) {
      IndexAnswers(env, excs, exc);
    }
  }

  lemma ScanDecidesPolicy(env: Env, excs: seq<Record>, findings: seq<Finding>)
    ensures Policy(env, excs, findings) <==>
      WellFormedList(env, excs) && CleanScan(env, IndexOf(env, excs), findings, |findings|)
  {
    if WellFormedList(env, excs) {
      forall i | 0 <= i < |findings|
        ensures Accepted(env, IndexOf(env, excs), findings[i]) <==> Covered(env, excs, findings[i])
      {
        AcceptedIsCovered(env, excs, findings[i]);
      }
      assert forall i :: 0 <= i < |findings| ==> findings[i] in findings;
    }
  }

  // ---------------------------------------------------------------- what the policy guarantees

  /** One exception and one finding, in terms of their texts: the gate passes iff the exception has its five fields, a
      date, a package and an advisory; and the finding is of another severity or has no name, or it has an
      advisory, its package and its advisory, whatever the case, are those of the exception, the exception's severity
      is blank or the finding's, and the exception's last day is today or later. */
  lemma AloneDecides(env: Env, exc: Record, f: Finding)
    ensures Policy(env, [exc], [f]) <==>
      && (forall field :: field in {"package", "advisory", "severity", "mitigation", "expires_on"} ==>
        field in exc && exc[field] != "")
      && var package, advisory := Strip(exc["package"]), env.lower(Strip(exc["advisory"]));
         var severity := env.lower(Strip(if f.severity.Some? then f.severity.value else ""));
         && package != "" && advisory != "" && env.parseDate(exc["expires_on"]).Some?
         && (severity == "high" || severity == "critical" ==>
              || f.name.Null? || f.name == Str("") || (f.name.Number? && f.name.zero)
              || (&& Strip(f.name.text) == package
                  && !f.advisory.Null? && env.lower(Strip(f.advisory.text)) == advisory
                  && env.lower(Strip(exc["severity"])) in {"", severity}
                  && env.today <= env.parseDate(exc["expires_on"]).value))
  {
    PolicyOfOne(env, exc, f);
    CompleteIs(exc);
  }

  lemma CompleteIs(exc: Record)
    ensures Complete(exc) <==> forall field ::
      field in {"package", "advisory", "severity", "mitigation", "expires_on"} ==>
      field in exc && exc[field] != ""
  {
    var fields := {"package", "advisory", "severity", "mitigation", "expires_on"};
    assert forall field :: field in fields <==> field in REQUIRED_FIELDS;
  }

  lemma PolicyOfOne(env: Env, exc: Record, f: Finding)
    ensures Policy(env, [exc], [f]) <==>
      WellFormed(env, exc) && (Relevant(env, f) ==> Identified(env, f) && Covers(env, exc, f))
  {
    assert [exc][0] == exc && [f][0] == f;
    assert WellFormedList(env, [exc]) <==> WellFormed(env, exc);
    assert IsFirst(env, [f], 0) <==> Relevant(env, f) && Identified(env, f);
    assert Covered(env, [exc], f) <==> Covers(env, exc, f) by {
      assert exc in [exc];
    }
  }

  /** Every relevant finding is covered, not only the first with its key. */
  predicate StrictPolicy(env: Env, excs: seq<Record>, findings: seq<Finding>) {
    && WellFormedList(env, excs)
    && forall f :: f in findings && Relevant(env, f) ==> Identified(env, f) && Covered(env, excs, f)
  }

  /** No key is reported with two different severities. */
  predicate OneSeverityPerKey(env: Env, findings: seq<Finding>) {
    forall f, g :: f in findings && g in findings && Relevant(env, f) && Relevant(env, g)
      && FindingKey(env, f) == FindingKey(env, g)
      ==> NormalizeSeverity(env, f.severity) == NormalizeSeverity(env, g.severity)
  }

  lemma StrictImpliesPolicy(env: Env, excs: seq<Record>, findings: seq<Finding>)
    requires StrictPolicy(env, excs, findings)
    ensures Policy(env, excs, findings)
  {
  }

  /** Each relevant finding shares its key with an earlier or equal first one. */
  lemma {:induction false} FirstExists(env: Env, findings: seq<Finding>, n: nat) returns (i: nat)
    requires n < |findings| && Relevant(env, findings[n]) && AllIdentified(env, findings)
    ensures i <= n && IsFirst(env, findings, i) && FindingKey(env, findings[i]) == FindingKey(env, findings[n])
    decreases n
  {
    if IsFirst(env, findings, n) {
      return n;
    }
    assert findings[n] in findings;
    var j :| 0 <= j < n && Relevant(env, findings[j]) && FindingKey(env, findings[j]) == FindingKey(env, findings[n]);
    i := FirstExists(env, findings, j);
  }

  /** With one severity per key, checking the first finding of each key checks them all. */
  lemma PolicyIsStrict(env: Env, excs: seq<Record>, findings: seq<Finding>)
    requires OneSeverityPerKey(env, findings)
    ensures Policy(env, excs, findings) <==> StrictPolicy(env, excs, findings)
  {
    if Policy(env, excs, findings) {
      forall f | f in findings && Relevant(env, f)
        ensures Identified(env, f) && Covered(env, excs, f)
      {
        var n :| 0 <= n < |findings| && findings[n] == f;
        var i := FirstExists(env, findings, n);
        var exc :| exc in excs && Covers(env, exc, findings[i]);
        assert findings[i] in findings;
        assert Covers(env, exc, f);
      }
    }
    if StrictPolicy(env, excs, findings) {
      StrictImpliesPolicy(env, excs, findings);
    }
  }

  predicate Reordering(a: seq<Finding>, b: seq<Finding>) {
    multiset(a) == multiset(b)
  }

  lemma ReorderingMembers(a: seq<Finding>, b: seq<Finding>)
    requires Reordering(a, b)
    ensures forall f :: f in a <==> f in b
  {
    forall f ensures f in a <==> f in b {
      assert f in a <==> f in multiset(a);
      assert f in b <==> f in multiset(b);
    }
  }

  /** The verdict does not depend on the order of the findings when no key has two severities. */
  lemma OrderIndependent(env: Env, excs: seq<Record>, a: seq<Finding>, b: seq<Finding>)
    requires Reordering(a, b) && OneSeverityPerKey(env, a)
    ensures Policy(env, excs, a) <==> Policy(env, excs, b)
  {
    ReorderingMembers(a, b);
    PolicyIsStrict(env, excs, a);
    PolicyIsStrict(env, excs, b);
  }

  lemma {:induction false} MoveToFront(findings: seq<Finding>, n: nat) returns (moved: seq<Finding>)
    requires n < |findings|
    ensures Reordering(findings, moved) && moved != [] && moved[0] == findings[n]
  {
    moved := [findings[n]] + findings[..n] + findings[n + 1..];
    assert findings == findings[..n] + [findings[n]] + findings[n + 1..];
  }

  /** A relevant finding that is not covered, put first, fails the gate. */
  lemma FailingOrder(env: Env, excs: seq<Record>, findings: seq<Finding>) returns (b: seq<Finding>)
    requires !StrictPolicy(env, excs, findings)
    ensures Reordering(findings, b) && !Policy(env, excs, b)
  {
    if !WellFormedList(env, excs) {
      return findings;
    }
    var f :| f in findings && Relevant(env, f) && !(Identified(env, f) && Covered(env, excs, f));
    var n :| 0 <= n < |findings| && findings[n] == f;
    b := MoveToFront(findings, n);
    assert b[0] in b;
    assert Identified(env, f) ==> IsFirst(env, b, 0);
  }

  /** For any findings at all: the gate passes in every order exactly when every relevant finding, not
      only the first with its key, is covered. */
  lemma PassesInEveryOrder(env: Env, excs: seq<Record>, findings: seq<Finding>)
    ensures (forall b :: Reordering(findings, b) ==> Policy(env, excs, b)) <==> StrictPolicy(env, excs, findings)
  {
    if StrictPolicy(env, excs, findings) {
      forall b | Reordering(findings, b) ensures Policy(env, excs, b) {
        ReorderingMembers(findings, b);
        StrictImpliesPolicy(env, excs, b);
      }
    } else {
      var b := FailingOrder(env, excs, findings);
    }
  }

  /** Each relevant finding shares its key with a relevant finding that is covered. */
  predicate EachKeyCoverable(env: Env, excs: seq<Record>, findings: seq<Finding>) {
    && WellFormedList(env, excs)
    && AllIdentified(env, findings)
    && forall f :: f in findings && Relevant(env, f) ==> Coverable(env, excs, findings, f)
  }

  predicate Coverable(env: Env, excs: seq<Record>, findings: seq<Finding>, f: Finding) {
    exists g :: g in findings && Relevant(env, g) && FindingKey(env, g) == FindingKey(env, f) && Covered(env, excs, g)
  }

  function IsCovered(env: Env, excs: seq<Record>): Finding -> bool {
    (f: Finding) => Covered(env, excs, f)
  }

  /** The covered findings, in order, and then the others. */
  function CoveredFirst(env: Env, excs: seq<Record>, findings: seq<Finding>): seq<Finding> {
    Filter(findings, IsCovered(env, excs)) + Filter(findings, Not(IsCovered(env, excs)))
  }

  /** With the covered findings first, the first finding of every key is covered, if any is. */
  lemma CoveredFirstPasses(env: Env, excs: seq<Record>, findings: seq<Finding>)
    requires EachKeyCoverable(env, excs, findings)
    ensures var order := CoveredFirst(env, excs, findings); Reordering(findings, order) && Policy(env, excs, order)
  {
    var yes, order := Filter(findings, IsCovered(env, excs)), CoveredFirst(env, excs, findings);
    FilterSplits(findings, IsCovered(env, excs));
    FilterMembers(findings, IsCovered(env, excs));
    ReorderingMembers(findings, order);
    forall i | 0 <= i < |order| && IsFirst(env, order, i) ensures Covered(env, excs, order[i]) {
      if i >= |yes| {
        assert order[i] in order;
        NotFirst(env, excs, findings, yes, order, i);
      } else {
        assert order[i] in yes;
      }
    }
  }

  /** A finding behind all the covered ones is not the first with its key. */
  lemma NotFirst(env: Env, excs: seq<Record>, findings: seq<Finding>, yes: seq<Finding>, order: seq<Finding>, i: nat)
    requires yes <= order && |yes| <= i < |order| && Coverable(env, excs, findings, order[i])
    requires forall f :: f in findings && Covered(env, excs, f) ==> f in yes
    ensures !IsFirst(env, order, i)
  {
    var g :| g in findings && Relevant(env, g) && FindingKey(env, g) == FindingKey(env, order[i])
      && Covered(env, excs, g);
    var j :| 0 <= j < |yes| && yes[j] == g;
    assert order[j] == g;
  }

  /** A passing order covers the first finding of every key. */
  lemma PassingIsCoverable(env: Env, excs: seq<Record>, findings: seq<Finding>, b: seq<Finding>)
    requires Reordering(findings, b) && Policy(env, excs, b)
    ensures EachKeyCoverable(env, excs, findings)
  {
    ReorderingMembers(findings, b);
    forall f | f in findings && Relevant(env, f) ensures Coverable(env, excs, findings, f) {
      var n :| 0 <= n < |b| && b[n] == f;
      var i := FirstExists(env, b, n);
      assert b[i] in b;
    }
  }

  /** For any findings at all: some order passes exactly when each relevant finding shares its key with one
      that is covered. */
  lemma PassesInSomeOrder(env: Env, excs: seq<Record>, findings: seq<Finding>)
    ensures (exists b :: Reordering(findings, b) && Policy(env, excs, b)) <==> EachKeyCoverable(env, excs, findings)
  {
    if EachKeyCoverable(env, excs, findings) {
      CoveredFirstPasses(env, excs, findings);
    }
    if b :| Reordering(findings, b) && Policy(env, excs, b) {
      PassingIsCoverable(env, excs, findings, b);
    }
  }

  /** For any findings at all: the verdict is the same in every order exactly when every relevant finding is
      covered or no order passes. */
  lemma OrderIsIrrelevant(env: Env, excs: seq<Record>, findings: seq<Finding>)
    ensures (forall b :: Reordering(findings, b) ==> (Policy(env, excs, b) <==> Policy(env, excs, findings))) <==>
      StrictPolicy(env, excs, findings) || !EachKeyCoverable(env, excs, findings)
  {
    PassesInEveryOrder(env, excs, findings);
    PassesInSomeOrder(env, excs, findings);
    assert Reordering(findings, findings);
    if !StrictPolicy(env, excs, findings) && EachKeyCoverable(env, excs, findings) {
      var good :| Reordering(findings, good) && Policy(env, excs, good);
      var bad :| Reordering(findings, bad) && !Policy(env, excs, bad);
    }
  }

  /** Two severities under one key make the order matter: with an exception for "high" the finding that
      comes first decides. */
  lemma OrderMatters(env: Env, exc: Record, high: Finding, critical: Finding)
    requires WellFormed(env, exc)
    requires Relevant(env, high) && NormalizeSeverity(env, high.severity) == "high"
    requires Relevant(env, critical) && NormalizeSeverity(env, critical.severity) == "critical"
    requires FindingKey(env, high) == FindingKey(env, critical) == ExceptionKey(env, exc)
    requires EntryOf(env, exc).severity == "high" && env.today <= EntryOf(env, exc).expiresOn
    ensures Policy(env, [exc], [high, critical])
    ensures !Policy(env, [exc], [critical, high])
  {
    assert Covers(env, exc, high);
    assert exc in [exc];
    var good := [high, critical];
    assert good[0] == high && good[1] == critical;
    assert !IsFirst(env, good, 1);
    var bad := [critical, high];
    assert bad[0] == critical && IsFirst(env, bad, 0);
    assert !Covered(env, [exc], critical);
  }

  /** Time never repairs a failed gate. */
  lemma LaterTodayNeverRepairs(env: Env, later: int, excs: seq<Record>, findings: seq<Finding>)
    requires env.today <= later
    requires Policy(env.(today := later), excs, findings)
    ensures Policy(env, excs, findings)
  {
    var env' := env.(today := later);
    forall i | 0 <= i < |findings| && IsFirst(env, findings, i)
      ensures Covered(env, excs, findings[i])
    {
      assert IsFirst(env', findings, i);
      var exc :| exc in excs && Covers(env', exc, findings[i]);
      assert Covers(env, exc, findings[i]);
    }
    assert forall exc :: WellFormed(env, exc) <==> WellFormed(env', exc);
    assert forall exc :: ExceptionKey(env, exc) == ExceptionKey(env', exc);
  }

  /** The list stays well formed. */
  lemma FreshStaysWellFormed(env: Env, before: seq<Record>, exc: Record, after: seq<Record>)
    requires WellFormedList(env, before + after) && WellFormed(env, exc)
    requires forall e :: e in before + after ==> ExceptionKey(env, e) != ExceptionKey(env, exc)
    ensures WellFormedList(env, before + [exc] + after)
  {
    var others := before + after;
    var all := before + [exc] + after;
    var at := i => if i < |before| then i else i - 1;
    assert forall i :: 0 <= i < |all| && i != |before| ==> all[i] == others[at(i)] && others[at(i)] in others;
    assert all[|before|] == exc;
    forall i, j | 0 <= i < j < |all| ensures ExceptionKey(env, all[i]) != ExceptionKey(env, all[j]) {
      if i != |before| && j != |before| {
        assert at(i) < at(j);
      }
    }
  }

  /** A well-formed exception with a fresh key, put anywhere in the file, never breaks a passing gate. */
  lemma FreshExceptionNeverBreaks(env: Env, before: seq<Record>, exc: Record, after: seq<Record>,
      findings: seq<Finding>)
    requires Policy(env, before + after, findings)
    requires WellFormed(env, exc)
    requires forall e :: e in before + after ==> ExceptionKey(env, e) != ExceptionKey(env, exc)
    ensures Policy(env, before + [exc] + after, findings)
  {
    FreshStaysWellFormed(env, before, exc, after);
    forall i | 0 <= i < |findings| && IsFirst(env, findings, i)
      ensures Covered(env, before + [exc] + after, findings[i]) {
      var e :| e in before + after && Covers(env, e, findings[i]);
      assert e in before + [exc] + after;
    }
  }
}
