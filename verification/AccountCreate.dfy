/** `AccountCreate.defaults` and `AccountCreate.check`: filling in missing fields, and the test that a
    builder must pass before its row is written. */
module AccountCreate {
  import opened Wrappers

  /** The fields that `defaults` or `check` look at; the remaining columns are `Other`. */
  datatype Field =
    | CreatedAt | UpdatedAt | Name | Platform | Type | Credentials | Extra
    | Concurrency | Priority | RateMultiplier | Status | AutoPauseOnExpired | Schedulable
    | SessionWindowStatus | QuotaDimension
    | Other(column: string)

  /** A mutation: the fields that have been set. Values are kept as text. */
  type Fields = map<Field, string>

  /** The variables of package `account`: the default of each field (absent for a nil default function)
      and the validators. */
  datatype Config = Config(defaults: map<Field, string>, valid: (Field, string) -> bool) {
    /** The defaults that are constants are always there. */
    ghost predicate ConstantsDefined() {
      forall f :: f in DEFAULTED && f !in MAY_BE_NIL ==> f in defaults
    }
  }

  datatype Error = UninitializedDefault(f: Field) | MissingField(f: Field) | ValidatorFailed(f: Field)

  /** The fields with a default, in the order in which `defaults` visits them. */
  const DEFAULTED: seq<Field> := [
    CreatedAt, UpdatedAt, Credentials, Extra, Concurrency, Priority, RateMultiplier, Status,
    AutoPauseOnExpired, Schedulable, QuotaDimension]

  /** The defaults that are functions, nil until the runtime package is imported. */
  const MAY_BE_NIL: set<Field> := {CreatedAt, UpdatedAt, Credentials, Extra}

  datatype Test = Need(f: Field) | Valid(f: Field)

  /** The tests of `check`, in order. */
  const TESTS: seq<Test> := [
    Need(CreatedAt), Need(UpdatedAt), Need(Name), Valid(Name), Need(Platform), Valid(Platform),
    Need(Type), Valid(Type), Need(Credentials), Need(Extra), Need(Concurrency), Need(Priority),
    Need(RateMultiplier), Need(Status), Valid(Status), Need(AutoPauseOnExpired), Need(Schedulable),
    Valid(SessionWindowStatus), Need(QuotaDimension), Valid(QuotaDimension)]

  /** The fields after `defaults`, and the error if it stopped early. What was set before the error stays. */
  function DefaultsFrom(cfg: Config, fields: Fields, order: seq<Field>): (Fields, Option<Error>)
    decreases |order|, cfg
  {
    if order == [] then (fields, None)
    else if order[0] in fields then DefaultsFrom(cfg, fields, order[1..])
    else if order[0] !in cfg.defaults then (fields, Some(UninitializedDefault(order[0])))
    else DefaultsFrom(cfg, fields[order[0] := cfg.defaults[order[0]]], order[1..])
  }

  function Defaults(cfg: Config, fields: Fields): (Fields, Option<Error>) {
    DefaultsFrom(cfg, fields, DEFAULTED)
  }

  function Fails(cfg: Config, fields: Fields, t: Test): Option<Error> {
    match t
    case Need(f) => if f in fields then None else Some(MissingField(f))
    case Valid(f) => if f in fields && !cfg.valid(f, fields[f]) then Some(ValidatorFailed(f)) else None
  }

  /** The first failing test, if any. */
  function CheckFrom(cfg: Config, fields: Fields, tests: seq<Test>): Option<Error>
    decreases |tests|, fields
  {
    if tests == [] then None
    else if Fails(cfg, fields, tests[0]).Some? then Fails(cfg, fields, tests[0])
    else CheckFrom(cfg, fields, tests[1..])
  }

  function Check(cfg: Config, fields: Fields): Option<Error> {
    CheckFrom(cfg, fields, TESTS)
  }

  /** The create builder: `defaults` writes into its mutation, `check` only reads it. */
  class AccountCreateBuilder {
    var fields: Fields

    constructor (fields: Fields)
      ensures this.fields == fields
    {
      this.fields := fields;
    }

    method ApplyDefaults(cfg: Config) returns (err: Option<Error>)
      modifies this
      ensures (fields, err) == Defaults(cfg, old(fields))
    {
      for i := 0 to |DEFAULTED|
        invariant Defaults(cfg, old(fields)) == DefaultsFrom(cfg, fields, DEFAULTED[i..])
      {
        var f := DEFAULTED[i];
        assert DEFAULTED[i..][1..] == DEFAULTED[i + 1..];
        if f !in fields {
          if f !in cfg.defaults {
            return Some(UninitializedDefault(f));
          }
          fields := fields[f := cfg.defaults[f]];
        }
      }
      return None;
    }

    method RunChecks(cfg: Config) returns (err: Option<Error>)
      ensures err == Check(cfg, fields)
      ensures err.None? ==> Writable(cfg, fields)
      ensures err.Some? ==> Reported(cfg, fields, err.value) && FineBefore(cfg, fields, err.value.f)
    {
      err := RunTests(cfg, TESTS);
      CheckIsWritable(cfg, fields);
      if err.Some? {
        FirstProblemDecides(cfg, fields, err.value);
      }
    }

    method RunTests(cfg: Config, tests: seq<Test>) returns (err: Option<Error>)
      ensures err == CheckFrom(cfg, fields, tests)
    {
      for i := 0 to |tests|
        invariant CheckFrom(cfg, fields, tests) == CheckFrom(cfg, fields, tests[i..])
      {
        assert tests[i..][1..] == tests[i + 1..];
        err := Fails(cfg, fields, tests[i]);
        if err.Some? {
          return;
        }
      }
      return None;
    }
  }

  // ---------------------------------------------------------------- properties

  lemma {:induction false} CheckFromPasses(cfg: Config, fields: Fields, tests: seq<Test>)
    ensures CheckFrom(cfg, fields, tests).None? <==> forall t :: t in tests ==> Fails(cfg, fields, t).None?
    ensures CheckFrom(cfg, fields, tests).Some? ==>
      exists t :: t in tests && CheckFrom(cfg, fields, tests) == Fails(cfg, fields, t)
  {
    if tests != [] {
      CheckFromPasses(cfg, fields, tests[1..]);
      assert forall t :: t in tests <==> t == tests[0] || t in tests[1..];
    }
  }

  /** What passing `check` means, as a condition on the fields: everything required is there and everything
      validated is valid; the only validated field that may be absent is session_window_status. */
  ghost predicate Writable(cfg: Config, fields: Fields) {
    && (forall f :: f in DEFAULTED || f in {Name, Platform, Type} ==> f in fields)
    && (forall f :: f in {Name, Platform, Type, Status, QuotaDimension, SessionWindowStatus} && f in fields ==>
      cfg.valid(f, fields[f]))
  }

  lemma CheckedIsWritable(cfg: Config, fields: Fields)
    requires Check(cfg, fields).None?
    ensures Writable(cfg, fields)
  {
    CheckFromPasses(cfg, fields, TESTS);
    forall f | f in DEFAULTED || f in {Name, Platform, Type} ensures f in fields {
      assert Need(f) in TESTS;
      assert Fails(cfg, fields, Need(f)).None?;
    }
    forall f | f in {Name, Platform, Type, Status, QuotaDimension, SessionWindowStatus} && f in fields
      ensures cfg.valid(f, fields[f])
    {
      assert Valid(f) in TESTS;
      assert Fails(cfg, fields, Valid(f)).None?;
    }
  }

  /** Every test of the list asks for a required field or validates a validated one. */
  lemma TestsCovered(t: Test)
    requires t in TESTS
    ensures t.Need? ==> t.f in DEFAULTED || t.f in {Name, Platform, Type}
    ensures t.Valid? ==> t.f in {Name, Platform, Type, Status, QuotaDimension, SessionWindowStatus}
  {
  }

  lemma CheckIsWritable(cfg: Config, fields: Fields)
    ensures Check(cfg, fields).None? <==> Writable(cfg, fields)
  {
    if Check(cfg, fields).None? {
      CheckedIsWritable(cfg, fields);
    }
    if Writable(cfg, fields) {
      forall t | t in TESTS ensures Fails(cfg, fields, t).None? {
        TestsCovered(t);
      }
      CheckFromPasses(cfg, fields, TESTS);
    }
  }

  /** `defaults` never overwrites a field, sets only fields of its list, and without an error sets them all;
      with an error it has stopped at a missing field that has no default. */
  lemma {:induction false} DefaultsFill(cfg: Config, fields: Fields, order: seq<Field>)
    ensures var (after, err) := DefaultsFrom(cfg, fields, order);
            && (forall f :: f in fields ==> f in after && after[f] == fields[f])
            && (forall f :: f in after && f !in fields ==>
              f in order && f in cfg.defaults && after[f] == cfg.defaults[f])
            && (err.None? ==> forall f :: f in order ==> f in after)
            && (err.Some? ==> exists f ::
              f in order && err.value == UninitializedDefault(f) && f !in after && f !in cfg.defaults)
    decreases |order|
  {
    if order != [] {
      var f := order[0];
      assert forall g :: g in order <==> g == f || g in order[1..];
      if f in fields {
        DefaultsFill(cfg, fields, order[1..]);
      } else if f in cfg.defaults {
        DefaultsFill(cfg, fields[f := cfg.defaults[f]], order[1..]);
      }
    }
  }

  /** Bulk create may drop the error of `defaults`: whenever it fails, `check` on the same fields fails too.
      With the constants defined, it can only fail at one of the four function defaults. */
  lemma CheckCatchesDefaults(cfg: Config, fields: Fields)
    requires Defaults(cfg, fields).1.Some?
    ensures Check(cfg, Defaults(cfg, fields).0).Some?
    ensures cfg.ConstantsDefined() ==> Defaults(cfg, fields).1.value.f in MAY_BE_NIL
  {
    DefaultsFill(cfg, fields, DEFAULTED);
    CheckIsWritable(cfg, Defaults(cfg, fields).0);
  }

  /** After a successful `defaults` the only fields `check` can still report missing are name, platform
      and type. */
  lemma OnlyThreeCanBeMissing(cfg: Config, fields: Fields)
    requires Defaults(cfg, fields).1.None?
    ensures var err := Check(cfg, Defaults(cfg, fields).0);
            err.Some? && err.value.MissingField? ==> err.value.f in {Name, Platform, Type}
  {
    var after := Defaults(cfg, fields).0;
    assert forall f :: f in DEFAULTED ==> f in after by { DefaultsFill(cfg, fields, DEFAULTED); }
    CheckFromPasses(cfg, after, TESTS);
    var err := Check(cfg, after);
    if err.Some? && err.value.MissingField? {
      var t :| t in TESTS && err == Fails(cfg, after, t);
      TestsCovered(t);
    }
  }

  // ---------------------------------------------------------------- the first problem decides

  /** The fields that `check` looks at, in the order in which the schema declares them. */
  const DECLARED: seq<Field> := [
    CreatedAt, UpdatedAt, Name, Platform, Type, Credentials, Extra, Concurrency, Priority, RateMultiplier, Status,
    AutoPauseOnExpired, Schedulable, SessionWindowStatus, QuotaDimension]

  predicate Required(f: Field) {
    !f.Other? && f != SessionWindowStatus
  }

  predicate Validated(f: Field) {
    f in {Name, Platform, Type, Status, SessionWindowStatus, QuotaDimension}
  }

  predicate Fine(cfg: Config, fields: Fields, f: Field) {
    (Required(f) ==> f in fields) && (Validated(f) && f in fields ==> cfg.valid(f, fields[f]))
  }

  predicate AllFine(cfg: Config, fields: Fields, order: seq<Field>) {
    forall j :: 0 <= j < |order| ==> Fine(cfg, fields, order[j])
  }

  /** Every field declared before f is there, if required, and valid, if validated. */
  predicate FineBefore(cfg: Config, fields: Fields, f: Field) {
    exists i :: 0 <= i < |DECLARED| && DECLARED[i] == f && AllFine(cfg, fields, DECLARED[..i])
  }

  /** The error says what is wrong with its field. */
  predicate Reported(cfg: Config, fields: Fields, err: Error) {
    match err
    case MissingField(f) => Required(f) && f !in fields
    case ValidatorFailed(f) => Validated(f) && f in fields && !cfg.valid(f, fields[f])
    case UninitializedDefault(_) => false
  }

  /** From position t on come the tests for f, whether it is there and then whether it is valid; from t' on the tests
      for the fields after it. */
  predicate TestsAt(tests: seq<Test>, t: nat, t': nat, f: Field) {
    && t <= t' <= |tests|
    && t' == t + (if Required(f) then 1 else 0) + (if Validated(f) then 1 else 0)
    && (Required(f) ==> tests[t] == Need(f))
    && (Validated(f) ==> tests[t' - 1] == Valid(f))
  }

  /** `at` tells where in the list of tests those for each field are. */
  predicate Aligned(order: seq<Field>, tests: seq<Test>, at: seq<nat>) {
    && |at| == |order| + 1 && at[0] == 0 && (forall i :: 0 <= i < |at| ==> at[i] <= |tests|) && at[|order|] == |tests|
    && forall i :: 0 <= i < |order| ==> TestsAt(tests, at[i], at[i + 1], order[i])
  }

  const AT: seq<nat> := [0, 1, 2, 4, 6, 8, 9, 10, 11, 12, 13, 15, 16, 17, 18, 20]

  lemma DeclaredAligned()
    ensures Aligned(DECLARED, TESTS, AT)
  {
    forall i | 0 <= i < |DECLARED| ensures TestsAt(TESTS, AT[i], AT[i + 1], DECLARED[i]) {
      if i < 5 {
        FirstAligned(i);
      } else if i < 10 {
        SecondAligned(i);
      } else {
        ThirdAligned(i);
      }
    }
  }

  lemma FirstAligned(i: nat)
    requires i < 5
    ensures TestsAt(TESTS, AT[i], AT[i + 1], DECLARED[i])
  {
  }

  lemma SecondAligned(i: nat)
    requires 5 <= i < 10
    ensures TestsAt(TESTS, AT[i], AT[i + 1], DECLARED[i])
  {
  }

  lemma ThirdAligned(i: nat)
    requires 10 <= i < 15
    ensures TestsAt(TESTS, AT[i], AT[i + 1], DECLARED[i])
  {
  }

  /** The tests for one field pass, and the rest decide; or one of them fails and decides. */
  lemma FieldDecides(cfg: Config, fields: Fields, tests: seq<Test>, t: nat, t': nat, f: Field)
    requires TestsAt(tests, t, t', f)
    ensures CheckFrom(cfg, fields, tests[t..]) ==
      if Required(f) && f !in fields then Some(MissingField(f))
      else if Validated(f) && f in fields && !cfg.valid(f, fields[f]) then Some(ValidatorFailed(f))
      else CheckFrom(cfg, fields, tests[t'..])
  {
    if t < t' {
      assert tests[t..][1..] == tests[t + 1..];
      if t + 1 < t' {
        assert tests[t + 1..][1..] == tests[t'..];
      }
    }
  }

  lemma {:induction false} FirstIn(cfg: Config, fields: Fields, order: seq<Field>, tests: seq<Test>, at: seq<nat>,
      i: nat)
    returns (k: nat)
    requires Aligned(order, tests, at) && i <= |order| && AllFine(cfg, fields, order[..i])
    ensures var err := CheckFrom(cfg, fields, tests[at[i]..]);
            && (err.None? ==> AllFine(cfg, fields, order))
            && (err.Some? ==> k < |order| && order[k] == err.value.f && AllFine(cfg, fields, order[..k]))
            && (err.Some? ==> Reported(cfg, fields, err.value))
    decreases |order| - i
  {
    if i == |order| {
      assert order[..i] == order;
      return i;
    }
    FieldDecides(cfg, fields, tests, at[i], at[i + 1], order[i]);
    if !Fine(cfg, fields, order[i]) {
      return i;
    }
    assert order[..i + 1] == order[..i] + [order[i]];
    k := FirstIn(cfg, fields, order, tests, at, i + 1);
  }

  lemma FineAt(cfg: Config, fields: Fields, order: seq<Field>, n: nat, i: nat)
    requires i < n <= |order| && AllFine(cfg, fields, order[..n])
    ensures Fine(cfg, fields, order[i])
  {
    assert order[..n][i] == order[i];
  }

  /** At most one field is the first that is not fine. */
  lemma OneFirst(cfg: Config, fields: Fields, order: seq<Field>, i: nat, k: nat)
    requires i < |order| && k < |order|
    requires AllFine(cfg, fields, order[..i]) && !Fine(cfg, fields, order[i])
    requires AllFine(cfg, fields, order[..k]) && !Fine(cfg, fields, order[k])
    ensures i == k
  {
    if i < k {
      FineAt(cfg, fields, order, k, i);
    }
    if k < i {
      FineAt(cfg, fields, order, i, k);
    }
  }

  /** `check` reports the first problem in the declared order, and names its field: it reports an error iff the field
      of the error has that problem and every field declared before is fine. */
  lemma FirstProblemDecides(cfg: Config, fields: Fields, err: Error)
    ensures Check(cfg, fields) == Some(err) <==> Reported(cfg, fields, err) && FineBefore(cfg, fields, err.f)
  {
    var k := FirstDeclared(cfg, fields);
    if Reported(cfg, fields, err) && FineBefore(cfg, fields, err.f) {
      var i: nat :| i < |DECLARED| && DECLARED[i] == err.f && AllFine(cfg, fields, DECLARED[..i]);
      SomeProblem(cfg, fields, i);
      OneFirst(cfg, fields, DECLARED, i, k);
    }
  }

  lemma FirstDeclared(cfg: Config, fields: Fields) returns (k: nat)
    ensures var err := Check(cfg, fields);
            && (err.None? ==> AllFine(cfg, fields, DECLARED))
            && (err.Some? ==> k < |DECLARED| && DECLARED[k] == err.value.f && AllFine(cfg, fields, DECLARED[..k]))
            && (err.Some? ==> Reported(cfg, fields, err.value))
  {
    DeclaredAligned();
    assert TESTS[AT[0]..] == TESTS;
    assert DECLARED[..0] == [];
    k := FirstIn(cfg, fields, DECLARED, TESTS, AT, 0);
  }

  lemma SomeProblem(cfg: Config, fields: Fields, i: nat)
    requires i < |DECLARED| && !Fine(cfg, fields, DECLARED[i])
    ensures Check(cfg, fields).Some?
  {
    var k := FirstDeclared(cfg, fields);
  }

  /** When `defaults` stops at a field, it has filled what comes before that field in the list and nothing else. */
  lemma {:induction false} DefaultsStop(cfg: Config, fields: Fields, order: seq<Field>) returns (i: nat)
    requires DefaultsFrom(cfg, fields, order).1.Some?
    ensures var (after, err) := DefaultsFrom(cfg, fields, order);
            && i < |order| && err.value == UninitializedDefault(order[i])
            && order[i] !in fields && order[i] !in cfg.defaults
            && (forall j :: 0 <= j < i ==> order[j] in after)
            && (forall f :: f in after && f !in fields ==> f in order[..i])
    decreases |order|
  {
    var f := order[0];
    if f !in fields && f !in cfg.defaults {
      return 0;
    }
    var k := DefaultsStop(cfg, if f in fields then fields else fields[f := cfg.defaults[f]], order[1..]);
    i := k + 1;
    DefaultsFill(cfg, if f in fields then fields else fields[f := cfg.defaults[f]], order[1..]);
    assert order[..i] == [f] + order[1..][..k];
    assert forall j :: 1 <= j < i ==> order[j] == order[1..][j - 1];
  }

  lemma NotDefaulted()
    ensures Status in DEFAULTED && QuotaDimension in DEFAULTED
    ensures Name !in DEFAULTED && Platform !in DEFAULTED && Type !in DEFAULTED && SessionWindowStatus !in DEFAULTED
  {
    assert DEFAULTED[7] == Status && DEFAULTED[10] == QuotaDimension;
  }

  /** `defaults` followed by `check` succeeds exactly when every missing default is available, the three
      fields without default are set, and all validated values, given or default, are valid. */
  lemma AcceptedExactlyWhen(cfg: Config, fields: Fields)
    ensures Check(cfg, Defaults(cfg, fields).0).None? <==>
      && (forall f :: f in DEFAULTED ==> f in fields || f in cfg.defaults)
      && (forall f :: f in {Name, Platform, Type} ==> f in fields)
      && (forall f :: f in {Name, Platform, Type, SessionWindowStatus} && f in fields ==> cfg.valid(f, fields[f]))
      && (forall f :: f in {Status, QuotaDimension} ==>
        cfg.valid(f, if f in fields then fields[f] else cfg.defaults[f]))
  {
    var (after, err) := Defaults(cfg, fields);
    DefaultsFill(cfg, fields, DEFAULTED);
    CheckIsWritable(cfg, after);
    NotDefaulted();
  }
}
