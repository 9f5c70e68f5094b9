/** `scanValues` and `assignValues` of the account entity: the typed slots that a result row is scanned
    into, and the copying of the slots into the entity. */
module AccountCodec {
  import opened Wrappers

  datatype Field =
    | ID | CreatedAt | UpdatedAt | DeletedAt | Name | Notes | Platform | Type | Credentials | Extra
    | ProxyID | ProxyFallbackOriginID | Concurrency | LoadFactor | Priority | RateMultiplier | Status
    | ErrorMessage | LastUsedAt | ExpiresAt | AutoPauseOnExpired | Schedulable | RateLimitedAt
    | RateLimitResetAt | OverloadUntil | TempUnschedulableUntil | TempUnschedulableReason
    | SessionWindowStart | SessionWindowEnd | SessionWindowStatus | ParentAccountID | QuotaDimension

  /** A result column: one of the fields, or a name that a modifier has added to the query. */
  datatype Column = Known(field: Field) | Named(name: string)

  /** A decoded JSON object; its members are kept as text. */
  type Json = map<string, string>

  /** What a slot points to. `valid` is false for NULL. */
  datatype Slot =
    | Bytes(data: string)
    | NullBool(valid: bool, flag: bool)
    | NullFloat64(valid: bool, float: real)
    | NullInt64(valid: bool, number: int)
    | NullString(valid: bool, text: string)
    | NullTime(valid: bool, time: int)
    | UnknownType(any: string)

  /** The value of a field of the entity. `Null` is a nil pointer or a nil map. */
  datatype Value = Bool(flag: bool) | Float(float: real) | Int(number: int) | Text(text: string) | Time(time: int)
      | Object(json: Json) | Null

  /** The declared types of the fields. A nullable field is a pointer; a JSON field is a map. */
  datatype FieldType = BoolField | FloatField | IntField(nullable: bool) | TextField(nullable: bool)
      | TimeField(nullable: bool) | JsonField

  datatype Error = LengthMismatch | UnexpectedType(f: Field) | Unmarshal(f: Field)

  /** The JSON library. `unmarshal` gets the text and the map that is there, and gives the map afterwards, or
      None if the text is not a JSON object or null. */
  datatype Codec = Codec(marshal: Json -> string, unmarshal: (string, Option<Json>) -> Option<Option<Json>>) {
    /** Reading back what was written gives the same object, into a nil map or into the object itself. */
    ghost predicate RoundTrips() {
      forall j :: marshal(j) != "" && unmarshal(marshal(j), None) == Some(Some(j))
        && unmarshal(marshal(j), Some(j)) == Some(Some(j))
    }
  }

  function TypeOf(f: Field): FieldType {
    match f
    case ID | Concurrency | Priority => IntField(false)
    case ProxyID | ProxyFallbackOriginID | LoadFactor | ParentAccountID => IntField(true)
    case CreatedAt | UpdatedAt => TimeField(false)
    case DeletedAt | LastUsedAt | ExpiresAt | RateLimitedAt | RateLimitResetAt | OverloadUntil | TempUnschedulableUntil
      | SessionWindowStart | SessionWindowEnd => TimeField(true)
    case Name | Platform | Type | Status | QuotaDimension => TextField(false)
    case Notes | ErrorMessage | TempUnschedulableReason | SessionWindowStatus => TextField(true)
    case Credentials | Extra => JsonField
    case RateMultiplier => FloatField
    case AutoPauseOnExpired | Schedulable => BoolField
  }

  predicate HasType(v: Value, t: FieldType) {
    match t
    case BoolField => v.Bool?
    case FloatField => v.Float?
    case IntField(nullable) => v.Int? || (nullable && v.Null?)
    case TextField(nullable) => v.Text? || (nullable && v.Null?)
    case TimeField(nullable) => v.Time? || (nullable && v.Null?)
    case JsonField => v.Object? || v.Null?
  }

  function ToTime(v: Value): Option<int> {
    if v.Time? then Some(v.time) else None
  }

  function ToNumber(v: Value): Option<int> {
    if v.Int? then Some(v.number) else None
  }

  function ToText(v: Value): Option<string> {
    if v.Text? then Some(v.text) else None
  }

  function ToMap(v: Value): Option<Json> {
    if v.Object? then Some(v.json) else None
  }

  function Or<T>(o: Option<T>, zero: T): T {
    if o.Some? then o.value else zero
  }

  /** The fields of the entity. Pointers are optional values. */
  datatype Row = Row(
    id: int,
    createdAt: int,
    updatedAt: int,
    deletedAt: Option<int>,
    name: string,
    notes: Option<string>,
    platform: string,
    kind: string,
    credentials: Option<Json>,
    extra: Option<Json>,
    proxyID: Option<int>,
    proxyFallbackOriginID: Option<int>,
    concurrency: int,
    loadFactor: Option<int>,
    priority: int,
    rateMultiplier: real,
    status: string,
    errorMessage: Option<string>,
    lastUsedAt: Option<int>,
    expiresAt: Option<int>,
    autoPauseOnExpired: bool,
    schedulable: bool,
    rateLimitedAt: Option<int>,
    rateLimitResetAt: Option<int>,
    overloadUntil: Option<int>,
    tempUnschedulableUntil: Option<int>,
    tempUnschedulableReason: Option<string>,
    sessionWindowStart: Option<int>,
    sessionWindowEnd: Option<int>,
    sessionWindowStatus: Option<string>,
    parentAccountID: Option<int>,
    quotaDimension: string)
  {
    function Get(f: Field): Value {
      match f
      case ID => Int(id)
      case CreatedAt => Time(createdAt)
      case UpdatedAt => Time(updatedAt)
      case DeletedAt => if deletedAt.Some? then Time(deletedAt.value) else Null
      case Name => Text(name)
      case Notes => if notes.Some? then Text(notes.value) else Null
      case Platform => Text(platform)
      case Type => Text(kind)
      case Credentials => if credentials.Some? then Object(credentials.value) else Null
      case Extra => if extra.Some? then Object(extra.value) else Null
      case ProxyID => if proxyID.Some? then Int(proxyID.value) else Null
      case ProxyFallbackOriginID => if proxyFallbackOriginID.Some? then Int(proxyFallbackOriginID.value) else Null
      case Concurrency => Int(concurrency)
      case LoadFactor => if loadFactor.Some? then Int(loadFactor.value) else Null
      case Priority => Int(priority)
      case RateMultiplier => Float(rateMultiplier)
      case Status => Text(status)
      case ErrorMessage => if errorMessage.Some? then Text(errorMessage.value) else Null
      case LastUsedAt => if lastUsedAt.Some? then Time(lastUsedAt.value) else Null
      case ExpiresAt => if expiresAt.Some? then Time(expiresAt.value) else Null
      case AutoPauseOnExpired => Bool(autoPauseOnExpired)
      case Schedulable => Bool(schedulable)
      case RateLimitedAt => if rateLimitedAt.Some? then Time(rateLimitedAt.value) else Null
      case RateLimitResetAt => if rateLimitResetAt.Some? then Time(rateLimitResetAt.value) else Null
      case OverloadUntil => if overloadUntil.Some? then Time(overloadUntil.value) else Null
      case TempUnschedulableUntil => if tempUnschedulableUntil.Some? then Time(tempUnschedulableUntil.value) else Null
      case TempUnschedulableReason =>
        if tempUnschedulableReason.Some? then Text(tempUnschedulableReason.value) else Null
      case SessionWindowStart => if sessionWindowStart.Some? then Time(sessionWindowStart.value) else Null
      case SessionWindowEnd => if sessionWindowEnd.Some? then Time(sessionWindowEnd.value) else Null
      case SessionWindowStatus => if sessionWindowStatus.Some? then Text(sessionWindowStatus.value) else Null
      case ParentAccountID => if parentAccountID.Some? then Int(parentAccountID.value) else Null
      case QuotaDimension => Text(quotaDimension)
    }

    /** The branches of `assignValues`: each field is written in the branch of its own name. */
    function Put(f: Field, v: Value): Row {
      Row(
        if f == ID then Or(ToNumber(v), 0) else id,
        if f == CreatedAt then Or(ToTime(v), 0) else createdAt,
        if f == UpdatedAt then Or(ToTime(v), 0) else updatedAt,
        if f == DeletedAt then ToTime(v) else deletedAt,
        if f == Name then Or(ToText(v), "") else name,
        if f == Notes then ToText(v) else notes,
        if f == Platform then Or(ToText(v), "") else platform,
        if f == Type then Or(ToText(v), "") else kind,
        if f == Credentials then ToMap(v) else credentials,
        if f == Extra then ToMap(v) else extra,
        if f == ProxyID then ToNumber(v) else proxyID,
        if f == ProxyFallbackOriginID then ToNumber(v) else proxyFallbackOriginID,
        if f == Concurrency then Or(ToNumber(v), 0) else concurrency,
        if f == LoadFactor then ToNumber(v) else loadFactor,
        if f == Priority then Or(ToNumber(v), 0) else priority,
        if f == RateMultiplier then (if v.Float? then v.float else 0.0) else rateMultiplier,
        if f == Status then Or(ToText(v), "") else status,
        if f == ErrorMessage then ToText(v) else errorMessage,
        if f == LastUsedAt then ToTime(v) else lastUsedAt,
        if f == ExpiresAt then ToTime(v) else expiresAt,
        if f == AutoPauseOnExpired then v == Bool(true) else autoPauseOnExpired,
        if f == Schedulable then v == Bool(true) else schedulable,
        if f == RateLimitedAt then ToTime(v) else rateLimitedAt,
        if f == RateLimitResetAt then ToTime(v) else rateLimitResetAt,
        if f == OverloadUntil then ToTime(v) else overloadUntil,
        if f == TempUnschedulableUntil then ToTime(v) else tempUnschedulableUntil,
        if f == TempUnschedulableReason then ToText(v) else tempUnschedulableReason,
        if f == SessionWindowStart then ToTime(v) else sessionWindowStart,
        if f == SessionWindowEnd then ToTime(v) else sessionWindowEnd,
        if f == SessionWindowStatus then ToText(v) else sessionWindowStatus,
        if f == ParentAccountID then ToNumber(v) else parentAccountID,
        if f == QuotaDimension then Or(ToText(v), "") else quotaDimension)
    }
  }

  /** A new entity; time 0 stands for the zero time. */
  const ZERO := Row(
    0, 0, 0, None, "", None, "", "", None, None, None, None, 0, None, 0, 0.0,
    "", None, None, None, false, false, None, None, None, None, None, None, None, None, None, "")

  lemma GetTyped(row: Row, f: Field)
    ensures HasType(row.Get(f), TypeOf(f))
  {
  }

  lemma PutOther(row: Row, f: Field, v: Value, g: Field)
    requires g != f
    ensures row.Put(f, v).Get(g) == row.Get(g)
  {
    match TypeOf(g)
    case TimeField(_) =>
      if g in LIMITS {
        PutOtherLimit(row, f, v, g);
      } else if g in WINDOWS {
        PutOtherWindow(row, f, v, g);
      } else {
        PutOtherTime(row, f, v, g);
      }
    case TextField(nullable) =>
      if nullable {
        PutOtherNullText(row, f, v, g);
      } else {
        PutOtherText(row, f, v, g);
      }
    case _ => PutOtherRest(row, f, v, g);
  }

  const LIMITS := {RateLimitedAt, RateLimitResetAt, OverloadUntil}
  const WINDOWS := {TempUnschedulableUntil, SessionWindowStart, SessionWindowEnd}

  lemma PutOtherLimit(row: Row, f: Field, v: Value, g: Field)
    requires g != f && g in LIMITS
    ensures row.Put(f, v).Get(g) == row.Get(g)
  {
  }

  lemma PutOtherWindow(row: Row, f: Field, v: Value, g: Field)
    requires g != f && g in WINDOWS
    ensures row.Put(f, v).Get(g) == row.Get(g)
  {
  }

  lemma PutOtherTime(row: Row, f: Field, v: Value, g: Field)
    requires g != f && TypeOf(g).TimeField? && g !in LIMITS && g !in WINDOWS
    ensures row.Put(f, v).Get(g) == row.Get(g)
  {
  }

  lemma PutOtherText(row: Row, f: Field, v: Value, g: Field)
    requires g != f && TypeOf(g) == TextField(false)
    ensures row.Put(f, v).Get(g) == row.Get(g)
  {
  }

  lemma PutOtherNullText(row: Row, f: Field, v: Value, g: Field)
    requires g != f && TypeOf(g) == TextField(true)
    ensures row.Put(f, v).Get(g) == row.Get(g)
  {
  }

  lemma PutOtherRest(row: Row, f: Field, v: Value, g: Field)
    requires g != f && !TypeOf(g).TimeField? && !TypeOf(g).TextField?
    ensures row.Put(f, v).Get(g) == row.Get(g)
  {
  }

  lemma PutSame(row: Row, f: Field, v: Value)
    requires HasType(v, TypeOf(f))
    ensures row.Put(f, v).Get(f) == v
  {
    match TypeOf(f)
    case TimeField(_) => PutSameTime(row, f, v);
    case TextField(_) => PutSameText(row, f, v);
    case _ => PutSameRest(row, f, v);
  }

  lemma PutSameTime(row: Row, f: Field, v: Value)
    requires HasType(v, TypeOf(f)) && TypeOf(f).TimeField?
    ensures row.Put(f, v).Get(f) == v
  {
  }

  lemma PutSameText(row: Row, f: Field, v: Value)
    requires HasType(v, TypeOf(f)) && TypeOf(f).TextField?
    ensures row.Put(f, v).Get(f) == v
  {
  }

  lemma PutSameRest(row: Row, f: Field, v: Value)
    requires HasType(v, TypeOf(f)) && !TypeOf(f).TimeField? && !TypeOf(f).TextField?
    ensures row.Put(f, v).Get(f) == v
  {
  }

  /** The values of all fields. */
  function View(row: Row): map<Field, Value> {
    map f: Field | true :: row.Get(f)
  }

  ghost predicate Typed(fields: map<Field, Value>) {
    forall f: Field :: f in fields && HasType(fields[f], TypeOf(f))
  }

  lemma ViewTyped(row: Row)
    ensures Typed(View(row))
  {
    forall f: Field ensures HasType(row.Get(f), TypeOf(f)) {
      GetTyped(row, f);
    }
  }

  /** Assigning a field sets it, and no other. */
  lemma PutView(row: Row, f: Field, v: Value)
    requires HasType(v, TypeOf(f))
    ensures View(row.Put(f, v)) == View(row)[f := v]
  {
    PutSame(row, f, v);
    forall g: Field | g != f ensures row.Put(f, v).Get(g) == row.Get(g) {
      PutOther(row, f, v, g);
    }
    ViewUpdate(row, row.Put(f, v), f, v);
  }

  lemma ViewUpdate(row: Row, row': Row, f: Field, v: Value)
    requires row'.Get(f) == v && forall g: Field :: g != f ==> row'.Get(g) == row.Get(g)
    ensures View(row') == View(row)[f := v]
  {
  }

  // ---------------------------------------------------------------- slots

  /** The empty slot that `scanValues` makes for a column. */
  function Allocated(c: Column): Slot {
    match c
    case Known(Credentials) | Known(Extra) => Bytes("")
    case Known(AutoPauseOnExpired) | Known(Schedulable) => NullBool(false, false)
    case Known(RateMultiplier) => NullFloat64(false, 0.0)
    case Known(ID) | Known(ProxyID) | Known(ProxyFallbackOriginID) | Known(Concurrency) | Known(LoadFactor)
      | Known(Priority)
      | Known(ParentAccountID) => NullInt64(false, 0)
    case Known(Name) | Known(Notes) | Known(Platform) | Known(Type) | Known(Status) | Known(ErrorMessage)
      | Known(TempUnschedulableReason) | Known(SessionWindowStatus) | Known(QuotaDimension) => NullString(false, "")
    case Known(CreatedAt) | Known(UpdatedAt) | Known(DeletedAt) | Known(LastUsedAt) | Known(ExpiresAt)
      | Known(RateLimitedAt)
      | Known(RateLimitResetAt) | Known(OverloadUntil) | Known(TempUnschedulableUntil) | Known(SessionWindowStart)
      | Known(SessionWindowEnd) => NullTime(false, 0)
    case Named(_) => UnknownType("")
  }

  /** Two slots of the same type. Scanning a row changes what a slot holds but not its type. */
  predicate SameKind(s: Slot, t: Slot) {
    match s
    case Bytes(_) => t.Bytes?
    case NullBool(_, _) => t.NullBool?
    case NullFloat64(_, _) => t.NullFloat64?
    case NullInt64(_, _) => t.NullInt64?
    case NullString(_, _) => t.NullString?
    case NullTime(_, _) => t.NullTime?
    case UnknownType(_) => t.UnknownType?
  }

  method ScanValues(columns: seq<Column>) returns (values: array<Slot>)
    ensures fresh(values) && values[..] == seq(|columns|, i requires 0 <= i < |columns| => Allocated(columns[i]))
  {
    values := new Slot[|columns|](_ => UnknownType(""));
    for i := 0 to |columns|
      invariant forall k :: 0 <= k < i ==> values[k] == Allocated(columns[k])
    {
      values[i] := Allocated(columns[i]);
    }
  }

  // ---------------------------------------------------------------- what assigning means

  /** An entity as a value: its fields, and what was stored for columns that are not fields. */
  datatype State = State(fields: map<Field, Value>, selected: map<string, Slot>)

  /** The slot is of the type in which a field of this type is read. */
  predicate Fits(s: Slot, t: FieldType) {
    match t
    case BoolField => s.NullBool?
    case FloatField => s.NullFloat64?
    case IntField(_) => s.NullInt64?
    case TextField(_) => s.NullString?
    case TimeField(_) => s.NullTime?
    case JsonField => s.Bytes?
  }

  /** The slot holds something for the field to take. The id takes even a NULL, as 0. */
  predicate Holds(f: Field, s: Slot) {
    match s
    case Bytes(data) => data != ""
    case UnknownType(_) => true
    case _ => s.valid || f == ID
  }

  function Held(s: Slot): Value
    requires !s.Bytes? && !s.UnknownType?
  {
    match s
    case NullBool(_, flag) => Bool(flag)
    case NullFloat64(_, float) => Float(float)
    case NullInt64(_, number) => Int(number)
    case NullString(_, text) => Text(text)
    case NullTime(_, time) => Time(time)
  }

  function OfMap(m: Option<Json>): Value {
    if m.Some? then Object(m.value) else Null
  }

  /** The value of field f after its slot was read over the value v. */
  function Read(codec: Codec, f: Field, v: Value, s: Slot): (r: Result<Value, Error>)
    requires HasType(v, TypeOf(f))
    ensures r.Ok? ==> HasType(r.value, TypeOf(f))
    ensures r.Err? ==> r.error == UnexpectedType(f) || (TypeOf(f) == JsonField && r.error == Unmarshal(f))
  {
    if !Fits(s, TypeOf(f)) then Err(UnexpectedType(f))
    else if !Holds(f, s) then Ok(v)
    else if !s.Bytes? then Ok(Held(s))
    else match codec.unmarshal(s.data, ToMap(v))
      case None => Err(Unmarshal(f))
      case Some(m) => Ok(OfMap(m))
  }

  ghost function AssignOne(codec: Codec, s: State, c: Column, slot: Slot): (r: (State, Option<Error>))
    requires Typed(s.fields)
    ensures Typed(r.0.fields)
  {
    match c
    case Named(name) => (s.(selected := s.selected[name := slot]), None)
    case Known(f) =>
      match Read(codec, f, s.fields[f], slot)
      case Ok(v) => (s.(fields := s.fields[f := v]), None)
      case Err(e) => (s, Some(e))
  }

  /** A new entity. */
  ghost function NewEntity(): (s: State)
    ensures Typed(s.fields)
  {
    ViewTyped(ZERO);
    State(View(ZERO), map[])
  }

  /** The entity after the first n columns, and the error if one of them stopped the loop. */
  ghost function Assigned(codec: Codec, s: State, columns: seq<Column>, values: seq<Slot>,
      n: nat): (r: (State, Option<Error>))
    requires Typed(s.fields) && n <= |columns| <= |values|
    ensures Typed(r.0.fields)
  {
    if n == 0 then (s, None)
    else
      var (before, err) := Assigned(codec, s, columns, values, n - 1);
      if err.Some? then (before, err) else AssignOne(codec, before, columns[n - 1], values[n - 1])
  }

  ghost function Assign(codec: Codec, s: State, columns: seq<Column>, values: seq<Slot>): (State, Option<Error>)
    requires Typed(s.fields)
  {
    if |values| < |columns| then (s, Some(LengthMismatch)) else Assigned(codec, s, columns, values, |columns|)
  }

  lemma {:induction false} ErrorStops(codec: Codec, s: State, columns: seq<Column>, values: seq<Slot>, m: nat, n: nat)
    requires Typed(s.fields) && m <= n <= |columns| <= |values| && Assigned(codec, s, columns, values, m).1.Some?
    ensures Assigned(codec, s, columns, values, n) == Assigned(codec, s, columns, values, m)
  {
    if m < n {
      ErrorStops(codec, s, columns, values, m, n - 1);
    }
  }

  /** The entity. */
  class Account {
    var row: Row
    var selectValues: map<string, Slot>

    constructor ()
      ensures Contents() == NewEntity()
    {
      row := ZERO;
      selectValues := map[];
    }

    ghost function Contents(): (s: State)
      reads this
      ensures Typed(s.fields)
    {
      ViewTyped(row);
      State(View(row), selectValues)
    }

    method AssignValues(codec: Codec, columns: seq<Column>, values: seq<Slot>) returns (err: Option<Error>)
      modifies this
      ensures (Contents(), err) == Assign(codec, old(Contents()), columns, values)
    {
      if |values| < |columns| {
        return Some(LengthMismatch);
      }
      for i := 0 to |columns|
        invariant (Contents(), None) == Assigned(codec, old(Contents()), columns, values, i)
      {
        err := AssignColumn(codec, columns[i], values[i]);
        if err.Some? {
          ErrorStops(codec, old(Contents()), columns, values, i + 1, |columns|);
          return;
        }
      }
      return None;
    }

    /** The body of the loop. */
    method AssignColumn(codec: Codec, column: Column, slot: Slot) returns (err: Option<Error>)
      modifies this
      ensures (Contents(), err) == AssignOne(codec, old(Contents()), column, slot)
    {
      match column {
        case Named(name) =>
          selectValues := selectValues[name := slot];
          return None;
        case Known(f) =>
          if !Fits(slot, TypeOf(f)) {
            return Some(UnexpectedType(f));
          }
          ghost var before := Contents();
          assert before.fields[f] == row.Get(f);
          if !Holds(f, slot) {
            assert before.fields[f := row.Get(f)] == before.fields;
            return None;
          }
          if !slot.Bytes? {
            SetField(f, Held(slot));
            return None;
          }
          var m := codec.unmarshal(slot.data, ToMap(row.Get(f)));
          if m.None? {
            return Some(Unmarshal(f));
          }
          SetField(f, OfMap(m.value));
          return None;
      }
    }

    method SetField(f: Field, v: Value)
      requires HasType(v, TypeOf(f))
      modifies this
      ensures Contents() == State(old(Contents()).fields[f := v], old(selectValues))
    {
      PutView(row, f, v);
      row := row.Put(f, v);
    }
  }

  // ---------------------------------------------------------------- scanned slots always fit

  /** What `scanValues` allocates for a field is what `assignValues` reads it from. */
  lemma AllocatedFits(f: Field, slot: Slot)
    requires SameKind(Allocated(Known(f)), slot)
    ensures Fits(slot, TypeOf(f))
  {
  }

  /** Slots that were allocated for the columns and then scanned into. */
  predicate Scanned(columns: seq<Column>, values: seq<Slot>) {
    |values| == |columns| && forall i :: 0 <= i < |columns| ==> SameKind(Allocated(columns[i]), values[i])
  }

  /** For any columns, repeated and unknown ones included, assigning scanned slots never reports a wrong
      number of values or a wrong type. Bad JSON is the one error left. */
  lemma {:induction false} ScannedNeverMismatch(codec: Codec, s: State, columns: seq<Column>, values: seq<Slot>)
    requires Typed(s.fields) && Scanned(columns, values)
    ensures var err := Assign(codec, s, columns, values).1;
            err.None? || err == Some(Unmarshal(Credentials)) || err == Some(Unmarshal(Extra))
  {
    ScannedPrefix(codec, s, columns, values, |columns|);
  }

  lemma {:induction false} ScannedPrefix(codec: Codec, s: State, columns: seq<Column>, values: seq<Slot>, n: nat)
    requires Typed(s.fields) && Scanned(columns, values) && n <= |columns|
    ensures var err := Assigned(codec, s, columns, values, n).1;
            err.None? || err == Some(Unmarshal(Credentials)) || err == Some(Unmarshal(Extra))
  {
    if n == 0 {
      return;
    }
    ScannedPrefix(codec, s, columns, values, n - 1);
    ScannedOne(codec, Assigned(codec, s, columns, values, n - 1).0, columns[n - 1], values[n - 1]);
  }

  lemma ScannedOne(codec: Codec, s: State, c: Column, slot: Slot)
    requires Typed(s.fields) && SameKind(Allocated(c), slot)
    ensures var err := AssignOne(codec, s, c, slot).1;
            err.None? || err == Some(Unmarshal(Credentials)) || err == Some(Unmarshal(Extra))
  {
    if c.Known? {
      AllocatedFits(c.field, slot);
    }
  }

  // ---------------------------------------------------------------- what is reported

  /** The slot cannot be read into the entity: it is of another type than the field, or it holds text that is not
      JSON. */
  ghost predicate Unreadable(codec: Codec, s: State, c: Column, slot: Slot, e: Error)
    requires Typed(s.fields)
  {
    match e
    case LengthMismatch => false
    case UnexpectedType(f) => c == Known(f) && !Fits(slot, TypeOf(f))
    case Unmarshal(f) =>
      && c == Known(f) && f in {Credentials, Extra} && slot.Bytes? && slot.data != ""
      && codec.unmarshal(slot.data, if s.fields[f].Object? then Some(s.fields[f].json) else None).None?
  }

  lemma OneUnreadable(codec: Codec, s: State, c: Column, slot: Slot, e: Error)
    requires Typed(s.fields)
    ensures AssignOne(codec, s, c, slot).1 == Some(e) <==> Unreadable(codec, s, c, slot, e)
  {
    if c.Known? {
      JsonFields(c.field);
    }
  }

  lemma JsonFields(f: Field)
    ensures TypeOf(f) == JsonField <==> f in {Credentials, Extra}
  {
  }

  /** Reading stops at column i with the error. */
  ghost predicate StopsAt(codec: Codec, s: State, columns: seq<Column>, values: seq<Slot>, i: nat, e: Error)
    requires Typed(s.fields) && |columns| <= |values|
  {
    && i < |columns| && Assigned(codec, s, columns, values, i).1.None?
    && Unreadable(codec, Assigned(codec, s, columns, values, i).0, columns[i], values[i], e)
  }

  /** The first column that cannot be read is reported: with enough values there is an error exactly if reading stops
      somewhere, and then what was read before stays. */
  lemma {:induction false} FirstUnreadableDecides(codec: Codec, s: State, columns: seq<Column>, values: seq<Slot>,
      e: Error)
    requires Typed(s.fields) && |columns| <= |values|
    ensures Assign(codec, s, columns, values).1 == Some(e) <==> exists i :: StopsAt(codec, s, columns, values, i, e)
    ensures forall i :: StopsAt(codec, s, columns, values, i, e) ==>
      Assign(codec, s, columns, values).0 == Assigned(codec, s, columns, values, i).0
  {
    if Assign(codec, s, columns, values).1 == Some(e) {
      var i := Stop(codec, s, columns, values, |columns|, e);
    }
    forall i | StopsAt(codec, s, columns, values, i, e)
      ensures Assign(codec, s, columns, values) == (Assigned(codec, s, columns, values, i).0, Some(e))
    {
      StopStays(codec, s, columns, values, i, e);
    }
  }

  lemma StopStays(codec: Codec, s: State, columns: seq<Column>, values: seq<Slot>, i: nat, e: Error)
    requires Typed(s.fields) && |columns| <= |values| && StopsAt(codec, s, columns, values, i, e)
    ensures Assign(codec, s, columns, values) == (Assigned(codec, s, columns, values, i).0, Some(e))
  {
    OneUnreadable(codec, Assigned(codec, s, columns, values, i).0, columns[i], values[i], e);
    OneMoreAssigned(codec, s, columns, values, i);
    ErrorStops(codec, s, columns, values, i + 1, |columns|);
  }

  lemma OneMoreAssigned(codec: Codec, s: State, columns: seq<Column>, values: seq<Slot>, i: nat)
    requires Typed(s.fields) && i < |columns| <= |values| && Assigned(codec, s, columns, values, i).1.None?
    ensures Assigned(codec, s, columns, values, i + 1)
      == AssignOne(codec, Assigned(codec, s, columns, values, i).0, columns[i], values[i])
    ensures AssignOne(codec, Assigned(codec, s, columns, values, i).0, columns[i], values[i]).1.Some? ==>
      AssignOne(codec, Assigned(codec, s, columns, values, i).0, columns[i], values[i]).0
        == Assigned(codec, s, columns, values, i).0
  {
  }

  lemma {:induction false} Stop(codec: Codec, s: State, columns: seq<Column>, values: seq<Slot>, n: nat, e: Error)
    returns (i: nat)
    requires Typed(s.fields) && n <= |columns| <= |values| && Assigned(codec, s, columns, values, n).1 == Some(e)
    ensures StopsAt(codec, s, columns, values, i, e)
  {
    if Assigned(codec, s, columns, values, n - 1).1.Some? {
      i := Stop(codec, s, columns, values, n - 1, e);
      return;
    }
    i := n - 1;
    OneMoreAssigned(codec, s, columns, values, i);
    OneUnreadable(codec, Assigned(codec, s, columns, values, i).0, columns[i], values[i], e);
  }

  // ---------------------------------------------------------------- which value a field ends up with

  /** The last of the first n columns that sets field f, if any. */
  function LastSetting(columns: seq<Column>, values: seq<Slot>, f: Field, n: nat): Option<nat>
    requires n <= |columns| <= |values|
  {
    if n == 0 then None
    else if columns[n - 1] == Known(f) && Holds(f, values[n - 1]) then Some(n - 1)
    else LastSetting(columns, values, f, n - 1)
  }

  /** Without an error a field ends up with the value of the last column of that name that is not NULL; if
      there is none, it keeps the value it had. The id is set by NULL too. JSON fields are apart: a later
      object is merged into an earlier one. */
  lemma {:induction false} LastSettingWins(codec: Codec, s: State, columns: seq<Column>, values: seq<Slot>, f: Field,
      n: nat)
    requires Typed(s.fields) && n <= |columns| <= |values| && TypeOf(f) != JsonField
      && Assigned(codec, s, columns, values, n).1.None?
    ensures var last := LastSetting(columns, values, f, n);
            match last
            case None => Assigned(codec, s, columns, values, n).0.fields[f] == s.fields[f]
            case Some(i) =>
              && i < n && Fits(values[i], TypeOf(f))
              && Assigned(codec, s, columns, values, n).0.fields[f] == Held(values[i])
  {
    if n == 0 {
      return;
    }
    LastSettingWins(codec, s, columns, values, f, n - 1);
    LastSettingStep(codec, Assigned(codec, s, columns, values, n - 1).0, columns[n - 1], values[n - 1], f);
  }

  lemma LastSettingStep(codec: Codec, s: State, c: Column, slot: Slot, f: Field)
    requires Typed(s.fields) && TypeOf(f) != JsonField && AssignOne(codec, s, c, slot).1.None?
    ensures var fields := AssignOne(codec, s, c, slot).0.fields;
            if c == Known(f) && Holds(f, slot) then Fits(slot, TypeOf(f)) && fields[f] == Held(slot)
              else fields[f] == s.fields[f]
  {
  }

  // ---------------------------------------------------------------- round trip

  /** The slot after scanning a column in which value v of field f was stored. */
  function Encode(codec: Codec, f: Field, v: Value): Slot
    requires HasType(v, TypeOf(f))
  {
    match TypeOf(f)
    case BoolField => NullBool(true, v.flag)
    case FloatField => NullFloat64(true, v.float)
    case IntField(_) => if v.Null? then NullInt64(false, 0) else NullInt64(true, v.number)
    case TextField(_) => if v.Null? then NullString(false, "") else NullString(true, v.text)
    case TimeField(_) => if v.Null? then NullTime(false, 0) else NullTime(true, v.time)
    case JsonField => if v.Null? then Bytes("") else Bytes(codec.marshal(v.json))
  }

  /** The slots after scanning a stored row; `extra` gives the values of the columns that are not fields. */
  ghost function EncodeRow(codec: Codec, row: map<Field, Value>, extra: string -> Slot, columns: seq<Column>): seq<Slot>
    requires Typed(row)
  {
    seq(|columns|, i requires 0 <= i < |columns| => EncodeColumn(codec, row, extra, columns[i]))
  }

  ghost function EncodeColumn(codec: Codec, row: map<Field, Value>, extra: string -> Slot, c: Column): Slot
    requires Typed(row)
  {
    match c
    case Known(f) => Encode(codec, f, row[f])
    case Named(name) => extra(name)
  }

  /** Reading back one field over its old value or over the value itself gives the value. */
  lemma ReadEncoded(codec: Codec, f: Field, v: Value, over: Value)
    requires codec.RoundTrips() && HasType(v, TypeOf(f)) && (over == ZERO.Get(f) || over == v)
    requires HasType(over, TypeOf(f))
    ensures Read(codec, f, over, Encode(codec, f, v)) == Ok(v)
  {
    GetTyped(ZERO, f);
    if TypeOf(f) == JsonField && v.Object? {
      assert codec.marshal(v.json) != "";
    }
  }

  /** Decoding the first n columns of an encoded row. */
  ghost predicate Restored(row: map<Field, Value>, extra: string -> Slot, columns: seq<Column>, n: nat, r: State)
    requires Typed(row) && n <= |columns|
  {
    && (forall f: Field :: f in r.fields && r.fields[f] == if Known(f) in columns[..n] then row[f] else ZERO.Get(f))
    && (forall name :: name in r.selected <==> Named(name) in columns[..n])
    && (forall name :: name in r.selected ==> r.selected[name] == extra(name))
  }

  /** Reading back a stored row into a new entity restores exactly the selected columns, whatever columns
      are selected, how often and in which order; the other fields stay zero. */
  lemma RoundTrip(codec: Codec, row: map<Field, Value>, extra: string -> Slot, columns: seq<Column>)
    requires codec.RoundTrips() && Typed(row)
    ensures var (r, err) := Assign(codec, NewEntity(), columns, EncodeRow(codec, row, extra, columns));
            err == None && Restored(row, extra, columns, |columns|, r)
  {
    var r := RestoredPrefix(codec, row, extra, columns, |columns|);
  }

  /** With every column selected the row comes back whole. */
  lemma RoundTripWhole(codec: Codec, row: map<Field, Value>, extra: string -> Slot, columns: seq<Column>)
    requires codec.RoundTrips() && Typed(row) && forall f: Field :: Known(f) in columns
    ensures Assign(codec, NewEntity(), columns, EncodeRow(codec, row, extra, columns)).0.fields == row
  {
    RoundTrip(codec, row, extra, columns);
    assert columns[..|columns|] == columns;
  }

  /** The first n columns of an encoded row have been decoded into a new entity. */
  ghost predicate PrefixRestored(codec: Codec, row: map<Field, Value>, extra: string -> Slot, columns: seq<Column>,
      n: nat, r: State)
    requires Typed(row) && n <= |columns|
  {
    && Restored(row, extra, columns, n, r)
    && Assigned(codec, NewEntity(), columns, EncodeRow(codec, row, extra, columns), n) == (r, None)
  }

  lemma {:induction false} RestoredPrefix(codec: Codec, row: map<Field, Value>, extra: string -> Slot,
      columns: seq<Column>, n: nat)
    returns (r: State)
    requires codec.RoundTrips() && Typed(row) && n <= |columns|
    ensures PrefixRestored(codec, row, extra, columns, n, r)
  {
    if n == 0 {
      r := RestoredNone(codec, row, extra, columns);
      return;
    }
    var before := RestoredPrefix(codec, row, extra, columns, n - 1);
    r := RestoredNext(codec, row, extra, columns, n, before);
  }

  lemma RestoredNone(codec: Codec, row: map<Field, Value>, extra: string -> Slot, columns: seq<Column>)
    returns (r: State)
    requires Typed(row)
    ensures PrefixRestored(codec, row, extra, columns, 0, r)
  {
    r := NewEntity();
  }

  lemma RestoredNext(codec: Codec, row: map<Field, Value>, extra: string -> Slot, columns: seq<Column>, n: nat,
      before: State)
    returns (r: State)
    requires codec.RoundTrips() && Typed(row) && 0 < n <= |columns|
    requires PrefixRestored(codec, row, extra, columns, n - 1, before)
    ensures PrefixRestored(codec, row, extra, columns, n, r)
  {
    r := RestoredStep(codec, row, extra, columns, n, before);
    AssignedStep(codec, NewEntity(), columns, EncodeRow(codec, row, extra, columns), n, before, r);
    assert Assigned(codec, NewEntity(), columns, EncodeRow(codec, row, extra, columns), n) == (r, None);
  }

  lemma AssignedStep(codec: Codec, s: State, columns: seq<Column>, values: seq<Slot>, n: nat, before: State, r: State)
    requires Typed(s.fields) && 0 < n <= |columns| <= |values| && Typed(before.fields)
    requires Assigned(codec, s, columns, values, n - 1) == (before, None)
    requires Assigns(codec, before, columns[n - 1], values[n - 1], r)
    ensures Assigned(codec, s, columns, values, n) == (r, None)
  {
  }

  ghost predicate Assigns(codec: Codec, before: State, c: Column, slot: Slot, r: State)
    requires Typed(before.fields)
  {
    AssignOne(codec, before, c, slot) == (r, None)
  }

  /** Decoding one more column of an encoded row. */
  lemma RestoredStep(codec: Codec, row: map<Field, Value>, extra: string -> Slot, columns: seq<Column>, n: nat,
      before: State)
    returns (r: State)
    requires codec.RoundTrips() && Typed(row) && 0 < n <= |columns| && Typed(before.fields)
      && Restored(row, extra, columns, n - 1, before)
    ensures Assigns(codec, before, columns[n - 1], EncodeRow(codec, row, extra, columns)[n - 1], r)
    ensures Restored(row, extra, columns, n, r)
  {
    assert columns[..n] == columns[..n - 1] + [columns[n - 1]];
    if columns[n - 1].Named? {
      var name := columns[n - 1].name;
      r := before.(selected := before.selected[name := extra(name)]);
      return;
    }
    var f := columns[n - 1].field;
    r := before.(fields := before.fields[f := row[f]]);
    ReadEncoded(codec, f, row[f], before.fields[f]);
  }
}
