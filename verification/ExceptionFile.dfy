/** The line-oriented reader of the exception list (`split_kv`, `parse_exceptions`), a printer for
    such lists, and the proof that reading undoes printing. */
module ExceptionFile {
  import opened Wrappers
  import opened Text

  type Record = map<string, string>

  /** `split_kv` raises ValueError on a line without a colon. */
  datatype ParseError = NoColon(line: string)

  type Parsed = Result<seq<Record>, ParseError>

  // ---------------------------------------------------------------- reading

  /** Removes one pair of equal quotes; a value that is a single quote character becomes empty. */
  function Unquote(value: string): string {
    if (StartsWith(value, "\"") && EndsWith(value, "\"")) || (StartsWith(value, "'") && EndsWith(value, "'")) then
      if |value| < 2 then "" else value[1..|value| - 1]
    else
      value
  }

  function SplitKv(line: string): Result<(string, string), ParseError> {
    match Find(line, ':')
    case None => Err(NoColon(line))
    case Some(i) => Ok((Strip(line[..i]), Unquote(Strip(line[i + 1..]))))
  }

  /** The two variables of the reading loop: the finished records and the one being filled. */
  datatype State = State(exceptions: seq<Record>, current: Option<Record>)

  predicate IsComment(line: string) {
    line == "" || StartsWith(line, "#") || StartsWith(line, "version:") || StartsWith(line, "exceptions:")
  }

  /** `if current: exceptions.append(current)`: neither None nor an empty dict is appended. */
  function Flush(s: State): seq<Record> {
    if s.current.Some? && s.current.value != map[] then s.exceptions + [s.current.value] else s.exceptions
  }

  function Store(s: State, record: Record, line: string): Result<State, ParseError> {
    match SplitKv(line)
    case Err(e) => Err(e)
    case Ok(kv) => Ok(s.(current := Some(record[kv.0 := kv.1])))
  }

  /** The effect of one line of the file. */
  function Step(s: State, raw: string): Result<State, ParseError> {
    var line := Strip(raw);
    if IsComment(line) then
      Ok(s)
    else if StartsWith(line, "- ") then
      var s' := State(Flush(s), Some(map[]));
      var rest := Strip(line[2..]);
      if rest != "" then Store(s', map[], rest) else Ok(s')
    else if s.current.Some? && ':' in line then
      Store(s, s.current.value, line)
    else
      Ok(s)
  }

  function Steps(s: State, lines: seq<string>): Result<State, ParseError>
    decreases |lines|
  {
    if lines == [] then Ok(s)
    else
      match Step(s, lines[0])
      case Err(e) => Err(e)
      case Ok(s') => Steps(s', lines[1..])
  }

  const START := State([], None)

  function Parse(lines: seq<string>): Parsed {
    match Steps(START, lines)
    case Err(e) => Err(e)
    case Ok(s) => Ok(Flush(s))
  }

  /** The file is read line by line. */
  function ParseText(text: string): Parsed {
    Parse(Lines(text))
  }

  method ParseExceptions(text: string) returns (r: Parsed)
    ensures r == ParseText(text)
  {
    var lines := Lines(text);
    var exceptions: seq<Record> := [];
    var current: Option<Record> := None;
    for i := 0 to |lines|
      invariant Steps(START, lines) == Steps(State(exceptions, current), lines[i..])
    {
      assert lines[i..][1..] == lines[i + 1..];
      var line := Strip(lines[i]);
      if line == "" || StartsWith(line, "#") {
        continue;
      }
      if StartsWith(line, "version:") || StartsWith(line, "exceptions:") {
        continue;
      }
      if StartsWith(line, "- ") {
        if current.Some? && current.value != map[] {
          exceptions := exceptions + [current.value];
        }
        current := Some(map[]);
        line := Strip(line[2..]);
        if line != "" {
          match SplitKv(line) {
            case Err(e) => return Err(e);
            case Ok(kv) => current := Some(current.value[kv.0 := kv.1]);
          }
        }
        continue;
      }
      if current.Some? && ':' in line {
        match SplitKv(line) {
          case Err(e) => return Err(e);
          case Ok(kv) => current := Some(current.value[kv.0 := kv.1]);
        }
      }
    }
    if current.Some? && current.value != map[] {
      exceptions := exceptions + [current.value];
    }
    return Ok(exceptions);
  }

  lemma {:induction false} StepsConcat(s: State, a: seq<string>, b: seq<string>)
    ensures Steps(s, a + b) == match Steps(s, a) case Err(e) => Err(e) case Ok(s') => Steps(s', b)
    decreases |a|
  {
    if a == [] {
      assert a + b == b;
    } else {
      assert (a + b)[1..] == a[1..] + b;
      match Step(s, a[0]) {
        case Err(_) =>
        case Ok(s') => StepsConcat(s', a[1..], b);
      }
    }
  }

  // ---------------------------------------------------------------- item count

  predicate OpensItem(raw: string) {
    var line := Strip(raw);
    !IsComment(line) && StartsWith(line, "- ")
  }

  function Items(lines: seq<string>): nat {
    if lines == [] then 0 else (if OpensItem(lines[0]) then 1 else 0) + Items(lines[1..])
  }

  /** A stripped line that starts with "- " has something after it, so the guard `if line` in the item
      branch never skips the first key of an item. */
  lemma ItemLineIsNotBare(raw: string)
    requires StartsWith(Strip(raw), "- ")
    ensures Strip(Strip(raw)[2..]) != ""
  {
    var line := Strip(raw);
    StripIsStripped(raw);
    var rest := line[2..];
    assert IsSpace(line[1]);
    assert |line| > 2 && rest[|rest| - 1] == line[|line| - 1];
    StripKeepsLast(rest);
  }

  lemma {:induction false} StripKeepsLast(s: string)
    requires s != [] && !IsSpace(s[|s| - 1])
    ensures Strip(s) != []
  {
    if IsSpace(s[0]) {
      StripKeepsLast(s[1..]);
    }
  }

  function Open(s: State): nat {
    if s.current.Some? then 1 else 0
  }

  lemma StepKeepsNonEmpty(s: State, raw: string)
    requires s.current.Some? ==> s.current.value != map[]
    requires Step(s, raw).Ok?
    ensures var s' := Step(s, raw).value; s'.current.Some? ==> s'.current.value != map[]
  {
    var line := Strip(raw);
    if StartsWith(line, "- ") {
      ItemLineIsNotBare(raw);
    }
    forall record: Record, text | Store(s, record, text).Ok?
      ensures Store(s, record, text).value.current.value != map[]
    {
      var kv := SplitKv(text).value;
      assert kv.0 in record[kv.0 := kv.1];
    }
    if !IsComment(line) && StartsWith(line, "- ") {
      var s0 := State(Flush(s), Some(map[]));
      var kv := SplitKv(Strip(line[2..])).value;
      assert Step(s, raw) == Store(s0, map[], Strip(line[2..]));
      assert kv.0 in map[][kv.0 := kv.1];
    }
  }

  lemma {:induction false} StepsCount(s: State, lines: seq<string>)
    requires s.current.Some? ==> s.current.value != map[]
    requires forall e :: e in s.exceptions ==> e != map[]
    requires Steps(s, lines).Ok?
    ensures var s' := Steps(s, lines).value;
            && (s'.current.Some? ==> s'.current.value != map[])
            && (forall e :: e in s'.exceptions ==> e != map[])
            && |s'.exceptions| + Open(s') == |s.exceptions| + Open(s) + Items(lines)
    decreases |lines|
  {
    if lines != [] {
      if StartsWith(Strip(lines[0]), "- ") {
        ItemLineIsNotBare(lines[0]);
      }
      var s' := Step(s, lines[0]).value;
      StepKeepsNonEmpty(s, lines[0]);
      StepsCount(s', lines[1..]);
    }
  }

  /** Every accepted file yields one non-empty record for each line that opens an item: no record is
      lost, merged or invented. */
  lemma ParseCountsItems(text: string)
    requires ParseText(text).Ok?
    ensures |ParseText(text).value| == Items(Lines(text))
    ensures forall e :: e in ParseText(text).value ==> e != map[]
  {
    StepsCount(START, Lines(text));
  }

  // ---------------------------------------------------------------- printing

  /** A value is written as it is, or between single or double quotes. */
  datatype Style = Bare | Single | Double

  datatype Entry = Entry(key: string, value: string, style: Style)

  /** A key that survives printing: no outer white space, no colon, and no start that the reader gives
      another meaning to. */
  predicate CleanKey(key: string) {
    && Stripped(key)
    && ':' !in key
    && !StartsWith(key, "#")
    && !StartsWith(key, "- ")
    && key != "version"
    && key != "exceptions"
  }

  predicate Quoted(value: string, quote: string) {
    quote <= value && EndsWith(value, quote)
  }

  /** A value that can be written without quotes: no outer white space, and not both opened and closed by the same
      quote. */
  predicate CleanBare(value: string) {
    Stripped(value) && !Quoted(value, "\"") && !Quoted(value, "'")
  }

  predicate CleanEntry(e: Entry) {
    CleanKey(e.key) && (e.style.Bare? ==> CleanBare(e.value))
  }

  predicate CleanRecord(entries: seq<Entry>) {
    entries != [] && forall e :: e in entries ==> CleanEntry(e)
  }

  function Written(e: Entry): string {
    match e.style
    case Bare => e.value
    case Single => "'" + e.value + "'"
    case Double => "\"" + e.value + "\""
  }

  /** What follows the colon; nothing for an empty bare value. */
  function Tail(e: Entry): string {
    if Written(e) == "" then "" else " " + Written(e)
  }

  function Field(e: Entry): string {
    e.key + [':'] + Tail(e)
  }

  function PrintRest(entries: seq<Entry>): seq<string> {
    if entries == [] then [] else ["    " + Field(entries[0])] + PrintRest(entries[1..])
  }

  function PrintRecord(entries: seq<Entry>): seq<string> {
    if entries == [] then [] else ["  - " + Field(entries[0])] + PrintRest(entries[1..])
  }

  function PrintRecords(records: seq<seq<Entry>>): seq<string> {
    if records == [] then [] else PrintRecord(records[0]) + PrintRecords(records[1..])
  }

  function Print(records: seq<seq<Entry>>): seq<string> {
    ["version: 1", "exceptions:"] + PrintRecords(records)
  }

  /** The dict that a list of key-value pairs denotes; a repeated key keeps its last value. */
  function AsRecord(m: Record, entries: seq<Entry>): Record
    decreases |entries|
  {
    if entries == [] then m else AsRecord(m[entries[0].key := entries[0].value], entries[1..])
  }

  function AsRecords(records: seq<seq<Entry>>): seq<Record> {
    if records == [] then [] else [AsRecord(map[], records[0])] + AsRecords(records[1..])
  }

  lemma FieldIsStripped(e: Entry)
    requires CleanEntry(e)
    ensures Stripped(Field(e)) && Field(e) != ""
  {
    var f := Field(e);
    WrittenIsStripped(e);
    assert Tail(e) == "" ==> f[|f| - 1] == ':';
    assert Tail(e) != "" ==> f[|f| - 1] == Written(e)[|Written(e)| - 1];
    assert f[0] == if e.key != [] then e.key[0] else ':';
  }

  lemma WrittenIsStripped(e: Entry)
    requires CleanEntry(e)
    ensures Stripped(Written(e)) && Strip(Tail(e)) == Written(e) && Unquote(Written(e)) == e.value
  {
    var w := Written(e);
    if !e.style.Bare? {
      assert w[1..|w| - 1] == e.value;
      assert w[|w| - 1..] == [w[0]];
    }
    StripOfStripped(w);
    assert (" " + w)[1..] == w;
  }

  lemma {:induction false} FindAfterPrefix(a: string, b: string, c: char)
    requires c !in a
    ensures Find(a + [c] + b, c) == Some(|a|)
  {
    if a == [] {
      assert (a + [c] + b)[0] == c;
    } else {
      assert (a + [c] + b)[1..] == a[1..] + [c] + b;
      FindAfterPrefix(a[1..], b, c);
    }
  }

  lemma SplitField(e: Entry)
    requires CleanEntry(e)
    ensures SplitKv(Field(e)) == Ok((e.key, e.value))
  {
    FindAfterPrefix(e.key, Tail(e), ':');
    assert Field(e)[..|e.key|] == e.key;
    assert Field(e)[|e.key| + 1..] == Tail(e);
    StripOfStripped(e.key);
    WrittenIsStripped(e);
  }

  lemma {:induction false} StripIndent(indent: string, s: string)
    requires forall c :: c in indent ==> IsSpace(c)
    requires Stripped(s) && s != ""
    ensures Strip(indent + s) == s
  {
    if indent == [] {
      assert indent + s == s;
      StripOfStripped(s);
    } else {
      assert (indent + s)[1..] == indent[1..] + s;
      StripIndent(indent[1..], s);
    }
  }

  /** A printed field is not taken for a comment or for one of the two header lines. */
  lemma FieldIsNotComment(e: Entry)
    requires CleanKey(e.key)
    ensures !IsComment(Field(e)) && !StartsWith(Field(e), "- ")
  {
    var f := Field(e);
    assert f[..|e.key|] == e.key && f[|e.key|] == ':';
    assert e.key != [] ==> e.key[0] == f[0];
    assert |e.key| >= 2 ==> e.key[1] == f[1];
    assert |e.key| == 1 ==> f[1] == ':';
    HeaderNeedsKey(e, "version");
    HeaderNeedsKey(e, "exceptions");
  }

  lemma HeaderNeedsKey(e: Entry, word: string)
    requires ':' !in e.key && ':' !in word
    ensures StartsWith(Field(e), word + ":") ==> e.key == word
  {
    var f := Field(e);
    if StartsWith(f, word + ":") {
      assert f == word + [':'] + f[|word| + 1..];
      FindAfterPrefix(word, f[|word| + 1..], ':');
      assert f == e.key + [':'] + f[|e.key| + 1..];
      FindAfterPrefix(e.key, f[|e.key| + 1..], ':');
      assert f[..|word|] == word && f[..|e.key|] == e.key;
    }
  }

  lemma {:induction false} ReadRest(s: State, entries: seq<Entry>)
    requires s.current.Some?
    requires forall e :: e in entries ==> CleanEntry(e)
    ensures Steps(s, PrintRest(entries)) == Ok(s.(current := Some(AsRecord(s.current.value, entries))))
    decreases |entries|
  {
    if entries != [] {
      var e := entries[0];
      FieldIsStripped(e);
      FieldIsNotComment(e);
      SplitField(e);
      StripIndent("    ", Field(e));
      var s' := s.(current := Some(s.current.value[e.key := e.value]));
      assert ':' in Field(e) by { assert Field(e)[|e.key|] == ':'; }
      assert Step(s, "    " + Field(e)) == Ok(s');
      ReadRest(s', entries[1..]);
    }
  }

  /** The line that opens an item. */
  lemma ReadItem(s: State, e: Entry)
    requires CleanEntry(e)
    ensures Step(s, "  - " + Field(e)) == Ok(State(Flush(s), Some(map[e.key := e.value])))
  {
    FieldIsStripped(e);
    SplitField(e);
    ReadItemLine(s, Field(e), e.key, e.value);
  }

  lemma ReadItemLine(s: State, field: string, key: string, value: string)
    requires Stripped(field) && field != "" && SplitKv(field) == Ok((key, value))
    ensures Step(s, "  - " + field) == Ok(State(Flush(s), Some(map[key := value])))
  {
    var line := "- " + field;
    StripOfStripped(field);
    assert Stripped(line) by { assert line[|line| - 1] == field[|field| - 1]; }
    assert "  - " + field == "  " + line;
    StripIndent("  ", line);
    assert line[2..] == field;
    assert line[0] == '-' && !IsComment(line);
    assert map[][key := value] == map[key := value];
  }

  lemma ReadRecord(s: State, entries: seq<Entry>)
    requires CleanRecord(entries)
    ensures Steps(s, PrintRecord(entries)) == Ok(State(Flush(s), Some(AsRecord(map[], entries))))
  {
    var e := entries[0];
    ReadItem(s, e);
    assert map[][e.key := e.value] == map[e.key := e.value];
    ReadRest(State(Flush(s), Some(map[e.key := e.value])), entries[1..]);
  }

  /** After a record the next one is appended to what was read before. */
  lemma RecordFlushed(s: State, entries: seq<Entry>)
    requires CleanRecord(entries)
    ensures var m := AsRecord(map[], entries); Flush(State(Flush(s), Some(m))) == Flush(s) + [m]
  {
    AsRecordKeeps(map[][entries[0].key := entries[0].value], entries[1..], entries[0].key);
    assert entries[0].key in AsRecord(map[], entries);
  }

  lemma {:induction false} AsRecordKeeps(m: Record, entries: seq<Entry>, k: string)
    requires k in m
    ensures k in AsRecord(m, entries)
    decreases |entries|
  {
    if entries != [] {
      AsRecordKeeps(m[entries[0].key := entries[0].value], entries[1..], k);
    }
  }

  /** The result of reading lines adds the dicts to those that were complete or open before. */
  predicate Adds(s: State, read: Result<State, ParseError>, records: seq<Record>) {
    read.Ok? && Flush(read.value) == Flush(s) + records
  }

  lemma AddsOneMore(s: State, m: Record, s': State, read: Result<State, ParseError>, records: seq<Record>)
    requires Flush(s') == Flush(s) + [m] && Adds(s', read, records)
    ensures Adds(s, read, [m] + records)
  {
    assert (Flush(s) + [m]) + records == Flush(s) + ([m] + records);
  }

  lemma {:induction false} ReadRecords(s: State, records: seq<seq<Entry>>)
    requires forall r :: r in records ==> CleanRecord(r)
    ensures Adds(s, Steps(s, PrintRecords(records)), AsRecords(records))
    decreases |records|
  {
    if records == [] {
      return;
    }
    assert CleanRecord(records[0]);
    var s' := ReadFirst(s, records);
    ReadRecords(s', records[1..]);
    AddsOneMore(s, AsRecord(map[], records[0]), s', Steps(s', PrintRecords(records[1..])), AsRecords(records[1..]));
  }

  lemma ReadFirst(s: State, records: seq<seq<Entry>>) returns (s': State)
    requires records != [] && CleanRecord(records[0])
    ensures Steps(s, PrintRecords(records)) == Steps(s', PrintRecords(records[1..]))
    ensures Flush(s') == Flush(s) + [AsRecord(map[], records[0])]
  {
    s' := State(Flush(s), Some(AsRecord(map[], records[0])));
    ReadRecord(s, records[0]);
    RecordFlushed(s, records[0]);
    StepsConcat(s, PrintRecord(records[0]), PrintRecords(records[1..]));
  }

  /** Reading the printed lines, as lines, gives the records back. */
  lemma ParsePrintedLines(records: seq<seq<Entry>>)
    requires forall r :: r in records ==> CleanRecord(r)
    ensures Parse(Print(records)) == Ok(AsRecords(records))
  {
    var header := ["version: 1", "exceptions:"];
    StripOfStripped(header[0]);
    StripOfStripped(header[1]);
    assert Step(START, header[0]) == Ok(START) && Step(START, header[1]) == Ok(START);
    assert Steps(START, header) == Ok(START) by {
      assert header[1..] == [header[1]];
      assert [header[1]][1..] == [];
      assert Steps(START, header[1..]) == Ok(START);
    }
    StepsConcat(START, header, PrintRecords(records));
    ReadRecords(START, records);
    assert Flush(START) == [];
    assert [] + AsRecords(records) == AsRecords(records);
  }

  // ---------------------------------------------------------------- the printed text

  /** Neither keys nor values contain a line end. */
  predicate Unbroken(records: seq<seq<Entry>>) {
    forall r, e :: r in records && e in r ==> OneLine(e.key) && OneLine(e.value)
  }

  lemma FieldIsOneLine(e: Entry)
    requires OneLine(e.key) && OneLine(e.value)
    ensures OneLine(Field(e))
  {
    assert OneLine(Written(e));
    assert OneLine(Tail(e));
  }

  lemma {:induction false} RestIsLines(entries: seq<Entry>)
    requires forall e :: e in entries ==> OneLine(e.key) && OneLine(e.value)
    ensures forall line :: line in PrintRest(entries) ==> OneLine(line) && line != ""
    decreases |entries|
  {
    if entries != [] {
      FieldIsOneLine(entries[0]);
      RestIsLines(entries[1..]);
    }
  }

  lemma RecordIsLines(entries: seq<Entry>)
    requires forall e :: e in entries ==> OneLine(e.key) && OneLine(e.value)
    ensures forall line :: line in PrintRecord(entries) ==> OneLine(line) && line != ""
  {
    if entries != [] {
      FieldIsOneLine(entries[0]);
      RestIsLines(entries[1..]);
    }
  }

  lemma {:induction false} RecordsAreLines(records: seq<seq<Entry>>)
    requires Unbroken(records)
    ensures forall line :: line in PrintRecords(records) ==> OneLine(line) && line != ""
    decreases |records|
  {
    if records != [] {
      RecordIsLines(records[0]);
      assert Unbroken(records[1..]) by {
        assert forall r :: r in records[1..] ==> r in records;
      }
      RecordsAreLines(records[1..]);
    }
  }

  /** Reading undoes printing: any list of non-empty records with clean keys comes back from the text as the same
      list of dicts in the same order, whatever text the values hold on one line (colons, `#`, outer blanks, quotes),
      for every choice of how to quote each value that its text allows, and for every choice of line ends. */
  lemma ParsePrint(records: seq<seq<Entry>>, ends: seq<string>)
    requires (forall r :: r in records ==> CleanRecord(r)) && Unbroken(records)
    requires |ends| == |Print(records)| && LineEnds(ends)
    ensures ParseText(EndLines(Print(records), ends)) == Ok(AsRecords(records))
  {
    RecordsAreLines(records);
    LinesOfEnded(Print(records), ends);
    ParsePrintedLines(records);
  }

  // ---------------------------------------------------------------- nothing read contains a line end

  predicate OneLineRecord(m: Record) {
    forall k :: k in m ==> OneLine(k) && OneLine(m[k])
  }

  predicate OneLineState(s: State) {
    && (forall m :: m in s.exceptions ==> OneLineRecord(m))
    && (s.current.Some? ==> OneLineRecord(s.current.value))
  }

  lemma SplitOneLine(line: string)
    requires OneLine(line) && SplitKv(line).Ok?
    ensures OneLine(SplitKv(line).value.0) && OneLine(SplitKv(line).value.1)
  {
    var i := Find(line, ':').value;
    StripPart(line[..i]);
    StripPart(line[i + 1..]);
    PartOneLine(Strip(line[..i]), line);
    PartOneLine(Strip(line[i + 1..]), line);
    PartOneLine(Unquote(Strip(line[i + 1..])), Strip(line[i + 1..]));
  }

  lemma PartOneLine(part: string, line: string)
    requires OneLine(line) && forall c :: c in part ==> c in line
    ensures OneLine(part)
  {
  }

  lemma StoreOneLine(s: State, record: Record, line: string)
    requires OneLineState(s) && OneLineRecord(record) && OneLine(line) && Store(s, record, line).Ok?
    ensures OneLineState(Store(s, record, line).value)
  {
    SplitOneLine(line);
  }

  lemma StepOneLine(s: State, raw: string)
    requires OneLineState(s) && OneLine(raw) && Step(s, raw).Ok?
    ensures OneLineState(Step(s, raw).value)
  {
    var line := Strip(raw);
    StripPart(raw);
    if IsComment(line) {
      return;
    }
    if StartsWith(line, "- ") {
      StripPart(line[2..]);
      if Strip(line[2..]) != "" {
        StoreOneLine(State(Flush(s), Some(map[])), map[], Strip(line[2..]));
      }
      return;
    }
    if s.current.Some? && ':' in line {
      StoreOneLine(s, s.current.value, line);
    }
  }

  lemma {:induction false} StepsOneLine(s: State, lines: seq<string>)
    requires OneLineState(s) && Steps(s, lines).Ok?
    requires forall line :: line in lines ==> OneLine(line)
    ensures OneLineState(Steps(s, lines).value)
    decreases |lines|
  {
    if lines != [] {
      StepOneLine(s, lines[0]);
      StepsOneLine(Step(s, lines[0]).value, lines[1..]);
    }
  }

  lemma ParsedOneLine(text: string)
    requires ParseText(text).Ok?
    ensures forall m :: m in ParseText(text).value ==> OneLineRecord(m)
  {
    LinesAreLines(text);
    StepsOneLine(START, Lines(text));
  }

  /** No key twice: every entry is in the dict. */
  predicate DistinctKeys(entries: seq<Entry>) {
    forall i, j :: 0 <= i < j < |entries| ==> entries[i].key != entries[j].key
  }

  lemma {:induction false} EntriesSurvive(m: Record, entries: seq<Entry>, i: nat)
    requires DistinctKeys(entries) && i < |entries|
    ensures var r := AsRecord(m, entries); entries[i].key in r && r[entries[i].key] == entries[i].value
    decreases |entries|
  {
    var m' := m[entries[0].key := entries[0].value];
    if i > 0 {
      EntriesSurvive(m', entries[1..], i - 1);
    } else {
      OthersKeep(m', entries[1..], entries[0].key);
    }
  }

  lemma {:induction false} OthersKeep(m: Record, entries: seq<Entry>, k: string)
    requires k in m && forall e :: e in entries ==> e.key != k
    ensures var r := AsRecord(m, entries); k in r && r[k] == m[k]
    decreases |entries|
  {
    if entries != [] {
      OthersKeep(m[entries[0].key := entries[0].value], entries[1..], k);
    }
  }

  predicate IsLast(entries: seq<Entry>, i: nat, k: string) {
    i < |entries| && entries[i].key == k && forall j :: i < j < |entries| ==> entries[j].key != k
  }

  /** What the dict of a record holds: the keys of its entries and no others, each with the value of the last entry
      that has it. */
  lemma {:induction false} RecordHolds(m: Record, entries: seq<Entry>, k: string)
    ensures var r := AsRecord(m, entries);
            && (k in r <==> k in m || exists e :: e in entries && e.key == k)
            && (k in m && (forall e :: e in entries ==> e.key != k) ==> r[k] == m[k])
            && (forall i :: 0 <= i && IsLast(entries, i, k) ==> k in r && r[k] == entries[i].value)
    decreases |entries|
  {
    if entries == [] {
      return;
    }
    var m' := m[entries[0].key := entries[0].value];
    RecordHolds(m', entries[1..], k);
    assert forall i :: 1 <= i < |entries| ==> entries[1..][i - 1] == entries[i];
    assert forall e :: e in entries <==> e == entries[0] || e in entries[1..];
    forall i | 0 <= i && IsLast(entries, i, k)
      ensures k in AsRecord(m, entries) && AsRecord(m, entries)[k] == entries[i].value
    {
      if i > 0 {
        assert entries[1..][i - 1] == entries[i];
        assert forall j :: i - 1 < j < |entries| - 1 ==> entries[1..][j] == entries[j + 1];
      } else {
        assert forall e :: e in entries[1..] ==> e.key != k;
      }
    }
  }

  lemma {:induction false} RecordListed(records: seq<seq<Entry>>, i: nat)
    requires i < |records|
    ensures AsRecord(map[], records[i]) in AsRecords(records)
    decreases |records|
  {
    if i > 0 {
      RecordListed(records[1..], i - 1);
    }
  }

  /** Exactly when: for records with clean and distinct keys the printed text reads back iff no key and no value
      contains a line end. */
  lemma ParsePrintExactly(records: seq<seq<Entry>>, ends: seq<string>)
    requires forall r :: r in records ==> CleanRecord(r) && DistinctKeys(r)
    requires |ends| == |Print(records)| && LineEnds(ends)
    ensures ParseText(EndLines(Print(records), ends)) == Ok(AsRecords(records)) <==> Unbroken(records)
  {
    var text := EndLines(Print(records), ends);
    if Unbroken(records) {
      ParsePrint(records, ends);
    }
    if ParseText(text) == Ok(AsRecords(records)) {
      ParsedOneLine(text);
      forall r, e | r in records && e in r ensures OneLine(e.key) && OneLine(e.value) {
        var i :| 0 <= i < |records| && records[i] == r;
        var j :| 0 <= j < |r| && r[j] == e;
        RecordListed(records, i);
        EntriesSurvive(map[], r, j);
        assert OneLineRecord(AsRecord(map[], r));
      }
    }
  }

  // ---------------------------------------------------------------- lines that do not matter, and lines that fail

  /** Blank lines, comments, the two header lines, lines outside an item and lines without a colon inside an item have
      no effect, wherever they are. */
  lemma IgnoredLine(before: seq<string>, line: string, after: seq<string>)
    requires var text := Strip(line);
             || text == "" || "#" <= text || "version:" <= text || "exceptions:" <= text
             || (!("- " <= text) && (':' !in text || forall other :: other in before ==> !("- " <= Strip(other))))
    ensures Parse(before + [line] + after) == Parse(before + after)
  {
    StepsConcat(START, before + [line], after);
    StepsConcat(START, before, [line]);
    StepsConcat(START, before, after);
    if Steps(START, before).Ok? {
      var s := Steps(START, before).value;
      assert [line][1..] == [];
      if !("- " <= Strip(line)) && forall other :: other in before ==> !("- " <= Strip(other)) {
        NoItemYet(START, before);
      }
      assert Step(s, line) == Ok(s);
      assert Steps(s, [line]) == Ok(s);
    }
  }

  lemma {:induction false} NoItemYet(s: State, lines: seq<string>)
    requires s.current.None? && forall line :: line in lines ==> !("- " <= Strip(line))
    ensures Steps(s, lines) == Ok(s)
    decreases |lines|
  {
    if lines != [] {
      assert Step(s, lines[0]) == Ok(s);
      NoItemYet(s, lines[1..]);
    }
  }

  /** A line that opens an item without a colon stops the reading, unless an earlier line did. */
  lemma ItemWithoutColon(before: seq<string>, line: string, after: seq<string>)
    requires "- " <= Strip(line) && ':' !in Strip(line) && Steps(START, before).Ok?
    ensures Parse(before + [line] + after) == Err(NoColon(Strip(Strip(line)[2..])))
  {
    StepsConcat(START, before + [line], after);
    StepsConcat(START, before, [line]);
    ItemLineIsNotBare(line);
    StripPart(Strip(line)[2..]);
    assert ':' !in Strip(Strip(line)[2..]);
    assert Strip(line)[0] == '-';
  }
}
