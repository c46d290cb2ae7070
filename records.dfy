/**
 * The result log: the record schema, the six-column row a record is written
 * as, and the CSV file that is created with a header and then only appended to.
 */
module Records {
  import opened Wrappers
  import opened Decimal

  datatype TestType = Stroop | DigitSpan | Reaction

  /** The sidebar's caffeine radio: "X" (none) or "O" (some). */
  datatype Caffeine = NoCaffeine | Caffeinated

  /** The sidebar's condition slider, in its order: poor, normal, good. */
  datatype Condition = Poor | Normal | Good

  /** The sleep slider's range. */
  type SleepHours = h: int | 0 <= h <= 12

  /** The sidebar settings that every record of the session carries. */
  datatype Profile = Profile(sleep: SleepHours, caffeine: Caffeine, condition: Condition)

  /** The minute-precision local time string, supplied by the caller. */
  type Timestamp = string

  datatype Record = Record(
    timestamp: Timestamp,
    testType: TestType,
    score: int,
    sleepHours: SleepHours,
    caffeine: Caffeine,
    condition: Condition)

  /** One line of the CSV file, as its list of fields. */
  type Row = seq<string>

  const Columns: Row := ["Timestamp", "Test_Type", "Score", "Sleep_Hours", "Caffeine", "Condition"]

  function TestTypeName(t: TestType): (s: string)
    ensures ParseTestType(s) == Some(t)
  {
    match t
    case Stroop => "Stroop"
    case DigitSpan => "DigitSpan"
    case Reaction => "Reaction"
  }

  function CaffeineName(c: Caffeine): (s: string)
    ensures ParseCaffeine(s) == Some(c)
  {
    match c
    case NoCaffeine => "X"
    case Caffeinated => "O"
  }

  function ConditionName(c: Condition): (s: string)
    ensures ParseCondition(s) == Some(c)
  {
    match c
    case Poor => "\U{B098}\U{C068}"
    case Normal => "\U{BCF4}\U{D1B5}"
    case Good => "\U{C88B}\U{C74C}"
  }

  function ParseTestType(s: string): Option<TestType>
  {
    if s == "Stroop" then Some(Stroop)
    else if s == "DigitSpan" then Some(DigitSpan)
    else if s == "Reaction" then Some(Reaction)
    else None
  }

  function ParseCaffeine(s: string): Option<Caffeine>
  {
    if s == "X" then Some(NoCaffeine) else if s == "O" then Some(Caffeinated) else None
  }

  function ParseCondition(s: string): Option<Condition>
  {
    if s == "\U{B098}\U{C068}" then Some(Poor)
    else if s == "\U{BCF4}\U{D1B5}" then Some(Normal)
    else if s == "\U{C88B}\U{C74C}" then Some(Good)
    else None
  }

  /** A name field reads only as the value whose name it is. */
  lemma NameFieldsSound(s: string)
    ensures ParseTestType(s).Some? ==> TestTypeName(ParseTestType(s).value) == s
    ensures ParseCaffeine(s).Some? ==> CaffeineName(ParseCaffeine(s).value) == s
    ensures ParseCondition(s).Some? ==> ConditionName(ParseCondition(s).value) == s
  {
  }

  function ParseSleep(s: string): (r: Option<SleepHours>)
  {
    match ParseInt(s)
    case Some(h) => if 0 <= h <= 12 then Some(h) else None
    case None => None
  }

  /** Position of the first occurrence of `x` in `xs`. */
  function IndexOf(xs: seq<string>, x: string): (k: nat)
    requires x in xs
    ensures k < |xs| && xs[k] == x && x !in xs[..k]
  {
    if xs[0] == x then 0 else 1 + IndexOf(xs[1..], x)
  }

  /** The field of a row that sits under the given header name. */
  function Column(row: Row, name: string): string
    requires |row| == |Columns| && name in Columns
  {
    row[IndexOf(Columns, name)]
  }

  /** Where each header name stands in the header row. */
  lemma ColumnPositions()
    ensures IndexOf(Columns, "Timestamp") == 0 && IndexOf(Columns, "Test_Type") == 1
    ensures IndexOf(Columns, "Score") == 2 && IndexOf(Columns, "Sleep_Hours") == 3
    ensures IndexOf(Columns, "Caffeine") == 4 && IndexOf(Columns, "Condition") == 5
  {
    assert Columns[..0] == [];
    assert Columns[..1] == ["Timestamp"];
    assert Columns[..2] == ["Timestamp", "Test_Type"];
    assert Columns[..3] == ["Timestamp", "Test_Type", "Score"];
    assert Columns[..4] == ["Timestamp", "Test_Type", "Score", "Sleep_Hours"];
    assert Columns[..5] == ["Timestamp", "Test_Type", "Score", "Sleep_Hours", "Caffeine"];
  }

  /** The row `save_record` appends: the record's fields in the header's column order. */
  function Fields(r: Record): (row: Row)
    ensures |row| == |Columns|
    ensures row[0] == r.timestamp && row[1] == TestTypeName(r.testType)
  {
    [r.timestamp, TestTypeName(r.testType), IntToString(r.score),
     IntToString(r.sleepHours), CaffeineName(r.caffeine), ConditionName(r.condition)]
  }

  /** Each field of a written row sits under its own header name. */
  lemma FieldsByHeader(r: Record)
    ensures Column(Fields(r), "Timestamp") == r.timestamp
    ensures Column(Fields(r), "Test_Type") == TestTypeName(r.testType)
    ensures Column(Fields(r), "Score") == IntToString(r.score)
    ensures Column(Fields(r), "Sleep_Hours") == IntToString(r.sleepHours)
    ensures Column(Fields(r), "Caffeine") == CaffeineName(r.caffeine)
    ensures Column(Fields(r), "Condition") == ConditionName(r.condition)
  {
    ColumnPositions();
  }

  /** Reads one data row back by header name; `None` for a row that is not a record. */
  function ParseRow(row: Row): (r: Option<Record>)
    ensures r.Some? ==> |row| == |Columns| && Column(row, "Timestamp") == r.value.timestamp
  {
    if |row| != |Columns| then None
    else
      match (ParseTestType(Column(row, "Test_Type")), ParseInt(Column(row, "Score")),
             ParseSleep(Column(row, "Sleep_Hours")), ParseCaffeine(Column(row, "Caffeine")),
             ParseCondition(Column(row, "Condition")))
      case (Some(t), Some(score), Some(h), Some(c), Some(k)) => Some(Record(Column(row, "Timestamp"), t, score, h, c, k))
      case _ => None
  }

  /** Every written row reads back as the same record, each field taken from under its header name. */
  lemma ParseRowOfFields(r: Record)
    ensures ParseRow(Fields(r)) == Some(r)
  {
    FieldsByHeader(r);
    ParseIntOfString(r.score);
    ParseIntOfString(r.sleepHours);
  }

  /** The header line never reads as a record. */
  lemma HeaderIsNoRecord()
    ensures ParseRow(Columns) == None
  {
    ColumnPositions();
    assert ParseTestType(Columns[1]) == None;
  }

  function RowsOf(rs: seq<Record>): (rows: seq<Row>)
    ensures |rows| == |rs|
    ensures forall i :: 0 <= i < |rs| ==> rows[i] == Fields(rs[i])
  {
    if rs == [] then [] else [Fields(rs[0])] + RowsOf(rs[1..])
  }

  /** Writing one more record adds its row at the end. */
  lemma {:induction false} RowsOfSnoc(rs: seq<Record>, r: Record)
    ensures RowsOf(rs + [r]) == RowsOf(rs) + [Fields(r)]
  {
    var rows := RowsOf(rs + [r]);
    assert |rows| == |RowsOf(rs) + [Fields(r)]|;
    forall i | 0 <= i < |rows|
      ensures rows[i] == (RowsOf(rs) + [Fields(r)])[i]
    {
      assert (rs + [r])[i] == if i < |rs| then rs[i] else r;
    }
  }

  /** Reads every row; fails if any row is not a record. */
  function ParseRows(rows: seq<Row>): (r: Option<seq<Record>>)
    ensures r.Some? ==> |r.value| == |rows|
  {
    if rows == [] then Some([])
    else match (ParseRow(rows[0]), ParseRows(rows[1..]))
      case (Some(x), Some(xs)) => Some([x] + xs)
      case _ => None
  }

  /** Records written one after the other read back as exactly those records, in order. */
  lemma {:induction false} ParseRowsOfRows(rs: seq<Record>)
    ensures ParseRows(RowsOf(rs)) == Some(rs)
  {
    if rs != [] {
      ParseRowOfFields(rs[0]);
      ParseRowsOfRows(rs[1..]);
      var rows := RowsOf(rs);
      assert rows[0] == Fields(rs[0]);
      assert rows[1..] == RowsOf(rs[1..]);
      assert [rs[0]] + rs[1..] == rs;
    }
  }

  /** A log file: whether it exists on disk, and its lines as field lists. */
  class RecordLog {
    var onDisk: bool
    var lines: seq<Row>

    ghost predicate Valid()
      reads this
    {
      !onDisk ==> lines == []
    }

    /** The file as found on disk when the program starts. */
    constructor Open(found: bool, content: seq<Row>)
      requires !found ==> content == []
      ensures Valid() && onDisk == found && lines == content
    {
      onDisk := found;
      lines := content;
    }

    /** Creates the file with only the header row when it does not exist. */
    method EnsureCreated()
      requires Valid()
      modifies this
      ensures Valid() && onDisk
      ensures lines == if old(onDisk) then old(lines) else [Columns]
    {
      if !onDisk {
        lines := [Columns];
        onDisk := true;
      }
    }

    /**
     * Builds the record from the test type, the score, the session's sidebar
     * settings and the caller's timestamp, and appends its row without a
     * header (an absent file is created holding just that row).
     */
    method SaveRecord(ts: Timestamp, testType: TestType, score: int, profile: Profile)
      requires Valid()
      modifies this
      ensures Valid() && onDisk
      ensures lines == old(lines) + [Fields(Record(ts, testType, score, profile.sleep, profile.caffeine, profile.condition))]
      ensures !old(onDisk) ==> lines == [Fields(Record(ts, testType, score, profile.sleep, profile.caffeine, profile.condition))]
    {
      var r := Record(ts, testType, score, profile.sleep, profile.caffeine, profile.condition);
      lines := lines + [Fields(r)];
      onDisk := true;
    }
  }
}
