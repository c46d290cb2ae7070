/**
 * Short sessions driven through the handlers, showing what a caller can
 * conclude from the handlers' contracts alone: a Stroop stimulus can be
 * answered again, a reaction start serves every later click, and a
 * digit-span submission needs a quiz and the exact string.
 */
module Scenarios {
  import opened Wrappers
  import opened Decimal
  import opened Stimuli
  import opened Records
  import opened Trials

  function OtherColor(c: ColorName): (d: ColorName)
    ensures d != c
  {
    if c == Red then Blue else Red
  }

  /**
   * A fresh log and session: one stimulus answered right, wrong, then right
   * again. The log holds the header and the two counts 1 and 2.
   */
  method StroopAnsweredTwice(drawnWord: ColorName, drawnKey: ColorName, ts1: Timestamp, ts2: Timestamp, ts3: Timestamp, profile: Profile)
    returns (first: bool, second: bool, third: bool, rows: seq<Row>)
    ensures first && !second && third
    ensures rows == [Columns,
                     Fields(Record(ts1, Stroop, 1, profile.sleep, profile.caffeine, profile.condition)),
                     Fields(Record(ts3, Stroop, 2, profile.sleep, profile.caffeine, profile.condition))]
  {
    var log := new RecordLog.Open(false, []);
    log.EnsureCreated();
    var s := new Session();
    s.EnterStroop();
    s.NextStroop(drawnWord, drawnKey);
    first := s.AnswerStroop(drawnKey, ts1, profile, log);
    second := s.AnswerStroop(OtherColor(drawnKey), ts2, profile, log);
    third := s.AnswerStroop(drawnKey, ts3, profile, log);
    rows := log.lines;
  }

  /**
   * A click before any start logs nothing; after one start, two clicks log
   * two elapsed times measured from that same start.
   */
  method ReactionClickedTwice(startedAt: int, t1: int, t2: int, ts0: Timestamp, ts1: Timestamp, ts2: Timestamp, profile: Profile)
    returns (early: bool, rows: seq<Row>)
    ensures !early
    ensures rows == [Columns,
                     Fields(Record(ts1, Reaction, t1 - startedAt, profile.sleep, profile.caffeine, profile.condition)),
                     Fields(Record(ts2, Reaction, t2 - startedAt, profile.sleep, profile.caffeine, profile.condition))]
  {
    var log := new RecordLog.Open(false, []);
    log.EnsureCreated();
    var s := new Session();
    early := s.ClickReaction(t1, ts0, profile, log);
    s.StartReaction(startedAt);
    var a := s.ClickReaction(t1, ts1, profile, log);
    var b := s.ClickReaction(t2, ts2, profile, log);
    rows := log.lines;
  }

  /**
   * A submission before any quiz fails; after the quiz is shown, the answer
   * succeeds exactly when it spells the drawn digits, and only a success is logged.
   */
  method DigitSpanSubmitted(draws: seq<Digit>, answer: string, ts0: Timestamp, ts1: Timestamp, profile: Profile)
    returns (early: bool, ok: bool, rows: seq<Row>)
    requires |draws| == SpanLength
    ensures !early
    ensures ok <==> answer == DigitString(draws)
    ensures rows == if ok then [Columns, Fields(Record(ts1, DigitSpan, 100, profile.sleep, profile.caffeine, profile.condition))]
                    else [Columns]
  {
    var log := new RecordLog.Open(false, []);
    log.EnsureCreated();
    var s := new Session();
    early := s.SubmitDigits(answer, ts0, profile, log);
    s.ShowDigits(draws);
    ok := s.SubmitDigits(answer, ts1, profile, log);
    rows := log.lines;
  }

  /** A log opened on an existing file keeps its old lines in front of every new one. */
  method AppendToExisting(previous: seq<Row>, ts: Timestamp, testType: TestType, score: int, profile: Profile)
    returns (rows: seq<Row>)
    ensures |rows| == |previous| + 1
    ensures rows[..|previous|] == previous
    ensures ParseRow(rows[|previous|]) == Some(Record(ts, testType, score, profile.sleep, profile.caffeine, profile.condition))
  {
    var log := new RecordLog.Open(true, previous);
    log.EnsureCreated();
    log.SaveRecord(ts, testType, score, profile);
    rows := log.lines;
    ParseRowOfFields(Record(ts, testType, score, profile.sleep, profile.caffeine, profile.condition));
  }

  /** The file after saving one more record is the header and the rows of the longer prefix. */
  lemma LinesAfterSave(rs: seq<Record>, i: nat)
    requires i < |rs|
    ensures [Columns] + RowsOf(rs[..i]) + [Fields(rs[i])] == [Columns] + RowsOf(rs[..i + 1])
  {
    RowsOfSnoc(rs[..i], rs[i]);
    assert rs[..i + 1] == rs[..i] + [rs[i]];
  }

  /** The data rows of a file written from `rs` read back as `rs`. */
  lemma LinesReadBack(rs: seq<Record>)
    ensures ParseRows(([Columns] + RowsOf(rs))[1..]) == Some(rs)
  {
    assert ([Columns] + RowsOf(rs))[1..] == RowsOf(rs);
    ParseRowsOfRows(rs);
  }

  /**
   * A fresh log, then every record of `rs` saved in turn: the file is the
   * header followed by their rows, and those rows read back as exactly `rs`, in order.
   */
  method SaveAll(rs: seq<Record>) returns (rows: seq<Row>)
    ensures |rows| == |rs| + 1 && rows[0] == Columns
    ensures ParseRows(rows[1..]) == Some(rs)
  {
    var log := new RecordLog.Open(false, []);
    log.EnsureCreated();
    var i := 0;
    while i < |rs|
      invariant 0 <= i <= |rs|
      invariant log.Valid()
      invariant log.lines == [Columns] + RowsOf(rs[..i])
    {
      var r := rs[i];
      log.SaveRecord(r.timestamp, r.testType, r.score, Profile(r.sleepHours, r.caffeine, r.condition));
      LinesAfterSave(rs, i);
      i := i + 1;
    }
    assert rs[..i] == rs;
    rows := log.lines;
    LinesReadBack(rs);
  }
}
