/**
 * The per-browser session state and the button handlers of the three tests.
 * Each handler changes only the session keys its `modifies` clause names;
 * handlers that record a result also append to the shared result log.
 */
module Trials {
  import opened Wrappers
  import opened Decimal
  import opened Stimuli
  import opened Records

  /** The score a successful digit-span submission records. */
  const DigitSpanScore := 100

  class Session {
    /** Correct Stroop answers so far; absent until the Stroop page is first shown. */
    var stroopScore: Option<nat>
    /** The current Stroop stimulus: the displayed word, the colour key and its CSS colour. */
    var word: Option<ColorName>
    var colorKey: Option<ColorName>
    var colorVal: Option<string>
    /** The digit string of the last digit-span quiz. */
    var quizNums: Option<string>
    /** The clock reading taken when the reaction test last became ready. */
    var start: Option<int>

    ghost predicate Valid()
      reads this
    {
      && word.Some? == colorKey.Some? == colorVal.Some?
      && (colorKey.Some? ==> colorVal.value == Hex(colorKey.value))
      && (word.Some? ==> stroopScore.Some?)
      && (quizNums.Some? ==> |quizNums.value| == SpanLength && AllDigits(quizNums.value))
    }

    /** A new session holds none of the keys. */
    constructor ()
      ensures Valid()
      ensures stroopScore == None && word == None && colorKey == None && colorVal == None
      ensures quizNums == None && start == None
    {
      stroopScore, word, colorKey, colorVal := None, None, None, None;
      quizNums, start := None, None;
    }

    /** Showing the Stroop page sets the counter to 0 only when it is absent. */
    method EnterStroop()
      requires Valid()
      modifies this`stroopScore
      ensures Valid()
      ensures stroopScore == if old(stroopScore).None? then Some(0) else old(stroopScore)
    {
      if stroopScore.None? {
        stroopScore := Some(0);
      }
    }

    /**
     * "Start/next": the injected draws become the displayed word and the
     * colour key, and the CSS colour is looked up from the key. The counter
     * and the log are not touched.
     */
    method NextStroop(drawnWord: ColorName, drawnKey: ColorName)
      requires Valid() && stroopScore.Some?
      modifies this`word, this`colorKey, this`colorVal
      ensures Valid()
      ensures word == Some(drawnWord) && colorKey == Some(drawnKey) && colorVal == Some(Hex(drawnKey))
    {
      word := Some(drawnWord);
      colorKey := Some(drawnKey);
      colorVal := Some(Hex(colorKey.value));
    }

    /**
     * A colour button: correct exactly when the clicked colour is the colour
     * key. A correct answer adds one to the counter and logs the new count;
     * a wrong one changes nothing. The stimulus stays, so it can be answered again.
     */
    method AnswerStroop(clicked: ColorName, ts: Timestamp, profile: Profile, log: RecordLog) returns (correct: bool)
      requires Valid() && word.Some? && log.Valid()
      modifies this`stroopScore, log
      ensures Valid() && log.Valid()
      ensures correct <==> clicked == colorKey.value
      ensures colorVal == Some(Hex(colorKey.value))
      ensures correct ==>
        && stroopScore == Some(old(stroopScore).value + 1)
        && log.onDisk
        && log.lines == old(log.lines) + [Fields(Record(ts, Stroop, stroopScore.value, profile.sleep, profile.caffeine, profile.condition))]
      ensures !correct ==>
        stroopScore == old(stroopScore) && log.onDisk == old(log.onDisk) && log.lines == old(log.lines)
    {
      correct := StroopCorrect(colorKey.value, clicked);
      if correct {
        stroopScore := Some(stroopScore.value + 1);
        log.SaveRecord(ts, Stroop, stroopScore.value, profile);
      }
    }

    /** "Show": the five injected digits become the quiz string. */
    method ShowDigits(draws: seq<Digit>)
      requires Valid() && |draws| == SpanLength
      modifies this`quizNums
      ensures Valid()
      ensures quizNums == Some(QuizNumbers(draws))
    {
      quizNums := Some(QuizNumbers(draws));
    }

    /**
     * "Submit": succeeds exactly when a quiz exists and the answer equals it
     * as a string; success logs the fixed score, failure changes nothing.
     * The quiz is kept either way.
     */
    method SubmitDigits(answer: string, ts: Timestamp, profile: Profile, log: RecordLog) returns (ok: bool)
      requires Valid() && log.Valid()
      modifies log
      ensures log.Valid()
      ensures ok <==> quizNums.Some? && answer == quizNums.value
      ensures ok ==> |answer| == SpanLength && AllDigits(answer)
      ensures ok ==>
        log.onDisk && log.lines == old(log.lines) + [Fields(Record(ts, DigitSpan, DigitSpanScore, profile.sleep, profile.caffeine, profile.condition))]
      ensures !ok ==> log.onDisk == old(log.onDisk) && log.lines == old(log.lines)
    {
      ok := quizNums.Some? && answer == quizNums.value;
      if ok {
        log.SaveRecord(ts, DigitSpan, DigitSpanScore, profile);
      }
    }

    /** "Start": stamps the clock reading taken once the delay is over. */
    method StartReaction(now: int)
      requires Valid()
      modifies this`start
      ensures Valid()
      ensures start == Some(now)
    {
      start := Some(now);
    }

    /**
     * "Click": with a start recorded, logs the elapsed time; without one it
     * does nothing. The start is kept, so every further click logs again.
     */
    method ClickReaction(now: int, ts: Timestamp, profile: Profile, log: RecordLog) returns (logged: bool)
      requires Valid() && log.Valid()
      modifies log
      ensures log.Valid()
      ensures logged <==> start.Some?
      ensures logged ==>
        log.onDisk && log.lines == old(log.lines) + [Fields(Record(ts, Reaction, now - start.value, profile.sleep, profile.caffeine, profile.condition))]
      ensures !logged ==> log.onDisk == old(log.onDisk) && log.lines == old(log.lines)
    {
      logged := start.Some?;
      if logged {
        log.SaveRecord(ts, Reaction, now - start.value, profile);
      }
    }
  }

  /** Swapping two different neighbouring digits of a draw gives a different quiz string. */
  lemma TranspositionChangesQuiz(draws: seq<Digit>, i: nat)
    requires |draws| == SpanLength && i + 1 < SpanLength && draws[i] != draws[i + 1]
    ensures QuizNumbers(draws[i := draws[i + 1]][i + 1 := draws[i]]) != QuizNumbers(draws)
  {
    var swapped := draws[i := draws[i + 1]][i + 1 := draws[i]];
    assert swapped[i] != draws[i];
    DigitStringInjective(swapped, draws);
  }
}
