# Neuro-Focus Lab: trial state machine and result log

Neuro-Focus Lab is a small single-page app with three cognitive mini-tests.
The **Stroop** test asks for the colour a colour word is rendered in. The
**digit span** test shows five digits that the user must type back. The
**reaction** test measures the time from a "go" signal to a click. Each result
is appended, with the sidebar's sleep hours, caffeine and condition settings,
to a CSV log with the columns `Timestamp, Test_Type, Score, Sleep_Hours,
Caffeine, Condition`.

This project models the logic under the app's button handlers. The per-browser
session state is the class `Trials.Session`. Its fields are the Stroop counter,
the current Stroop stimulus (word, colour key, CSS colour), the digit-span quiz
string and the reaction start time. Each session key is an `Option`, because
the app tests whether a key is present. The CSV file is the class
`Records.RecordLog`: a flag saying whether the file exists, and its lines, each
a list of field strings. The header and every row the app writes have six.
Randomness, the clock and the timestamp text are parameters of the handlers.

Files:
- `wrappers.dfy`: `Option`.
- `decimal.dfy`: how integer fields are written as decimal text, and the reader that inverts it.
- `stimuli.dfy`: the colour table, the Stroop judgement and the digit-span string.
- `records.dfy`: the record schema, the six-field row, its reader, and the log file class.
- `trials.dfy`: the session class and its handlers.
- `scenarios.dfy`: short sessions that drive the handlers and state what the log holds afterwards.

Behaviour worth noting:
- The digit-span length is fixed at 5.
- A reaction click whose clock reading is before the start logs a negative elapsed time.
- Test types are written `Stroop`, `DigitSpan` and `Reaction`. Caffeine is written `X` or `O`.
- The header check at app.py:53-55 is top-level script code. The app framework reruns the whole script on every interaction, so this check runs before every `save_record` in the same run. `save_record` appends in mode `a` with `header=False`. So a data row is appended without a header only if the file disappears during a run. The model keeps that case (`SaveRecord` on an absent file creates the file with just that row).

## Model

| member | source | states |
|---|---|---|
| Decimal.NatToString | app.py:61-62 | a natural number is written as a non-empty run of decimal digits with no leading zero |
| Decimal.IntToString | app.py:61-62 | an integer's text is non-empty and starts with `-` exactly when the integer is negative |
| Decimal.ParseInt | app.py:61-62 | reading an integer field succeeds only on a non-empty string |
| Decimal.DigitsValueOfNat | app.py:61-62 | reading the digits of a natural number's text gives the number back |
| Decimal.ParseIntOfString | app.py:61-62 | every integer's text reads back as that integer |
| Decimal.IntToStringInjective | app.py:61-62 | two integers have the same text exactly when they are equal |
| Decimal.DigitChar | app.py:113 | the text of a single digit is one character in '0'..'9' that reads back as that digit |
| Stimuli.Label | app.py:88 | each colour's Korean word is a key of the colour table and consists of two Hangul syllables |
| Stimuli.Hex | app.py:96 | the CSS colour of a colour key is what the colour table gives for that key's word |
| Stimuli.LabelsDistinct | app.py:88-89 | the three colour labels are pairwise different: equal labels mean the same colour |
| Stimuli.StroopCorrect | app.py:103 | the comparison of the clicked button's label with the colour key's label holds exactly when the clicked colour is the colour key; the displayed word is not an input |
| Stimuli.DigitString | app.py:113 | the joined string has one character per drawn digit, and character i is the decimal character of digit i |
| Stimuli.DigitsOf | app.py:113 | reading a digit string gives one digit per character |
| Stimuli.DigitsOfDigitString | app.py:113 | the joined string consists of digits only and reads back as exactly the drawn digits |
| Stimuli.DigitStringInjective | app.py:113-122 | two draws give the same quiz string exactly when they are the same digits in the same order |
| Stimuli.QuizNumbers | app.py:113 | the quiz string from five draws in 0..9 has length 5, consists of the characters '0'..'9' and spells the draws |
| Records.TestTypeName | app.py:106 | the test-type name written for a Stroop, DigitSpan or Reaction result (the names passed at app.py:106, 124 and 140) reads back as that test type |
| Records.CaffeineName | app.py:73 | each caffeine radio option is written as its label, "X" or "O", which reads back as that option |
| Records.ConditionName | app.py:74 | each condition slider option is written as its Korean label, which reads back as that option |
| Records.NameFieldsSound | app.py:60-64 | a test-type, caffeine or condition field reads only as the value whose name it is |
| Records.Fields | app.py:58-65 | a written row has as many fields as the header, with the timestamp first and the test-type name second |
| Records.IndexOf | app.py:54 | the position found for a header name holds that name and is its first occurrence |
| Records.ColumnPositions | app.py:54 | the header names stand in the order Timestamp, Test_Type, Score, Sleep_Hours, Caffeine, Condition, at positions 0 to 5 |
| Records.FieldsByHeader | app.py:54-65 | each field of a written row sits under its own header name: timestamp, test-type name, score, sleep hours, caffeine label and condition label |
| Records.ParseRow | app.py:58-66 | a row reads as a record only when it has the six columns, taking each field from under its header name; the record's timestamp is the Timestamp field |
| Records.ParseRowOfFields | app.py:58-66 | every written row reads back as the same record when each field is read from under its header name |
| Records.HeaderIsNoRecord | app.py:54 | the header line is never read as a record |
| Records.RowsOf | app.py:66 | writing records one after the other gives one row per record, in order |
| Records.ParseRows | app.py:66 | reading a batch of rows gives one record per row |
| Records.RowsOfSnoc | app.py:66 | writing one more record adds exactly its row at the end of the rows already written |
| Records.ParseRowsOfRows | app.py:66 | the rows of a sequence of records read back as exactly those records, in the same order, with none dropped or repeated |
| Records.RecordLog.Open | app.py:50 | the log starts as the file found on disk; an absent file has no lines |
| Records.RecordLog.EnsureCreated | app.py:53-55 | an absent file is created holding only the header row; an existing file is left exactly as it is |
| Records.RecordLog.SaveRecord | app.py:57-66 | the file exists afterwards and its lines are the old lines followed by exactly one row built from the caller's timestamp, the test type, the score and the sidebar settings; on an absent file that row is the only line, with no header |
| Trials.Session.constructor | app.py:86 | a new session holds none of the session keys |
| Trials.Session.EnterStroop | app.py:86 | the counter becomes 0 only if it was absent, and is otherwise kept; only the counter may change |
| Trials.Session.NextStroop | app.py:93-96 | the drawn word and colour key replace the previous stimulus, the CSS colour is that of the key, and the counter, the other keys and the log are untouched |
| Trials.Session.AnswerStroop | app.py:101-108 | the answer is correct exactly when the clicked colour is the colour key; a correct one raises the counter by exactly 1 and appends one Stroop row holding the new count; a wrong one leaves the counter and the log as they were; the stimulus is never cleared and its CSS colour remains that of the colour key |
| Trials.Session.ShowDigits | app.py:112-114 | the quiz string becomes the five-digit string of the draws; only the quiz key changes |
| Trials.Session.SubmitDigits | app.py:120-126 | the submission succeeds exactly when a quiz exists and the answer equals it as a string; an accepted answer is five characters '0'..'9'; success appends one DigitSpan row with score 100; failure leaves the log as it was; the session is unchanged |
| Trials.Session.StartReaction | app.py:130-133 | the start becomes the given clock reading; only the start changes |
| Trials.Session.ClickReaction | app.py:136-140 | a click logs exactly when a start exists; it then appends one Reaction row whose score is the clock reading minus the start; without a start the log is unchanged; the start is kept |
| Trials.TranspositionChangesQuiz | app.py:113-122 | swapping two different neighbouring digits gives a string that no longer equals the quiz, so that answer fails |
| Scenarios.StroopAnsweredTwice | app.py:86-108 | on a fresh log one stimulus answered right, wrong and right again leaves the header and two Stroop rows, with the counts 1 and 2 |
| Scenarios.ReactionClickedTwice | app.py:130-140 | a click before any start logs nothing; two clicks after one start log two rows, both measured from that start |
| Scenarios.DigitSpanSubmitted | app.py:112-126 | a submission before any quiz fails; after the quiz is shown, the answer succeeds exactly when it spells the draws, and only a success adds a row |
| Scenarios.SaveAll | app.py:53-66 | on a fresh log, after saving each record of a sequence in turn, the file is the header followed by one row per record, and those rows read back as exactly the saved records in order |
| Scenarios.AppendToExisting | app.py:53-66 | on an existing file the old lines stay in front, unchanged, and the one new last line reads back as the saved record |

## Left out

- Page configuration, CSS, markup, the sidebar and menu widgets, and success and error messages: these are presentation only.
- The analysis page (`read_csv`, the data-frame display, the bar chart): it is presentation through foreign libraries. `ParseRows` is the model's reader of the written rows.
- Real file I/O, CSV quoting and text encoding: the file is modelled as a list of rows, each a list of field strings.
- `random.choice` and `random.randint`: the drawn word, colour key and digits are handler parameters. Their ranges are enforced by the types `ColorName` and `Digit`.
- `time.sleep` (the 2-second display of the digits and the 2–4 second reaction delay): the model takes the clock reading after the delay as a parameter.
- `time.time()`: clock readings are integer ticks supplied by the caller.
- Trials.Session.ClickReaction: the score is the difference of integer ticks, not floating-point seconds, and not formatted with three decimals, because floating point is out of scope.
- `datetime.now().strftime`: the timestamp is an opaque string supplied by the caller.
- Trials.Session.AnswerStroop: a failing write is not modelled. The write at app.py:66 can raise after app.py:105 has already raised the counter, so the counter and the log can diverge. The model treats every write as succeeding.
- Records.RecordLog.SaveRecord: write failures (disk full, permission denied) are not modelled; every append succeeds.
- Aggregation of results by condition and test type: the code only hands the whole table to the chart.
