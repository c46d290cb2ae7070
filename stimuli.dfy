/**
 * The stimuli the tests present: the three Stroop colours with their
 * button labels and rendering colours, and the digit-span number string.
 */
module Stimuli {
  import opened Decimal

  /** The keys of the colour table, in the order the answer buttons appear. */
  datatype ColorName = Red | Blue | Green

  /** The colour table: each Korean colour word mapped to its CSS colour. */
  const Colors: map<string, string> := map[
    "\U{BE68}\U{AC15}" := "#FF4B4B",
    "\U{D30C}\U{B791}" := "#1E90FF",
    "\U{CD08}\U{B85D}" := "#00C897"]

  predicate IsHangulSyllable(ch: char) {
    '\U{AC00}' <= ch <= '\U{D7A3}'
  }

  /** The Korean colour word, used both as the displayed word and as the button label. */
  function Label(c: ColorName): (s: string)
    ensures s in Colors
    ensures |s| == 2 && IsHangulSyllable(s[0]) && IsHangulSyllable(s[1])
  {
    match c
    case Red => "\U{BE68}\U{AC15}"
    case Blue => "\U{D30C}\U{B791}"
    case Green => "\U{CD08}\U{B85D}"
  }

  /** The CSS colour the word is rendered in when this colour is the colour key. */
  function Hex(c: ColorName): (s: string)
    ensures Label(c) in Colors && Colors[Label(c)] == s
  {
    match c
    case Red => "#FF4B4B"
    case Blue => "#1E90FF"
    case Green => "#00C897"
  }

  lemma LabelsDistinct(a: ColorName, b: ColorName)
    ensures Label(a) == Label(b) <==> a == b
  {
    if a != b {
      assert Label(a)[0] != Label(b)[0];
    }
  }

  /**
   * The Stroop test: the clicked button's label is compared with the colour
   * key, the colour the word is rendered in. The displayed word is not an
   * argument, so it takes no part in the judgement.
   */
  predicate StroopCorrect(colorKey: ColorName, clicked: ColorName): (r: bool)
    ensures r <==> clicked == colorKey
  {
    LabelsDistinct(clicked, colorKey);
    Label(clicked) == Label(colorKey)
  }

  /** Number of digits the digit-span test shows. */
  const SpanLength := 5

  /** Joins the decimal characters of the drawn digits. */
  function DigitString(ds: seq<Digit>): (s: string)
    ensures |s| == |ds|
    ensures forall i :: 0 <= i < |ds| ==> s[i] == DigitChar(ds[i])
  {
    if ds == [] then [] else [DigitChar(ds[0])] + DigitString(ds[1..])
  }

  /** Reads a digit string back into its digits. */
  function DigitsOf(s: string): (ds: seq<Digit>)
    requires AllDigits(s)
    ensures |ds| == |s|
  {
    if s == [] then [] else [DigitValue(s[0])] + DigitsOf(s[1..])
  }

  lemma {:induction false} DigitsOfDigitString(ds: seq<Digit>)
    ensures AllDigits(DigitString(ds)) && DigitsOf(DigitString(ds)) == ds
  {
    if ds != [] {
      DigitsOfDigitString(ds[1..]);
      assert DigitString(ds)[1..] == DigitString(ds[1..]);
    }
  }

  /** Two draws show the same string exactly when they are the same digits. */
  lemma DigitStringInjective(a: seq<Digit>, b: seq<Digit>)
    ensures DigitString(a) == DigitString(b) <==> a == b
  {
    if DigitString(a) == DigitString(b) {
      DigitsOfDigitString(a);
      DigitsOfDigitString(b);
    }
  }

  /** The quiz string of the digit-span test, built from five injected draws. */
  function QuizNumbers(draws: seq<Digit>): (s: string)
    requires |draws| == SpanLength
    ensures |s| == SpanLength && AllDigits(s)
    ensures DigitsOf(s) == draws
  {
    DigitsOfDigitString(draws);
    DigitString(draws)
  }
}
