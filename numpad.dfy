/**
 * The on-screen number pad (src/components/NumpadKeyboard.tsx). It keeps
 * no state: each key computes a new amount string from the current one
 * and hands it to `onChange`.
 */
module Numpad {

  /** `value + num`: a number key appends its label. */
  function NumberClick(value: string, num: string): string
  {
    value + num
  }

  /** `.` is appended only when the value has none yet. */
  function DecimalClick(value: string): (r: string)
    ensures '.' in r
    ensures r == value + "." <==> '.' !in value
    ensures r != value + "." ==> r == value
  {
    if '.' !in value then value + "." else value
  }

  /** `value.slice(0, -1)`: drop the last character; the empty string stays empty. */
  function Backspace(value: string): (r: string)
    ensures |r| == if |value| == 0 then 0 else |value| - 1
    ensures r <= value
  {
    if |value| == 0 then "" else value[..|value| - 1]
  }

  /** Clear always hands back the empty string. */
  function Clear(value: string): string
  {
    ""
  }

  /** The display shows "0" for an empty value. */
  function Display(value: string): (shown: string)
    ensures shown != ""
    ensures value != "" ==> shown == value
  {
    if value == "" then "0" else value
  }

  /** The keys of the pad. */
  datatype Key = Number(num: string) | Decimal | BackspaceKey | ClearKey

  /** The number keys are labelled "0" to "9". */
  predicate PadKey(k: Key)
  {
    k.Number? ==> |k.num| == 1 && '0' <= k.num[0] <= '9'
  }

  function Press(value: string, k: Key): string
  {
    match k
    case Number(num) => NumberClick(value, num)
    case Decimal => DecimalClick(value)
    case BackspaceKey => Backspace(value)
    case ClearKey => Clear(value)
  }

  /** The value after pressing the keys in order, each `onChange` fed back as `value`. */
  function Type(value: string, keys: seq<Key>): string
    decreases |keys|
  {
    if keys == [] then value else Type(Press(value, keys[0]), keys[1..])
  }

  /** The number of decimal points in a string. */
  function DotCount(s: string): nat
  {
    if s == [] then 0 else DotCount(s[..|s| - 1]) + (if s[|s| - 1] == '.' then 1 else 0)
  }

  // ---------------------------------------------------------------------
  // Properties
  // ---------------------------------------------------------------------

  /** Appending adds the points of the appended part. */
  lemma {:induction false} DotCountAppend(s: string, t: string)
    ensures DotCount(s + t) == DotCount(s) + DotCount(t)
    decreases |t|
  {
    if t == [] {
      assert s + t == s;
    } else {
      var t' := t[..|t| - 1];
      assert (s + t)[..|s + t| - 1] == s + t';
      assert (s + t)[|s + t| - 1] == t[|t| - 1];
      DotCountAppend(s, t');
    }
  }

  /** A string has no point exactly when its count is zero. */
  lemma {:induction false} NoDotIffZero(s: string)
    ensures DotCount(s) == 0 <==> '.' !in s
    decreases |s|
  {
    if s != [] {
      var init := s[..|s| - 1];
      assert s == init + [s[|s| - 1]];
      NoDotIffZero(init);
    }
  }

  /** A digit key adds no point. */
  lemma DigitHasNoDot(k: Key)
    requires k.Number? && PadKey(k)
    ensures DotCount(k.num) == 0
  {
    assert k.num[..0] == [];
  }

  /** One key press keeps "at most one decimal point". */
  lemma PressKeepsOneDot(value: string, k: Key)
    requires PadKey(k)
    requires DotCount(value) <= 1
    ensures DotCount(Press(value, k)) <= 1
  {
    match k
    case Number(num) =>
      DigitHasNoDot(k);
      DotCountAppend(value, num);
    case Decimal =>
      NoDotIffZero(value);
      DotCountAppend(value, ".");
      assert "."[..0] == [];
    case BackspaceKey =>
    case ClearKey =>
  }

  /** Any sequence of pad keys keeps "at most one decimal point". */
  lemma {:induction false} TypingKeepsOneDot(value: string, keys: seq<Key>)
    requires forall i :: 0 <= i < |keys| ==> PadKey(keys[i])
    requires DotCount(value) <= 1
    ensures DotCount(Type(value, keys)) <= 1
    decreases |keys|
  {
    if keys != [] {
      PressKeepsOneDot(value, keys[0]);
      TypingKeepsOneDot(Press(value, keys[0]), keys[1..]);
    }
  }

  /** Pressing the decimal key twice is pressing it once. */
  lemma DecimalIdempotent(value: string)
    ensures DecimalClick(DecimalClick(value)) == DecimalClick(value)
  {
    if '.' !in value {
      var v := value + ".";
      assert v[|value|] == '.';
    }
  }

  /** Backspace undoes a single-character number key. */
  lemma BackspaceUndoesNumber(value: string, num: string)
    requires |num| == 1
    ensures Backspace(NumberClick(value, num)) == value
  {
    assert (value + num)[..|value|] == value;
  }

  /** A number key extends the value by exactly its label. */
  lemma NumberClickAppends(value: string, num: string)
    ensures |NumberClick(value, num)| == |value| + |num|
    ensures NumberClick(value, num)[..|value|] == value
    ensures NumberClick(value, num)[|value|..] == num
  {
  }

  /** Clear empties any value, and the display then reads "0". */
  lemma ClearShowsZero(value: string)
    ensures Press(value, ClearKey) == ""
    ensures Display(Press(value, ClearKey)) == "0"
  {
  }
}
