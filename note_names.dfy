/**
 * Spelling a MIDI pitch as a note name (main.py, `midi_to_note_name`):
 * the pitch-class name followed by the octave number `p // 12 - 1`,
 * so that middle C (60) reads "C4".
 *
 * Python's `%` and `//` round toward minus infinity; for the positive
 * divisor 12 they agree with Dafny's Euclidean `%` and `/` on every
 * integer, negative pitches included.
 */
module NoteNames {
  import opened Wrappers

  /** Pitch-class names, indexed by `pitch % 12`. */
  const Names: seq<string> := ["C", "C#", "D", "D#", "E", "F", "F#", "G", "G#", "A", "A#", "B"]

  predicate IsDigit(c: char) {
    '0' <= c <= '9'
  }

  predicate AllDigits(s: string) {
    forall i :: 0 <= i < |s| ==> IsDigit(s[i])
  }

  function DigitChar(d: nat): (c: char)
    requires d < 10
    ensures IsDigit(c) && c as int - '0' as int == d
  {
    ('0' as int + d) as char
  }

  /** The decimal digits of `n`, most significant first, with no leading zero. */
  function Digits(n: nat): (s: string)
    ensures 0 < |s| && AllDigits(s)
    ensures 1 < |s| ==> s[0] != '0'
  {
    if n < 10 then [DigitChar(n)] else Digits(n / 10) + [DigitChar(n % 10)]
  }

  /** Python's `str` of an integer: a minus sign for negative values, then the digits. */
  function Decimal(n: int): (s: string)
    ensures 0 < |s| && (IsDigit(s[0]) || s[0] == '-')
  {
    if n < 0 then "-" + Digits(-n) else Digits(n)
  }

  /** The value of a string of decimal digits. */
  function DigitsValue(s: string): nat
    requires AllDigits(s)
  {
    if s == [] then 0 else 10 * DigitsValue(s[..|s| - 1]) + (s[|s| - 1] as int - '0' as int)
  }

  /** Reads back what `Decimal` writes: an optional minus sign and at least one digit. */
  function ParseDecimal(s: string): Option<int> {
    if 0 < |s| && s[0] == '-' then
      if 1 < |s| && AllDigits(s[1..]) then Some(-(DigitsValue(s[1..]) as int)) else None
    else if 0 < |s| && AllDigits(s) then Some(DigitsValue(s))
    else None
  }

  lemma {:induction false} DigitsRoundTrip(n: nat)
    ensures DigitsValue(Digits(n)) == n
  {
    if 10 <= n {
      var s := Digits(n);
      assert s[..|s| - 1] == Digits(n / 10);
      DigitsRoundTrip(n / 10);
    }
  }

  lemma DecimalRoundTrip(n: int)
    ensures ParseDecimal(Decimal(n)) == Some(n)
  {
    if n < 0 {
      assert Decimal(n)[1..] == Digits(-n);
      DigitsRoundTrip(-n);
    } else {
      DigitsRoundTrip(n);
    }
  }

  /** `midi_to_note_name`: the name of `pitch % 12` followed by the octave `pitch // 12 - 1`. */
  function NoteName(pitch: int): string {
    Names[pitch % 12] + Decimal(pitch / 12 - 1)
  }

  /** The position of `name` in `names`, if it occurs. */
  function IndexOf(names: seq<string>, name: string): (r: Option<nat>)
    ensures r.Some? ==> r.value < |names| && names[r.value] == name
    ensures r.None? ==> name !in names
  {
    if names == [] then None
    else if names[0] == name then Some(0)
    else match IndexOf(names[1..], name)
      case None => None
      case Some(k) => Some(k + 1)
  }

  /** Reads a note name back into a pitch: a pitch-class name, then a decimal octave. */
  function ParseNoteName(s: string): Option<int> {
    var split := if 2 <= |s| && s[1] == '#' then 2 else 1;
    if |s| < split then None
    else match IndexOf(Names, s[..split])
      case None => None
      case Some(k) =>
        match ParseDecimal(s[split..])
        case None => None
        case Some(octave) => Some((octave + 1) * 12 + k)
  }

  lemma NamesIndex(k: nat)
    requires k < |Names|
    ensures IndexOf(Names, Names[k]) == Some(k)
  {
    assert forall i, j :: 0 <= i < j < |Names| ==> Names[i] != Names[j];
  }

  /** Every name is one letter, optionally followed by a sharp sign. */
  lemma NamesShape(k: nat)
    requires k < |Names|
    ensures |Names[k]| == 1 || (|Names[k]| == 2 && Names[k][1] == '#')
  {
  }

  /** The note name determines the pitch: `ParseNoteName` undoes `NoteName` for every integer. */
  lemma NoteNameRoundTrip(pitch: int)
    ensures ParseNoteName(NoteName(pitch)) == Some(pitch)
  {
    var k, octave := pitch % 12, pitch / 12 - 1;
    var name, digits := Names[k], Decimal(octave);
    var s := NoteName(pitch);
    assert s == name + digits;
    NamesShape(k);
    var split := if 2 <= |s| && s[1] == '#' then 2 else 1;
    assert split == |name|;
    assert s[..split] == name;
    assert s[split..] == digits;
    NamesIndex(k);
    DecimalRoundTrip(octave);
  }

  /** Two different pitches never print the same name. */
  lemma NoteNameInjective(p: int, q: int)
    requires NoteName(p) == NoteName(q)
    ensures p == q
  {
    NoteNameRoundTrip(p);
    NoteNameRoundTrip(q);
  }

  /** Sample spellings. */
  lemma NoteNameExamples()
    ensures NoteName(60) == "C4" && NoteName(61) == "C#4" && NoteName(72) == "C5"
  {
  }
}
