/**
 * Hit-testing the on-screen piano (main.py, `get_note_from_position`).
 * Coordinates are relative to the top of the keyboard. Eight white keys
 * are 100-pixel-wide columns; five black keys cover narrow bands of the
 * upper 150 pixels and take priority there. Band edges are exclusive.
 */
module Keyboard {
  import opened Wrappers

  /**
   * What the hit test yields: a pitch, Python's `None`, or the `IndexError`
   * Python raises when `x // 100` is below -8 (a negative index from -1
   * to -8 wraps around to the end of the white-key list instead).
   */
  datatype KeyHit = Pitch(pitch: int) | NoKey | IndexError

  /** The white keys from left to right: C4 D4 E4 F4 G4 A4 B4 C5. */
  const WhiteKeys: seq<int> := [60, 62, 64, 65, 67, 69, 71, 72]
  const WhiteKeyWidth: int := 100
  /** A click at or above this height may land on a black key. */
  const BlackKeyHeight: int := 150

  /** A black key: the open horizontal interval (lo, hi) and its pitch. */
  datatype Band = Band(lo: int, hi: int, pitch: int)

  /** The black keys in the order the source lists them. */
  const BlackKeys: seq<Band> :=
    [Band(70, 120, 61), Band(170, 220, 63), Band(370, 420, 66), Band(470, 520, 68), Band(570, 620, 70)]

  predicate InBand(b: Band, x: int) {
    b.lo < x < b.hi
  }

  /** No two bands of the list overlap, whatever order they are listed in. */
  predicate Disjoint(bands: seq<Band>) {
    forall i, j :: 0 <= i < |bands| && 0 <= j < |bands| && i != j ==>
      bands[i].hi <= bands[j].lo || bands[j].hi <= bands[i].lo
  }

  /** The pitch of the first band, in list order, that strictly contains `x`. */
  function BlackKeyAt(bands: seq<Band>, x: int): (r: Option<int>)
    ensures r.Some? ==> exists i :: 0 <= i < |bands| && InBand(bands[i], x) && bands[i].pitch == r.value
    ensures r.None? ==> forall i :: 0 <= i < |bands| ==> !InBand(bands[i], x)
  {
    if bands == [] then None
    else if InBand(bands[0], x) then Some(bands[0].pitch)
    else
      var r := BlackKeyAt(bands[1..], x);
      assert forall i :: 1 <= i < |bands| ==> bands[i] == bands[1..][i - 1];
      r
  }

  /** The white key under column `x // 100`, with Python's list indexing. */
  function WhiteKeyAt(x: int): KeyHit {
    var i := x / WhiteKeyWidth;
    if i >= |WhiteKeys| then NoKey
    else if i >= 0 then Pitch(WhiteKeys[i])
    else if i >= -|WhiteKeys| then Pitch(WhiteKeys[|WhiteKeys| + i])
    else IndexError
  }

  /** `get_note_from_position(x, y)`. */
  function KeyAt(x: int, y: int): KeyHit {
    var black := if y <= BlackKeyHeight then BlackKeyAt(BlackKeys, x) else None;
    if black.Some? then Pitch(black.value) else WhiteKeyAt(x)
  }

  lemma BlackKeysDisjoint()
    ensures Disjoint(BlackKeys)
  {
  }

  /** In a list of non-overlapping bands, the search finds the one band that contains `x`. */
  lemma {:induction false} BlackKeyAtUnique(bands: seq<Band>, x: int, k: nat)
    requires Disjoint(bands)
    requires k < |bands| && InBand(bands[k], x)
    ensures BlackKeyAt(bands, x) == Some(bands[k].pitch)
  {
    if k > 0 {
      assert !InBand(bands[0], x);
      assert Disjoint(bands[1..]) by {
        forall i, j | 0 <= i < |bands[1..]| && 0 <= j < |bands[1..]| && i != j
          ensures bands[1..][i].hi <= bands[1..][j].lo || bands[1..][j].hi <= bands[1..][i].lo
        {
          assert bands[1..][i] == bands[i + 1] && bands[1..][j] == bands[j + 1];
        }
      }
      assert bands[1..][k - 1] == bands[k];
      BlackKeyAtUnique(bands[1..], x, k - 1);
    }
  }

  /** At most one black key lies under any x. */
  lemma AtMostOneBlackKey(x: int, i: nat, j: nat)
    requires i < |BlackKeys| && j < |BlackKeys|
    requires InBand(BlackKeys[i], x) && InBand(BlackKeys[j], x)
    ensures i == j
  {
    BlackKeysDisjoint();
  }

  /**
   * The hit test does not depend on the order in which the black keys are
   * listed: any rearrangement of the five bands finds the same key.
   */
  lemma BlackKeysAnyOrder(bands: seq<Band>, x: int)
    requires multiset(bands) == multiset(BlackKeys)
    ensures BlackKeyAt(bands, x) == BlackKeyAt(BlackKeys, x)
  {
    match BlackKeyAt(bands, x)
    case Some(p) =>
      var i :| 0 <= i < |bands| && InBand(bands[i], x) && bands[i].pitch == p;
      assert bands[i] in multiset(BlackKeys);
      var k :| 0 <= k < |BlackKeys| && BlackKeys[k] == bands[i];
      BlackKeysDisjoint();
      BlackKeyAtUnique(BlackKeys, x, k);
    case None =>
      forall k | 0 <= k < |BlackKeys| ensures !InBand(BlackKeys[k], x) {
        assert BlackKeys[k] in multiset(bands);
        var i :| 0 <= i < |bands| && bands[i] == BlackKeys[k];
      }
  }

  /** A click in the upper band strictly inside a black key's interval gives that key's pitch. */
  lemma KeyAtBlack(x: int, y: int, k: nat)
    requires y <= BlackKeyHeight
    requires k < |BlackKeys| && InBand(BlackKeys[k], x)
    ensures KeyAt(x, y) == Pitch(BlackKeys[k].pitch)
  {
    BlackKeysDisjoint();
    BlackKeyAtUnique(BlackKeys, x, k);
  }

  /** Everywhere else a non-negative x selects the white-key column `x // 100`, or nothing past the eighth. */
  lemma KeyAtWhite(x: int, y: int)
    requires 0 <= x
    requires y > BlackKeyHeight || forall k :: 0 <= k < |BlackKeys| ==> !InBand(BlackKeys[k], x)
    ensures KeyAt(x, y) == if x / WhiteKeyWidth < |WhiteKeys| then Pitch(WhiteKeys[x / WhiteKeyWidth]) else NoKey
  {
  }

  /**
   * Left of the window, Python's negative indexing wraps around: columns
   * -8..-1 select the white keys counted from the right-hand end.
   */
  lemma KeyAtWrap(x: int, y: int)
    requires -|WhiteKeys| * WhiteKeyWidth <= x < 0
    ensures KeyAt(x, y) == Pitch(WhiteKeys[|WhiteKeys| + x / WhiteKeyWidth])
  {
    if y <= BlackKeyHeight {
      if BlackKeyAt(BlackKeys, x).Some? {
        var i :| 0 <= i < |BlackKeys| && InBand(BlackKeys[i], x) && BlackKeys[i].pitch == BlackKeyAt(BlackKeys, x).value;
        assert false;
      }
    }
  }

  /** Every pitch the keyboard yields lies in 60..72, and only a click far left of the window raises. */
  lemma KeyAtRange(x: int, y: int)
    ensures KeyAt(x, y).Pitch? ==> 60 <= KeyAt(x, y).pitch <= 72
    ensures KeyAt(x, y).IndexError? <==> x < -|WhiteKeys| * WhiteKeyWidth
    ensures 0 <= x < |WhiteKeys| * WhiteKeyWidth ==> KeyAt(x, y).Pitch?
  {
    var black := if y <= BlackKeyHeight then BlackKeyAt(BlackKeys, x) else None;
    if black.Some? {
      var i :| 0 <= i < |BlackKeys| && InBand(BlackKeys[i], x) && BlackKeys[i].pitch == black.value;
    }
  }

  /** Every pitch of the chord range 60..72 has a spot on the keyboard that plays it. */
  lemma EveryNoteOnKeyboard(p: int)
    requires 60 <= p <= 72
    ensures exists x, y :: 0 <= x < 800 && 0 < y < 300 && KeyAt(x, y) == Pitch(p)
  {
    if p in WhiteKeys {
      var w :| 0 <= w < |WhiteKeys| && WhiteKeys[w] == p;
      var x := w * WhiteKeyWidth + 10;
      KeyAtWhite(x, 200);
      assert KeyAt(x, 200) == Pitch(p);
    } else {
      assert p in {61, 63, 66, 68, 70};
      var k := if p == 61 then 0 else if p == 63 then 1 else if p == 66 then 2 else if p == 68 then 3 else 4;
      var x := BlackKeys[k].lo + 1;
      KeyAtBlack(x, 50, k);
      assert KeyAt(x, 50) == Pitch(p);
    }
  }

  /** Sample clicks, including an exclusive band edge. */
  lemma KeyAtExamples()
    ensures KeyAt(75, 50) == Pitch(61)
    ensures KeyAt(10, 250) == Pitch(60)
    ensures KeyAt(70, 50) == Pitch(60)
    ensures KeyAt(800, 200) == NoKey
  {
    KeyAtBlack(75, 50, 0);
  }
}
