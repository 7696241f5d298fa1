/**
 * The clickable rectangles of the two screens (main.py): the four mode
 * buttons of the cover page and the four control buttons above the piano,
 * and the mode-selection hit test run on each cover-page click.
 */
module Layout {
  import opened Wrappers

  /** `pygame.Rect(left, top, width, height)`. */
  datatype Rect = Rect(left: int, top: int, width: int, height: int)

  /** `Rect.collidepoint`: left and top edges belong to the rectangle, right and bottom edges do not. */
  predicate Collides(r: Rect, x: int, y: int) {
    r.left <= x < r.left + r.width && r.top <= y < r.top + r.height
  }

  /** No point collides with both rectangles. */
  predicate Apart(a: Rect, b: Rect) {
    a.left + a.width <= b.left || b.left + b.width <= a.left ||
    a.top + a.height <= b.top || b.top + b.height <= a.top
  }

  /** A cover-page button and the chord size it selects. */
  datatype ModeButton = ModeButton(text: string, rect: Rect, notes: nat)

  /** The cover page's buttons, in the order the source lists them. */
  const ModeButtons: seq<ModeButton> := [
    ModeButton("Single Note", Rect(100, 150, 250, 40), 1),
    ModeButton("Two Notes", Rect(360, 150, 250, 40), 2),
    ModeButton("Three Notes", Rect(100, 200, 250, 40), 3),
    ModeButton("Four Notes", Rect(360, 200, 250, 40), 4)
  ]

  /** The chord size held before any mode is chosen. */
  const DefaultNotes: nat := 2

  /** The piano is drawn this many pixels below the top of the window. */
  const KeyboardTop: int := 100

  const PlayAgainButton: Rect := Rect(600, 10, 100, 30)
  const NextButton: Rect := Rect(710, 10, 80, 30)
  const RecallButton: Rect := Rect(600, 50, 95, 30)
  const HomeButton: Rect := Rect(705, 50, 95, 30)

  /** The chord size of the first button, in list order, under the click. */
  function ModeAt(buttons: seq<ModeButton>, x: int, y: int): (r: Option<nat>)
    ensures r.Some? ==> exists k :: 0 <= k < |buttons| && Collides(buttons[k].rect, x, y) && buttons[k].notes == r.value
    ensures r.None? ==> forall k :: 0 <= k < |buttons| ==> !Collides(buttons[k].rect, x, y)
  {
    if buttons == [] then None
    else if Collides(buttons[0].rect, x, y) then Some(buttons[0].notes)
    else
      var r := ModeAt(buttons[1..], x, y);
      assert forall k :: 1 <= k < |buttons| ==> buttons[k] == buttons[1..][k - 1];
      r
  }

  /**
   * The cover page's click handler: scans the buttons in order, and on the
   * first one under the click records its chord size and stops.
   */
  method SelectMode(x: int, y: int) returns (selected: bool, notes: nat)
    ensures selected <==> ModeAt(ModeButtons, x, y).Some?
    ensures notes == if selected then ModeAt(ModeButtons, x, y).value else DefaultNotes
  {
    selected, notes := false, DefaultNotes;
    var i := 0;
    while i < |ModeButtons|
      invariant 0 <= i <= |ModeButtons|
      invariant ModeAt(ModeButtons, x, y) == ModeAt(ModeButtons[i..], x, y)
    {
      if Collides(ModeButtons[i].rect, x, y) {
        selected, notes := true, ModeButtons[i].notes;
        break;
      }
      assert ModeButtons[i..][1..] == ModeButtons[i + 1..];
      i := i + 1;
    }
  }

  lemma ModeButtonsApart()
    ensures forall i, j :: 0 <= i < j < |ModeButtons| ==> Apart(ModeButtons[i].rect, ModeButtons[j].rect)
  {
  }

  /**
   * A click selects chord size n exactly when it lands on the button for n;
   * the buttons do not overlap, so the order of the scan does not matter,
   * and every size offered is 1 to 4.
   */
  lemma {:induction false} ModeAtIff(x: int, y: int, n: nat)
    ensures ModeAt(ModeButtons, x, y) == Some(n) <==>
      exists k :: 0 <= k < |ModeButtons| && Collides(ModeButtons[k].rect, x, y) && ModeButtons[k].notes == n
    ensures ModeAt(ModeButtons, x, y).Some? ==> 1 <= ModeAt(ModeButtons, x, y).value <= 4
  {
    ModeButtonsApart();
    if exists k :: 0 <= k < |ModeButtons| && Collides(ModeButtons[k].rect, x, y) && ModeButtons[k].notes == n {
      var k :| 0 <= k < |ModeButtons| && Collides(ModeButtons[k].rect, x, y) && ModeButtons[k].notes == n;
      var r := ModeAt(ModeButtons, x, y);
      var j :| 0 <= j < |ModeButtons| && Collides(ModeButtons[j].rect, x, y) && ModeButtons[j].notes == r.value;
      assert j == k;
    }
  }

  /** A click outside all four buttons leaves the mode unselected. */
  lemma ModeAtMiss(x: int, y: int)
    requires forall k :: 0 <= k < |ModeButtons| ==> !Collides(ModeButtons[k].rect, x, y)
    ensures ModeAt(ModeButtons, x, y) == None
  {
  }

  /** The four control buttons do not overlap and all lie above the piano. */
  lemma ControlButtonsLayout(x: int, y: int)
    ensures Apart(PlayAgainButton, NextButton) && Apart(PlayAgainButton, RecallButton) && Apart(PlayAgainButton, HomeButton)
    ensures Apart(NextButton, RecallButton) && Apart(NextButton, HomeButton) && Apart(RecallButton, HomeButton)
    ensures (Collides(PlayAgainButton, x, y) || Collides(NextButton, x, y) ||
             Collides(RecallButton, x, y) || Collides(HomeButton, x, y)) ==> y < KeyboardTop
  {
  }
}
