/**
 * The quiz session of `main` (main.py) as a state and the transitions
 * its click handlers make: choosing a mode on the cover page, pressing a
 * piano key, Recall, Next, Home and quitting. Grading happens each time
 * the feedback area is redrawn with a guess as long as the chord.
 */
module Quiz {
  import opened Keyboard
  import opened Layout
  import opened Chords

  /** The loop `main` is in: the cover page, the piano screen, or neither once the process ends. */
  datatype Phase = ModeSelect | Playing | Terminated

  /**
   * `num_notes_in_chord`, `chord`, `user_notes`, `correct_answers` and
   * `total_trials`, with the phase they belong to.
   */
  datatype QuizState = QuizState(phase: Phase, numNotes: nat, chord: seq<int>, guess: seq<int>, correct: nat, total: nat)

  /** Where `main` starts and where Home returns: the cover page, no mode chosen, no score. */
  const Initial: QuizState := QuizState(ModeSelect, DefaultNotes, [], [], 0, 0)

  /**
   * The session invariant: on the cover page nothing is held; while
   * playing, the chord has the chosen size of 1 to 4 distinct notes, the
   * guess never outgrows it, and no more answers are right than were graded.
   */
  predicate Valid(q: QuizState) {
    (q.phase == ModeSelect ==> q == Initial) &&
    (q.phase == Playing ==>
      1 <= q.numNotes <= 4 && IsChord(q.chord, q.numNotes) &&
      |q.guess| <= q.numNotes && InRange(q.guess) && q.correct <= q.total)
  }

  /** The grading inside `draw_notes_feedback_and_counter`: a guess as long as the chord is scored once. */
  function Graded(q: QuizState): QuizState {
    if |q.guess| == q.numNotes then
      q.(correct := if SameNotes(q.guess, q.chord) then q.correct + 1 else q.correct, total := q.total + 1)
    else q
  }

  /** A piano key under the click: appended and graded only while the guess has room. */
  function AfterKey(q: QuizState, p: int): QuizState {
    if |q.guess| < q.numNotes then Graded(q.(guess := q.guess + [p])) else q
  }

  /** Recall with a non-empty guess pops its last pitch and redraws the feedback. */
  function AfterRecall(q: QuizState): QuizState {
    if q.guess != [] then Graded(q.(guess := q.guess[..|q.guess| - 1])) else q
  }

  /** Next: an empty guess and the freshly generated chord `c`. */
  function AfterNext(q: QuizState, c: seq<int>): QuizState {
    q.(guess := [], chord := c)
  }

  /**
   * The keyboard part of the click handler: below the control bar the
   * position, shifted to the piano's coordinates, is hit-tested. An
   * `IndexError` is not caught and ends the process.
   */
  function AfterKeyboard(q: QuizState, x: int, y: int): QuizState {
    if y > KeyboardTop then
      match KeyAt(x, y - KeyboardTop)
      case Pitch(p) => AfterKey(q, p)
      case NoKey => q
      case IndexError => q.(phase := Terminated)
    else q
  }

  /**
   * A click on the piano screen. The buttons are tested in the source's
   * order (Play Again, Next, Recall with a non-empty guess, Home); Home
   * leaves `main` at once, every other case goes on to the keyboard test.
   * `c` is the chord Next generates. Play Again only sounds the chord.
   */
  function AfterClick(q: QuizState, x: int, y: int, c: seq<int>): QuizState {
    if Collides(PlayAgainButton, x, y) then AfterKeyboard(q, x, y)
    else if Collides(NextButton, x, y) then AfterKeyboard(AfterNext(q, c), x, y)
    else if Collides(RecallButton, x, y) && q.guess != [] then AfterKeyboard(AfterRecall(q), x, y)
    else if Collides(HomeButton, x, y) then Initial
    else AfterKeyboard(q, x, y)
  }

  /** A click on the cover page: a mode button starts play with chord `c` and a zero score. */
  function AfterModeClick(q: QuizState, x: int, y: int, c: seq<int>): QuizState {
    match ModeAt(ModeButtons, x, y)
    case Some(n) => QuizState(Playing, n, c, [], 0, 0)
    case None => q
  }

  /** The window's close signal ends the process from either screen. */
  function AfterQuit(q: QuizState): QuizState {
    q.(phase := Terminated)
  }

  /**
   * A key press appends the pitch exactly when the guess has room; the
   * score moves only when that append fills the guess, then the total by
   * one and the correct count by one iff the guess matches the chord as a set.
   */
  lemma KeyPress(q: QuizState, p: int)
    requires Valid(q) && q.phase == Playing
    requires LowestNote <= p <= HighestNote
    ensures var r := AfterKey(q, p);
      Valid(r) && r.phase == Playing && r.numNotes == q.numNotes && r.chord == q.chord &&
      r.guess == (if |q.guess| < q.numNotes then q.guess + [p] else q.guess) &&
      (r.total == q.total + 1 <==> |q.guess| < q.numNotes && |r.guess| == q.numNotes) &&
      (r.total == q.total || r.total == q.total + 1) &&
      (r.correct == q.correct + 1 <==> r.total == q.total + 1 && SameNotes(r.guess, q.chord)) &&
      (r.correct == q.correct || r.correct == q.correct + 1)
  {
    if |q.guess| < q.numNotes {
      var g := q.guess + [p];
      assert InRange(g) by {
        forall i | 0 <= i < |g| ensures LowestNote <= g[i] <= HighestNote {
          if i < |q.guess| { assert g[i] == q.guess[i]; }
        }
      }
    }
  }

  /** Once the guess is full, further keys change nothing: the same guess is never graded twice by clicking on. */
  lemma FullGuessIgnoresKeys(q: QuizState, p: int)
    requires Valid(q) && q.phase == Playing && |q.guess| == q.numNotes
    ensures AfterKey(q, p) == q
  {
  }

  /** Recall drops exactly the last pitch, leaves an empty guess alone, and never grades. */
  lemma RecallDropsLast(q: QuizState)
    requires Valid(q) && q.phase == Playing
    ensures AfterRecall(q) == if q.guess == [] then q else q.(guess := q.guess[..|q.guess| - 1])
    ensures Valid(AfterRecall(q))
  {
    if q.guess != [] {
      var g := q.guess[..|q.guess| - 1];
      assert InRange(g) by {
        forall i | 0 <= i < |g| ensures LowestNote <= g[i] <= HighestNote {
          assert g[i] == q.guess[i];
        }
      }
    }
  }

  /**
   * The source's re-grading quirk: Recall on a full guess followed by a
   * new key grades the same chord again, so one chord can add more than
   * one trial.
   */
  lemma RegradeAfterRecall(q: QuizState, p: int)
    requires Valid(q) && q.phase == Playing && |q.guess| == q.numNotes
    requires LowestNote <= p <= HighestNote
    ensures var r := AfterKey(AfterRecall(q), p);
      r.chord == q.chord && r.guess == q.guess[..|q.guess| - 1] + [p] &&
      r.total == q.total + 1 &&
      (r.correct == q.correct + 1 <==> SameNotes(r.guess, q.chord))
  {
    RecallDropsLast(q);
    KeyPress(AfterRecall(q), p);
  }

  /** Next keeps the mode and the score, empties the guess and installs a chord of the same size. */
  lemma NextRound(q: QuizState, c: seq<int>)
    requires Valid(q) && q.phase == Playing && IsChord(c, q.numNotes)
    ensures var r := AfterNext(q, c);
      Valid(r) && r.guess == [] && r.chord == c && |r.chord| == |q.chord| &&
      r.numNotes == q.numNotes && r.correct == q.correct && r.total == q.total
  {
  }

  /** The keyboard part of a click keeps the invariant and grades at most once. */
  lemma KeyboardClick(q: QuizState, x: int, y: int)
    requires Valid(q) && q.phase == Playing
    ensures var r := AfterKeyboard(q, x, y);
      Valid(r) && r.numNotes == q.numNotes && r.chord == q.chord &&
      (r.phase == Terminated <==> y > KeyboardTop && x < -|WhiteKeys| * WhiteKeyWidth) &&
      (r.phase != Terminated ==> r.phase == Playing) &&
      (y <= KeyboardTop ==> r == q) &&
      q.correct <= r.correct && r.correct - q.correct <= r.total - q.total <= 1
  {
    if y > KeyboardTop {
      KeyAtRange(x, y - KeyboardTop);
      match KeyAt(x, y - KeyboardTop)
      case Pitch(p) => KeyPress(q, p);
      case NoKey =>
      case IndexError =>
    }
  }

  /**
   * Every click on the piano screen keeps the invariant. Home goes back
   * to the cover page with everything discarded; otherwise the mode
   * stays, the score never decreases, and at most one trial is graded.
   */
  lemma {:induction false} ScreenClick(q: QuizState, x: int, y: int, c: seq<int>)
    requires Valid(q) && q.phase == Playing
    requires Collides(NextButton, x, y) ==> IsChord(c, q.numNotes)
    ensures var r := AfterClick(q, x, y, c);
      Valid(r) &&
      (r.phase == ModeSelect <==> Collides(HomeButton, x, y)) &&
      (0 <= x ==> r.phase != Terminated) &&
      (r.phase == Playing ==>
        r.numNotes == q.numNotes &&
        q.correct <= r.correct && q.total <= r.total && r.total <= q.total + 1 &&
        r.correct - q.correct <= r.total - q.total)
  {
    ControlButtonsLayout(x, y);
    if Collides(PlayAgainButton, x, y) {
      KeyboardClick(q, x, y);
    } else if Collides(NextButton, x, y) {
      NextRound(q, c);
      KeyboardClick(AfterNext(q, c), x, y);
    } else if Collides(RecallButton, x, y) && q.guess != [] {
      RecallDropsLast(q);
      KeyboardClick(AfterRecall(q), x, y);
    } else if !Collides(HomeButton, x, y) {
      KeyboardClick(q, x, y);
    }
  }

  /** A cover-page click either starts a round of the chosen size with a zero score or changes nothing. */
  lemma CoverClick(q: QuizState, x: int, y: int, c: seq<int>)
    requires Valid(q) && q.phase == ModeSelect
    requires ModeAt(ModeButtons, x, y).Some? ==> IsChord(c, ModeAt(ModeButtons, x, y).value)
    ensures var r := AfterModeClick(q, x, y, c);
      Valid(r) &&
      (r.phase == Playing <==> ModeAt(ModeButtons, x, y).Some?) &&
      (r.phase == Playing ==> 1 <= r.numNotes <= 4 && r.guess == [] && r.correct == 0 && r.total == 0) &&
      (r.phase != Playing ==> r == q)
  {
    var m := ModeAt(ModeButtons, x, y);
    if m.Some? {
      ModeAtIff(x, y, m.value);
    }
  }

  /**
   * A whole round: choose Two Notes, hear the chord C4 E4, click E4 then
   * C4 (the reverse order), see 1/1, then Next empties the guess and
   * keeps the score.
   */
  lemma TwoNoteRound(next: seq<int>)
    requires IsChord(next, 2)
    ensures var started := AfterModeClick(Initial, 400, 160, [60, 64]);
      var first := AfterClick(started, 250, 300, next);
      var second := AfterClick(first, 10, 350, next);
      var after := AfterClick(second, 720, 20, next);
      started.phase == Playing && started.numNotes == 2 &&
      first.guess == [64] && first.total == 0 &&
      second.guess == [64, 60] && second.correct == 1 && second.total == 1 &&
      after.guess == [] && after.chord == next && after.correct == 1 && after.total == 1
  {
    ModeAtIff(400, 160, 2);
    assert (set p | p in [64, 60]) == (set p | p in [60, 64]) by {
      SameNotesOrderFree([64, 60], [60, 64], [60, 64]);
    }
  }
}
