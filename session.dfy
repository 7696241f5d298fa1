/**
 * The quiz session as the object `main` (main.py) keeps in local
 * variables and closures: each click handler updates its fields in
 * place. Every method is specified by the matching transition of the
 * Quiz module, and keeps its invariant.
 */
module Game {
  import opened Keyboard
  import opened Layout
  import opened Chords
  import opened Quiz

  class Session {
    var phase: Phase
    var numNotes: nat
    var chord: seq<int>
    var guess: seq<int>
    var correct: nat
    var total: nat

    /** The session's fields as a value of the Quiz module. */
    function State(): QuizState
      reads this
    {
      QuizState(phase, numNotes, chord, guess, correct, total)
    }

    ghost predicate Valid()
      reads this
    {
      Quiz.Valid(State())
    }

    /** Entering `main`: the cover page with no mode chosen. */
    constructor ()
      ensures Valid() && State() == Initial
    {
      phase, numNotes, chord, guess, correct, total := ModeSelect, DefaultNotes, [], [], 0, 0;
    }

    /**
     * A click on the cover page. On a mode button, play starts: the chord
     * of the chosen size is generated from `draws` and the score is zero.
     */
    method ClickCover(x: int, y: int, draws: seq<nat>)
      requires Valid() && phase == ModeSelect
      requires RandomDraws(draws, 4)
      modifies this
      ensures Valid()
      ensures State() == AfterModeClick(old(State()), x, y, chord)
    {
      var selected, notes := SelectMode(x, y);
      if selected {
        ModeAtIff(x, y, notes);
        var c := GenerateChord(notes, draws);
        phase, numNotes, chord, guess, correct, total := Playing, notes, c, [], 0, 0;
      }
      CoverClick(old(State()), x, y, chord);
    }

    /** `draw_notes_feedback_and_counter`'s scoring: a guess as long as the chord is graded. */
    method Grade()
      requires Valid()
      modifies this
      ensures Valid()
      ensures State() == Graded(old(State()))
    {
      if |guess| == numNotes {
        if SameNotes(guess, chord) {
          correct := correct + 1;
        }
        total := total + 1;
      }
    }

    /** A piano key was hit: its pitch joins the guess while there is room, then the feedback is redrawn. */
    method PressKey(p: int)
      requires Valid() && phase == Playing
      requires LowestNote <= p <= HighestNote
      modifies this
      ensures Valid()
      ensures State() == AfterKey(old(State()), p)
    {
      KeyPress(State(), p);
      if |guess| < numNotes {
        guess := guess + [p];
        Grade();
      }
    }

    /** Recall: the last guessed pitch is removed, if there is one. */
    method Recall()
      requires Valid() && phase == Playing
      modifies this
      ensures Valid()
      ensures State() == AfterRecall(old(State()))
    {
      RecallDropsLast(State());
      if guess != [] {
        guess := guess[..|guess| - 1];
        Grade();
      }
    }

    /** Next: the guess is emptied and a new chord of the session's size is generated from `draws`. */
    method Next(draws: seq<nat>)
      requires Valid() && phase == Playing
      requires RandomDraws(draws, numNotes)
      modifies this
      ensures Valid() && IsChord(chord, numNotes)
      ensures State() == AfterNext(old(State()), chord)
    {
      var c := GenerateChord(numNotes, draws);
      NextRound(State(), c);
      guess, chord := [], c;
    }

    /** Home: back to the cover page, discarding mode, chord, guess and score. */
    method Home()
      modifies this
      ensures Valid() && State() == Initial
    {
      phase, numNotes, chord, guess, correct, total := ModeSelect, DefaultNotes, [], [], 0, 0;
    }

    /** The window's close signal. */
    method Quit()
      modifies this
      ensures Valid()
      ensures State() == AfterQuit(old(State()))
    {
      phase := Terminated;
    }

    /**
     * A click on the piano screen: the button handlers in the source's
     * order, then, unless Home was hit, the keyboard below the control bar.
     * Play Again only sounds the chord and changes nothing here.
     */
    method Click(x: int, y: int, draws: seq<nat>)
      requires Valid() && phase == Playing
      requires RandomDraws(draws, numNotes)
      modifies this
      ensures Valid()
      ensures State() == AfterClick(old(State()), x, y, chord)
    {
      ghost var before := State();
      if Collides(PlayAgainButton, x, y) {
      } else if Collides(NextButton, x, y) {
        Next(draws);
      } else if Collides(RecallButton, x, y) && guess != [] {
        Recall();
      } else if Collides(HomeButton, x, y) {
        Home();
        return;
      }
      if y > KeyboardTop {
        var hit := KeyAt(x, y - KeyboardTop);
        KeyAtRange(x, y - KeyboardTop);
        match hit
        case Pitch(p) => PressKey(p);
        case NoKey =>
        case IndexError => phase := Terminated;
      }
      ScreenClick(before, x, y, chord);
    }
  }
}
