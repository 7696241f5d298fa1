# Chord recognizer — a Dafny model of its quiz logic

The chord recognizer is a small ear-training game. Its cover page offers four
modes: Single Note, Two Notes, Three Notes and Four Notes. The game then plays
a random chord of that many distinct pitches from C4..C5 (MIDI 60..72) and
shows a one-octave piano. The player clicks keys to rebuild the chord. A guess
as long as the chord is graded by set equality and counted in a
`correct/total` score. Control buttons replay the chord (Play Again), start a
new round (Next), take back the last key (Recall) and return to the cover page
(Home).

This project models the logic of `main.py` and proves properties of it:

- `note_names.dfy` (module `NoteNames`): `midi_to_note_name`, the pitch-class
  name followed by the octave `p // 12 - 1`. A parser is proved to read every
  name back to its pitch.
- `keyboard.dfy` (module `Keyboard`): `get_note_from_position`. Black keys take
  priority in the upper 150 pixels and have exclusive band edges. White keys are
  100-pixel columns, with Python's negative list indexing and its `IndexError`.
- `layout.dfy` (module `Layout`): the cover-page mode buttons, with the scan
  that picks one on a click (a method with a loop), and the four control buttons
  (`pygame.Rect.collidepoint` semantics).
- `chords.dfy` (module `Chords`): `generate_chord`. It is `random.sample` over
  the thirteen notes, run as CPython's pool algorithm. The random choices are a
  parameter, `draws`, where `draws[i]` is the value of `randbelow(13 - i)`. The
  module also has the set comparison used for grading.
- `quiz.dfy` (module `Quiz`): the session state of `main` as a value and the
  transitions its handlers make, with the session invariant and lemmas about
  them.
- `session.dfy` (module `Game`): the same session as a class whose fields the
  click handlers update in place. Every method is specified by the matching
  `Quiz` transition.

Grading follows the code. The score is updated each time the feedback area is
redrawn with a guess as long as the chord. So Recall on a full guess followed
by another key grades the same chord a second time, and `total` grows again.
`Quiz.RegradeAfterRecall` states this. A round is therefore not always scored
exactly once.

Python's `%` and `//` round toward minus infinity. For the positive divisors
used here (12 and 100) they agree with Dafny's `%` and `/` on every integer, so
the model uses those directly.

## Model

| member | source | states |
|---|---|---|
| NoteNames.NoteName | main.py:39-41 | `midi_to_note_name`: the name of `p % 12` followed by `str(p // 12 - 1)`. Its properties are stated by NoteNameRoundTrip, NoteNameInjective and NoteNameExamples. |
| NoteNames.NoteNameRoundTrip | main.py:39-41 | Reading the name back gives the pitch, for every integer pitch: the name is the pitch-class name of `p % 12` followed by the decimal octave `p // 12 - 1`, and together they determine `p`. |
| NoteNames.NoteNameInjective | main.py:39-41 | Two different pitches never get the same name. |
| NoteNames.NoteNameExamples | main.py:39-41 | 60 is "C4", 61 is "C#4" and 72 is "C5". |
| NoteNames.DecimalRoundTrip | main.py:41 | The decimal text that `str` gives an octave number, minus sign included, reads back to that number. |
| Keyboard.KeyAt | main.py:60-69 | `get_note_from_position`: a black key in the upper band, else the white-key column. Its properties are stated by KeyAtBlack, KeyAtWhite, KeyAtWrap, KeyAtRange, EveryNoteOnKeyboard and KeyAtExamples. |
| Keyboard.WhiteKeyAt | main.py:69 | `white_keys[x // 100]` with Python's indexing: None from index 8 on, wrap-around for -8..-1, `IndexError` below. Stated by KeyAtWhite, KeyAtWrap and KeyAtRange. |
| Keyboard.BlackKeyAt | main.py:64-67 | The black-key search returns the pitch of a band that strictly contains x. It returns nothing only when no band contains x. |
| Keyboard.BlackKeysDisjoint | main.py:62 | No two of the five black-key bands overlap. |
| Keyboard.BlackKeyAtUnique | main.py:62-67 | For any list of non-overlapping bands, in any order, the search returns the pitch of the one band that contains x. |
| Keyboard.BlackKeysAnyOrder | main.py:62-67 | Any rearrangement of the five black-key bands gives the same search result, so the order of the dictionary does not matter. |
| Keyboard.AtMostOneBlackKey | main.py:62-67 | No x lies inside two black-key bands. |
| Keyboard.KeyAtBlack | main.py:64-67 | With y at most 150 and x strictly inside a band, the result is that band's pitch: 61, 63, 66, 68 or 70. |
| Keyboard.KeyAtWhite | main.py:69 | For x >= 0 outside the black-key case, the result is `white_keys[x // 100]` when that index is below 8, and None otherwise. |
| Keyboard.KeyAtWrap | main.py:69 | For x from -800 to -1, no black key matches and the result is the white key `white_keys[x // 100]` counted from the end of the list, as Python's negative index gives. |
| Keyboard.KeyAtRange | main.py:60-69 | Every pitch returned lies in 60..72. An `IndexError` happens exactly when x < -800. Every x in 0..799 hits a key. |
| Keyboard.EveryNoteOnKeyboard | main.py:60-69 | Each pitch 60..72 is returned at some point of the piano, so every chord can be entered. |
| Keyboard.KeyAtExamples | main.py:60-69 | (75, 50) gives 61; (10, 250) gives 60; the band edge (70, 50) gives 60, not 61; x = 800 gives None. |
| Layout.ModeAt | main.py:112-113 | The chosen size comes from a button under the click. Nothing is chosen only when no button is under it. |
| Layout.SelectMode | main.py:103-123 | The loop over the buttons selects exactly when the click is on a button. It then records that button's size; otherwise the size stays at the default of 2. |
| Layout.ModeButtonsApart | main.py:86-91 | The four mode buttons do not overlap. |
| Layout.ModeAtIff | main.py:86-123 | A click selects size n if and only if it lands on the button for n. Every size offered is 1 to 4. |
| Layout.ModeAtMiss | main.py:112-123 | A click outside all four buttons selects nothing. |
| Layout.ControlButtonsLayout | main.py:128-131 | Play Again, Next, Recall and Home do not overlap. All of them lie above the piano, which starts at y = 100. |
| Chords.Sample | main.py:19 | `random.sample` returns n items, taken without replacement from the population (a sub-multiset). |
| Chords.NotesAscend | main.py:18 | The notes list holds the thirteen semitones 60..72 in order, each once. |
| Chords.GenerateChord | main.py:17-19 | The chord has exactly `num_notes` pitches, all distinct and all in 60..72. |
| Chords.SameNotes | main.py:151 | `set(user_notes) == set(chord)`. Stated by SameNotesIsPermutation and SameNotesOrderFree. |
| Chords.SameNotesIsPermutation | main.py:151 | For a chord of distinct pitches and a guess of the same length, set equality holds exactly when the guess is a rearrangement of the chord. A pitch guessed twice never passes. |
| Chords.SameNotesOrderFree | main.py:151 | The grade does not depend on the order of the guessed pitches. |
| Quiz.Valid | main.py:101-201 | The session invariant: on the cover page nothing is held; while playing, the chord has 1 to 4 distinct notes in 60..72, the guess is no longer than the chord and holds pitches in range, and correct <= total. Kept by KeyPress, RecallDropsLast, NextRound, KeyboardClick, ScreenClick and CoverClick. |
| Quiz.Graded | main.py:150-159 | A guess as long as the chord adds one trial, and one correct answer when it matches as a set. Stated by KeyPress and RegradeAfterRecall. |
| Quiz.AfterKey | main.py:196-201 | The pitch is appended and graded only while the guess has room. Stated by KeyPress and FullGuessIgnoresKeys. |
| Quiz.AfterRecall | main.py:187-189 | A non-empty guess loses its last pitch and is redrawn. Stated by RecallDropsLast and RegradeAfterRecall. |
| Quiz.AfterNext | main.py:181-183 | Empty guess and a new chord. Stated by NextRound. |
| Quiz.AfterKeyboard | main.py:194-201 | Below y = 100 the shifted position is hit-tested and a pitch goes to AfterKey; an `IndexError` ends the process. Stated by KeyboardClick. |
| Quiz.AfterClick | main.py:175-201 | The buttons in the source's order, then the keyboard unless Home was hit. Stated by ScreenClick and TwoNoteRound. |
| Quiz.AfterModeClick | main.py:106-137 | A mode button starts play with the generated chord and a zero score; any other click changes nothing. Stated by CoverClick. |
| Quiz.AfterQuit | main.py:173-174 | The close signal terminates the session, from either screen (also main.py:108-109). Game.Session.Quit is specified by it. |
| Quiz.KeyPress | main.py:194-201 | A key appends its pitch only while the guess is shorter than the chord. The total rises by one exactly when the append fills the guess. The correct count rises by one exactly when, in addition, the guess matches the chord as a set. The invariant (guess no longer than the chord, correct <= total) is kept. |
| Quiz.FullGuessIgnoresKeys | main.py:196 | Once the guess is full, a key changes nothing. |
| Quiz.RecallDropsLast | main.py:187-189 | Recall removes exactly the last guessed pitch and leaves an empty guess unchanged. It never changes the score. |
| Quiz.RegradeAfterRecall | main.py:150-159 | Recall on a full guess, then another key, grades the same chord again: the total rises by one more. |
| Quiz.NextRound | main.py:181-183 | Next empties the guess and installs a new chord of the same size. The mode and the score are unchanged. |
| Quiz.KeyboardClick | main.py:194-201 | A click at or above y = 100 never touches the guess. A keyboard click grades at most once, never lowers the score, and ends the process only on an `IndexError`. |
| Quiz.ScreenClick | main.py:171-201 | Every click on the piano screen keeps the invariant. The game returns to the cover page exactly when Home is hit, with everything discarded. Otherwise the mode stays, the counts never decrease, and at most one trial is graded per click. |
| Quiz.CoverClick | main.py:106-141 | A cover-page click on a mode button starts play with a chord of that size (1 to 4), an empty guess and a 0/0 score. Any other click leaves the cover page as it was. |
| Quiz.TwoNoteRound | main.py:101-201 | Choose Two Notes with chord C4 E4. Click E4, then C4: the score is 1/1. Next then empties the guess and keeps 1/1. |
| Game.Session.constructor | main.py:102-104 | A new session is on the cover page with no mode and no score. |
| Game.Session.ClickCover | main.py:106-141 | The fields become the cover-click transition's result, and the invariant holds. |
| Game.Session.Grade | main.py:150-159 | The fields become the graded state: a full guess adds one trial, plus one correct answer if it matches. |
| Game.Session.PressKey | main.py:194-201 | The fields become the key-press transition's result, and the invariant holds. |
| Game.Session.Recall | main.py:187-189 | The fields become the Recall transition's result, and the invariant holds. |
| Game.Session.Next | main.py:181-184 | The new chord has the session's size. The fields become the Next transition's result. |
| Game.Session.Home | main.py:191-192 | The fields return to the initial cover-page state. |
| Game.Session.Quit | main.py:173-174 | The session is terminated and nothing else changes. |
| Game.Session.Click | main.py:175-201 | The fields become the piano-screen click transition's result, and the invariant holds. |

## Left out

- Drawing, fonts, `display.flip` and frame pacing (`clock.tick`): these are rendering through pygame. This includes the text of the feedback area: the sorted guessed note names, "Correct!" / "Incorrect! Correct: …" and the `correct/total` counter. The counts themselves are modelled.
- MIDI output (`setup_midi`, `play_chord`, `play_individual_notes_and_chord`, and the `note_on`/`note_off` calls of a key press) and the blocking waits: device I/O with no state of the game behind it. Play Again is therefore a click that changes no state.
- The event queue: pygame may deliver several events in one frame. The model handles one click or close signal per call. Events that arrive in the same frame after a mode is selected, after Home or after quitting are not modelled.
- The probability distribution of `random.sample`: the random choices are an input (`draws`). Only the properties every sample has are proved.
- Chords.GenerateChord: requires `num_notes <= 13`, and Chords.Sample requires `n <= |population|`. Beyond that, or for a negative count, `random.sample` raises `ValueError`. The only caller passes 1 to 4.
- The default argument `num_notes=2` of `generate_chord`: every call passes the count, so the model takes it as a required parameter.
- `run_application` and `init_pygame` (process lifecycle). The loop that re-enters `main` after Home is modelled as the return to the initial state.
- stuff.py is not part of this model. It only lists MIDI devices on the console.
