/**
 * Chords and their generation (main.py, `generate_chord`): `num_notes`
 * distinct pitches sampled without replacement from the thirteen
 * semitones 60..72, and the set comparison that grades a guess.
 */
module Chords {
  /** The pitches a chord is drawn from, C4 up to C5. */
  const Notes: seq<int> := [60, 61, 62, 63, 64, 65, 66, 67, 68, 69, 70, 71, 72]
  const LowestNote: int := 60
  const HighestNote: int := 72

  predicate Distinct(s: seq<int>) {
    forall i, j :: 0 <= i < j < |s| ==> s[i] != s[j]
  }

  predicate InRange(s: seq<int>) {
    forall i :: 0 <= i < |s| ==> LowestNote <= s[i] <= HighestNote
  }

  /** A chord of `n` notes: n distinct pitches of the range. */
  predicate IsChord(c: seq<int>, n: nat) {
    |c| == n && Distinct(c) && InRange(c)
  }

  /**
   * The random source `random.sample` consults for an n-note sample of
   * the thirteen notes: its i-th draw is `randbelow(13 - i)`.
   */
  predicate RandomDraws(draws: seq<nat>, n: nat) {
    n <= |draws| && forall i :: 0 <= i < n ==> draws[i] < |Notes| - i
  }

  /** Python's `set(guess) == set(chord)`: the same pitches, in any order and multiplicity. */
  predicate SameNotes(guess: seq<int>, chord: seq<int>) {
    (set p | p in guess) == (set p | p in chord)
  }

  /** A list has no repeats exactly when its head is not in its tail and its tail has no repeats. */
  lemma DistinctCons(s: seq<int>)
    requires s != []
    ensures Distinct(s) <==> s[0] !in s[1..] && Distinct(s[1..])
  {
    var t := s[1..];
    if Distinct(s) {
      forall i, j | 0 <= i < j < |t| ensures t[i] != t[j] {
        assert t[i] == s[i + 1] && t[j] == s[j + 1];
      }
    }
    if s[0] !in t && Distinct(t) {
      forall i, j | 0 <= i < j < |s| ensures s[i] != s[j] {
        if i == 0 {
          assert s[j] == t[j - 1];
        } else {
          assert s[i] == t[i - 1] && s[j] == t[j - 1];
        }
      }
    }
  }

  /** A list has no repeats exactly when no pitch occurs in it more than once. */
  lemma {:induction false} DistinctCounts(s: seq<int>)
    ensures Distinct(s) <==> forall p :: multiset(s)[p] <= 1
  {
    if s != [] {
      var t := s[1..];
      assert s == [s[0]] + t;
      assert multiset(s) == multiset{s[0]} + multiset(t);
      DistinctCounts(t);
      DistinctCons(s);
      if Distinct(s) {
        forall p ensures multiset(s)[p] <= 1 {
          if p == s[0] {
            assert multiset(t)[p] == 0;
          }
        }
      } else if s[0] in t {
        assert s[0] in multiset(t);
        assert multiset(s)[s[0]] > 1;
      } else {
        assert !Distinct(t);
        var p :| multiset(t)[p] > 1;
        assert multiset(s)[p] > 1;
      }
    }
  }

  /** A sub-multiset of a list without repeats has no repeats itself. */
  lemma SubMultisetDistinct(s: seq<int>, t: seq<int>)
    requires Distinct(t) && multiset(s) <= multiset(t)
    ensures Distinct(s)
  {
    DistinctCounts(t);
    DistinctCounts(s);
    forall p ensures multiset(s)[p] <= 1 {
      assert multiset(s)[p] <= multiset(t)[p];
    }
  }

  /** Taking `pool[j]` and moving the last live item into its place shrinks the live pool by exactly that item. */
  lemma TakeFromPool(pool: seq<int>, size: nat, j: nat)
    requires j < size <= |pool|
    ensures multiset(pool[..size]) == multiset{pool[j]} + multiset(pool[j := pool[size - 1]][..size - 1])
  {
    var last := pool[size - 1];
    assert pool[..size] == pool[..size - 1] + [last];
    if j < size - 1 {
      assert pool[j := last][..size - 1] == pool[..size - 1][j := last];
      assert pool[..size - 1][j] == pool[j];
    } else {
      assert pool[j := last][..size - 1] == pool[..size - 1];
    }
  }

  /** Drawing items from a list of distinct in-range pitches yields distinct in-range pitches. */
  lemma SubMultisetChord(s: seq<int>, t: seq<int>)
    requires Distinct(t) && InRange(t) && multiset(s) <= multiset(t)
    ensures Distinct(s) && InRange(s)
  {
    SubMultisetDistinct(s, t);
    forall k | 0 <= k < |s| ensures LowestNote <= s[k] <= HighestNote {
      assert s[k] in multiset(t);
      assert s[k] in t;
    }
  }

  /**
   * `random.sample(population, n)` for a population small enough that
   * CPython takes its pool path: draw j below the size of the pool, take
   * `pool[j]`, and fill the hole with the pool's last live item.
   */
  method Sample(population: seq<int>, n: nat, draws: seq<nat>) returns (sample: seq<int>)
    requires n <= |population|
    requires n <= |draws| && forall i :: 0 <= i < n ==> draws[i] < |population| - i
    ensures |sample| == n
    ensures multiset(sample) <= multiset(population)
  {
    var pool := population;
    var size := |population|;
    sample := [];
    var i := 0;
    assert pool[..size] == population;
    while i < n
      invariant 0 <= i <= n
      invariant size == |population| - i && |pool| == |population|
      invariant |sample| == i
      invariant multiset(sample) + multiset(pool[..size]) == multiset(population)
    {
      var j := draws[i];
      TakeFromPool(pool, size, j);
      sample := sample + [pool[j]];
      pool := pool[j := pool[size - 1]];
      size := size - 1;
      i := i + 1;
    }
  }

  /** The notes are the semitones from the lowest to the highest, each once. */
  lemma NotesAscend()
    ensures |Notes| == HighestNote - LowestNote + 1
    ensures forall i :: 0 <= i < |Notes| ==> Notes[i] == LowestNote + i
    ensures Distinct(Notes) && InRange(Notes)
  {
  }

  /** `generate_chord(n)`: `random.sample` of n of the thirteen notes. */
  method GenerateChord(n: nat, draws: seq<nat>) returns (chord: seq<int>)
    requires n <= |Notes|
    requires RandomDraws(draws, n)
    ensures IsChord(chord, n)
  {
    chord := Sample(Notes, n, draws);
    NotesAscend();
    SubMultisetChord(chord, Notes);
  }

  /** A chord's notes form a set of exactly n pitches. */
  lemma {:induction false} ChordSetSize(c: seq<int>)
    requires Distinct(c)
    ensures |set p | p in c| == |c|
  {
    if c != [] {
      var t := c[1..];
      assert Distinct(t) by {
        forall i, j | 0 <= i < j < |t| ensures t[i] != t[j] {
          assert t[i] == c[i + 1] && t[j] == c[j + 1];
        }
      }
      ChordSetSize(t);
      assert (set p | p in c) == {c[0]} + (set p | p in t);
      assert c[0] !in t by {
        forall i | 0 <= i < |t| ensures t[i] != c[0] {
          assert t[i] == c[i + 1];
        }
      }
    }
  }

  /** A list has at most as many different pitches as entries, and as many only when none repeats. */
  lemma {:induction false} SetSizeBound(s: seq<int>)
    ensures |set p | p in s| <= |s|
    ensures |set p | p in s| == |s| ==> Distinct(s)
  {
    if s != [] {
      var t := s[1..];
      SetSizeBound(t);
      assert (set p | p in s) == {s[0]} + (set p | p in t);
      if |set p | p in s| == |s| {
        assert s[0] !in (set p | p in t);
        forall i, j | 0 <= i < j < |s| ensures s[i] != s[j] {
          if i == 0 {
            assert s[j] == t[j - 1];
          } else {
            assert s[i] == t[i - 1] && s[j] == t[j - 1];
          }
        }
      }
    }
  }

  /**
   * A full guess matches the chord as a set exactly when it is a
   * rearrangement of the chord: a pitch guessed twice never passes.
   */
  lemma SameNotesIsPermutation(guess: seq<int>, chord: seq<int>)
    requires Distinct(chord) && |guess| == |chord|
    ensures SameNotes(guess, chord) <==> multiset(guess) == multiset(chord)
    ensures SameNotes(guess, chord) ==> Distinct(guess)
  {
    if SameNotes(guess, chord) {
      ChordSetSize(chord);
      SetSizeBound(guess);
      assert Distinct(guess);
      DistinctCounts(guess);
      DistinctCounts(chord);
      forall p ensures multiset(guess)[p] == multiset(chord)[p] {
        var inGuess, inChord := set q | q in guess, set q | q in chord;
        assert inGuess == inChord;
        assert p in guess <==> p in inGuess;
        assert p in chord <==> p in inChord;
        assert p in guess <==> multiset(guess)[p] > 0;
        assert p in chord <==> multiset(chord)[p] > 0;
        assert multiset(guess)[p] <= 1 && multiset(chord)[p] <= 1;
      }
    }
    if multiset(guess) == multiset(chord) {
      forall p ensures p in guess <==> p in chord {
        assert p in guess <==> p in multiset(guess);
        assert p in chord <==> p in multiset(chord);
      }
    }
  }

  /** Grading ignores the order in which the pitches were guessed. */
  lemma SameNotesOrderFree(g1: seq<int>, g2: seq<int>, chord: seq<int>)
    requires multiset(g1) == multiset(g2)
    ensures SameNotes(g1, chord) == SameNotes(g2, chord)
  {
    forall p ensures p in g1 <==> p in g2 {
      assert p in g1 <==> p in multiset(g1);
      assert p in g2 <==> p in multiset(g2);
    }
  }
}
