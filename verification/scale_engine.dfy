/**
  Pitch arithmetic on scales: the note of a scale degree, and quantization of
  a MIDI note to the nearest scale interval.  Both work on the interval list of
  a scale (`Scale.Intervals`); the Swift truncating `/` and `%` are written out.
 */
module ScaleEngine {
  import opened SwiftInt
  import opened EuclideanEngine
  import opened Models

  /** Octave and index of a scale degree in a scale of `n` notes, by the truncating formulas of `noteInScale`; the octave is the floor quotient, so negative degrees count down from the octave below. */
  function OctaveAndIndex(degree: int, n: int): (r: (int, int))
    requires n > 0
    ensures 0 <= r.1 < n && r.0 * n + r.1 == degree
  {
    if degree >= 0 then
      SwiftRemBounds(degree, n);
      (SwiftDiv(degree, n), SwiftRem(degree, n))
    else
      NormalisedRem(degree, n);
      NegativeOctave(degree, n);
      (SwiftDiv(degree - n + 1, n), SwiftRem(SwiftRem(degree, n) + n, n))
  }

  /** For a negative degree, `(degree - n + 1) / n` truncated is the floor of `degree / n`. */
  lemma NegativeOctave(degree: int, n: int)
    requires n > 0 && degree < 0
    ensures SwiftDiv(degree - n + 1, n) == degree / n
  {
    var q, r := degree / n, degree % n;
    assert degree == q * n + r && 0 <= r < n;
    var m := n - 1 - degree;
    assert m == (-q) * n + (n - 1 - r);
    DivModUnique(m, -q, n - 1 - r, n);
    assert SwiftDiv(degree - n + 1, n) == -(m / n);
  }

  /** The MIDI note of a scale degree before clamping. */
  function ScaleNote(intervals: seq<int>, root: Note, degree: int, octaveOffset: int): (r: int)
    requires |intervals| > 0
    ensures exists i :: 0 <= i < |intervals| && (r - 60 - root.RawValue() - intervals[i]) % 12 == 0
  {
    var (octave, index) := OctaveAndIndex(degree, |intervals|);
    var r := 60 + root.RawValue() + intervals[index] + (octave + octaveOffset) * 12;
    assert (r - 60 - root.RawValue() - intervals[index]) % 12 == 0 by {
      assert r - 60 - root.RawValue() - intervals[index] == (octave + octaveOffset) * 12;
    }
    r
  }

  /** `noteInScale`: middle C plus the root, the degree's interval and its octaves, clamped to MIDI range; with no intervals, the root above middle C. */
  function NoteInScale(intervals: seq<int>, root: Note, degree: int, octaveOffset: int): (r: int)
    ensures 0 <= r <= 127
    ensures |intervals| == 0 ==> r == 60 + root.RawValue()
  {
    if |intervals| == 0 then root.RawValue() + 60
    else Clamp(ScaleNote(intervals, root, degree, octaveOffset), 0, 127)
  }

  /** The degree's octave and index are the Euclidean quotient and remainder. */
  lemma ScaleNoteEuclidean(intervals: seq<int>, root: Note, degree: int, octaveOffset: int)
    requires |intervals| > 0
    ensures var n := |intervals|;
      ScaleNote(intervals, root, degree, octaveOffset)
        == 60 + root.RawValue() + intervals[degree % n] + (degree / n + octaveOffset) * 12
  {
    var n := |intervals|;
    var (octave, index) := OctaveAndIndex(degree, n);
    DivModUnique(degree, octave, index, n);
  }

  /** Going `n` degrees up a scale of `n` notes is going one octave up. */
  lemma ScaleNoteOctave(intervals: seq<int>, root: Note, degree: int, octaveOffset: int)
    requires |intervals| > 0
    ensures ScaleNote(intervals, root, degree + |intervals|, octaveOffset)
      == ScaleNote(intervals, root, degree, octaveOffset) + 12
    ensures NoteInScale(intervals, root, degree + |intervals|, octaveOffset)
      == NoteInScale(intervals, root, degree, octaveOffset + 1)
  {
    var n := |intervals|;
    ScaleNoteEuclidean(intervals, root, degree, octaveOffset);
    ScaleNoteEuclidean(intervals, root, degree + n, octaveOffset);
    ScaleNoteEuclidean(intervals, root, degree, octaveOffset + 1);
    DegreeUpOctave(degree, n);
  }

  /** `n` degrees further on: the same remainder, one more in the quotient. */
  lemma DegreeUpOctave(degree: int, n: int)
    requires n > 0
    ensures (degree + n) / n == degree / n + 1 && (degree + n) % n == degree % n
  {
    var q, r := degree / n, degree % n;
    assert degree + n == (q + 1) * n + r;
    DivModUnique(degree + n, q + 1, r, n);
  }

  /** Degree 0 without octave offset is the root above middle C, for every scale. */
  lemma NoteInScaleRoot(scale: Scale, root: Note)
    ensures NoteInScale(scale.Intervals(), root, 0, 0) == 60 + root.RawValue()
  {
    ScaleNoteEuclidean(scale.Intervals(), root, 0, 0);
  }

  /** The note's distance above the root within its octave (`((midiNote - root) % 12 + 12) % 12`). */
  function NoteInOctave(midiNote: int, root: Note): (r: int)
    ensures 0 <= r < 12 && r == (midiNote - root.RawValue()) % 12
  {
    NormalisedRem(midiNote - root.RawValue(), 12);
    SwiftRem(SwiftRem(midiNote - root.RawValue(), 12) + 12, 12)
  }

  /** Index of the interval nearest to `x` among the first `n`; on a tie, the earliest such interval. */
  function NearestIn(intervals: seq<int>, n: nat, x: int): (k: nat)
    requires 1 <= n <= |intervals|
    ensures k < n
  {
    if n == 1 then 0
    else
      var k := NearestIn(intervals, n - 1, x);
      if Abs(x - intervals[n - 1]) < Abs(x - intervals[k]) then n - 1 else k
  }

  /** Index of the interval nearest to `x` in the whole list. */
  function Nearest(intervals: seq<int>, x: int): (k: nat)
    requires |intervals| > 0
    ensures k < |intervals|
  {
    NearestIn(intervals, |intervals|, x)
  }

  /** The chosen interval is at least as near as every one of the first `n`, and strictly nearer than every earlier one. */
  lemma {:induction false} NearestInMinimal(intervals: seq<int>, n: nat, x: int)
    requires 1 <= n <= |intervals|
    ensures var k := NearestIn(intervals, n, x);
      && (forall i :: 0 <= i < n ==> Abs(x - intervals[k]) <= Abs(x - intervals[i]))
      && (forall i :: 0 <= i < k ==> Abs(x - intervals[i]) > Abs(x - intervals[k]))
  {
    if n > 1 {
      NearestInMinimal(intervals, n - 1, x);
    }
  }

  /** `Nearest` picks the first interval of least distance. */
  lemma NearestMinimal(intervals: seq<int>, x: int)
    requires |intervals| > 0
    ensures var k := Nearest(intervals, x);
      && (forall i :: 0 <= i < |intervals| ==> Abs(x - intervals[k]) <= Abs(x - intervals[i]))
      && (forall i :: 0 <= i < k ==> Abs(x - intervals[i]) > Abs(x - intervals[k]))
  {
    NearestInMinimal(intervals, |intervals|, x);
  }

  /** The quantized note before clamping: the octave base, plus the root, plus the nearest interval. */
  function QuantizeUnclamped(midiNote: int, intervals: seq<int>, root: Note): (r: int)
    requires |intervals| > 0
    ensures var base := r - root.RawValue() - intervals[Nearest(intervals, NoteInOctave(midiNote, root))];
      base <= midiNote < base + 12 && (base - root.RawValue()) % 12 == 0
  {
    var noteInOctave := NoteInOctave(midiNote, root);
    var octaveBase := midiNote - noteInOctave;
    assert (octaveBase - root.RawValue()) % 12 == 0 by {
      var d := midiNote - root.RawValue();
      assert d == (d / 12) * 12 + noteInOctave;
      assert octaveBase - root.RawValue() == (d / 12) * 12;
    }
    octaveBase + root.RawValue() + intervals[Nearest(intervals, noteInOctave)]
  }

  /** `quantizeToScale`: the note unchanged when there are no intervals, otherwise the clamped quantized note. */
  function Quantize(midiNote: int, intervals: seq<int>, root: Note): (r: int)
    ensures |intervals| == 0 ==> r == midiNote
    ensures |intervals| > 0 ==> 0 <= r <= 127
  {
    if |intervals| == 0 then midiNote else Clamp(QuantizeUnclamped(midiNote, intervals, root), 0, 127)
  }

  /** The loop of `quantizeToScale`: keep the first interval of strictly smallest distance. */
  method QuantizeToScale(midiNote: int, intervals: seq<int>, root: Note) returns (r: int)
    ensures r == Quantize(midiNote, intervals, root)
  {
    if |intervals| == 0 {
      return midiNote;
    }
    var noteInOctave := SwiftRem(SwiftRem(midiNote - root.RawValue(), 12) + 12, 12);
    var octaveBase := midiNote - noteInOctave;
    var bestInterval := intervals[0];
    var bestDistance := Abs(noteInOctave - intervals[0]);
    for j := 0 to |intervals|
      invariant bestInterval == intervals[NearestIn(intervals, Max(j, 1), noteInOctave)]
      invariant bestDistance == Abs(noteInOctave - bestInterval)
    {
      var interval := intervals[j];
      var distance := Abs(noteInOctave - interval);
      if distance < bestDistance {
        bestDistance := distance;
        bestInterval := interval;
      }
    }
    var result := octaveBase + root.RawValue() + bestInterval;
    r := Max(0, Min(127, result));
  }

  /** The quantized note lies `2·root + interval` semitones above a multiple of 12: the octave base is already aligned to the root, and the root is added again. */
  lemma QuantizeCongruence(midiNote: int, intervals: seq<int>, root: Note)
    requires |intervals| > 0
    ensures var k := Nearest(intervals, NoteInOctave(midiNote, root));
      QuantizeUnclamped(midiNote, intervals, root) % 12 == (2 * root.RawValue() + intervals[k]) % 12
  {
    var x := NoteInOctave(midiNote, root);
    var k := Nearest(intervals, x);
    var d := midiNote - root.RawValue();
    assert d == (d / 12) * 12 + x;
    assert QuantizeUnclamped(midiNote, intervals, root) == (2 * root.RawValue() + intervals[k]) + (d / 12) * 12;
    ModShiftInt(2 * root.RawValue() + intervals[k], d / 12, 12);
  }

  /** With root C the quantized note's pitch class is an interval of the scale, and it moves the note by the smallest distance to any interval within the note's octave. */
  lemma QuantizeRootC(midiNote: int, intervals: seq<int>)
    requires |intervals| > 0 && AllBelow(intervals, 12)
    ensures var u := QuantizeUnclamped(midiNote, intervals, C);
      && (exists i :: 0 <= i < |intervals| && u % 12 == intervals[i])
      && forall i :: 0 <= i < |intervals| ==>
           Abs(u - midiNote) <= Abs(NoteInOctave(midiNote, C) - intervals[i])
  {
    var x := NoteInOctave(midiNote, C);
    var k := Nearest(intervals, x);
    NearestMinimal(intervals, x);
    QuantizeCongruence(midiNote, intervals, C);
    DivModUnique(intervals[k], 0, intervals[k], 12);
    assert QuantizeUnclamped(midiNote, intervals, C) - midiNote == intervals[k] - x;
  }

  /** The chromatic scale from C leaves every note in range as it is. */
  lemma ChromaticIdentity(midiNote: int)
    ensures Quantize(midiNote, Chromatic.Intervals(), C) == Clamp(midiNote, 0, 127)
  {
    var iv := Chromatic.Intervals();
    var x := NoteInOctave(midiNote, C);
    assert iv[x] == x;
    var k := Nearest(iv, x);
    NearestMinimal(iv, x);
    assert iv[k] == x;
  }

  /** C# is equally far from C and D in C major; the tie goes to C. */
  lemma QuantizeTieGoesDown()
    ensures Quantize(61, Major.Intervals(), C) == 60
  {
    TieWorker(61, Major.Intervals(), C);
  }

  lemma TieWorker(midiNote: int, iv: seq<int>, root: Note)
    requires midiNote == 61 && iv == [0, 2, 4, 5, 7, 9, 11] && root == C
    ensures Quantize(midiNote, iv, root) == 60
  {
    var x := NoteInOctave(midiNote, root);
    assert x == 1;
    NearestMinimal(iv, x);
    var k := Nearest(iv, x);
    assert Abs(x - iv[k]) <= Abs(x - iv[0]);
    assert k == 0;
  }

  /** In D major, D itself (62) quantizes to 64: the root is counted twice. */
  lemma QuantizeRootCountedTwice()
    ensures Quantize(62, Major.Intervals(), D) == 64
  {
    RootTwiceWorker(62, Major.Intervals(), D);
  }

  lemma RootTwiceWorker(midiNote: int, iv: seq<int>, root: Note)
    requires midiNote == 62 && iv == [0, 2, 4, 5, 7, 9, 11] && root == D
    ensures Quantize(midiNote, iv, root) == 64
  {
    var x := NoteInOctave(midiNote, root);
    assert x == 0;
    NearestMinimal(iv, x);
    var k := Nearest(iv, x);
    assert Abs(x - iv[k]) <= Abs(x - iv[0]);
    assert iv[k] == 0;
  }

  /** In D major, F# (66) quantizes to G# (68), which is not in D major. */
  lemma QuantizeLeavesScale()
    ensures Quantize(66, Major.Intervals(), D) == 68
    ensures forall i :: 0 <= i < |Major.Intervals()| ==> (68 - D.RawValue()) % 12 != Major.Intervals()[i]
  {
    LeavesScaleWorker(66, Major.Intervals(), D);
  }

  lemma LeavesScaleWorker(midiNote: int, iv: seq<int>, root: Note)
    requires midiNote == 66 && iv == [0, 2, 4, 5, 7, 9, 11] && root == D
    ensures Quantize(midiNote, iv, root) == 68
    ensures forall i :: 0 <= i < |iv| ==> (68 - root.RawValue()) % 12 != iv[i]
  {
    var x := NoteInOctave(midiNote, root);
    assert x == 4;
    NearestMinimal(iv, x);
    var k := Nearest(iv, x);
    assert Abs(x - iv[k]) <= Abs(x - iv[2]);
    assert iv[k] == 4;
  }
}
