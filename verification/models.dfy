/**
  The sequencer's records and lookup tables: time divisions, scales, root
  notes, the Euclidean pattern of a track, its melodic settings, the track
  itself and the whole sequencer state, each with its default.
 */
module Models {
  import opened EuclideanEngine
  import EuclideanExamples

  /** Length of one step, as a fraction of a whole note. */
  datatype Division = Whole | Half | Quarter | Eighth | Sixteenth | ThirtySecond
  {
    /** MIDI clock ticks (24 per quarter note) in one step. */
    function TicksPerStep(): (t: int)
      ensures t > 0
      ensures t * Denominator() == 4 * 24
    {
      match this
      case Whole => 96
      case Half => 48
      case Quarter => 24
      case Eighth => 12
      case Sixteenth => 6
      case ThirtySecond => 3
    }

    /** The `n` of the raw value "1/n". */
    function Denominator(): (n: int)
      ensures n > 0
    {
      match this
      case Whole => 1
      case Half => 2
      case Quarter => 4
      case Eighth => 8
      case Sixteenth => 16
      case ThirtySecond => 32
    }

    /** The raw value the division is stored under. */
    function RawValue(): (s: string)
      ensures s == "1/" + NumeralOf(Denominator())
    {
      match this
      case Whole => "1/1"
      case Half => "1/2"
      case Quarter => "1/4"
      case Eighth => "1/8"
      case Sixteenth => "1/16"
      case ThirtySecond => "1/32"
    }
  }

  /** Decimal numeral of a positive number. */
  function NumeralOf(n: nat): string
    decreases n
  {
    var d := ["0", "1", "2", "3", "4", "5", "6", "7", "8", "9"][n % 10];
    if n < 10 then d else NumeralOf(n / 10) + d
  }

  /** `Division.allCases`, in declaration order. */
  const AllDivisions: seq<Division> := [Whole, Half, Quarter, Eighth, Sixteenth, ThirtySecond]

  /** Every division appears exactly once in `AllDivisions`, ordered from the longest step to the shortest. */
  lemma AllDivisionsOrdered()
    ensures |AllDivisions| == 6
    ensures forall d: Division :: d in AllDivisions
    ensures forall i, j :: 0 <= i < j < |AllDivisions| ==>
      AllDivisions[i].TicksPerStep() > AllDivisions[j].TicksPerStep()
  {
    forall d: Division
      ensures d in AllDivisions
    {
      match d
      case Whole => assert AllDivisions[0] == d;
      case Half => assert AllDivisions[1] == d;
      case Quarter => assert AllDivisions[2] == d;
      case Eighth => assert AllDivisions[3] == d;
      case Sixteenth => assert AllDivisions[4] == d;
      case ThirtySecond => assert AllDivisions[5] == d;
    }
  }

  /** The scales a track can quantize to. */
  datatype Scale = Chromatic | Major | Minor | Pentatonic | Hirajoshi | Iwato | Tetratonic
  {
    /** Semitones above the root: non-empty, starting at the root, strictly rising within one octave. */
    function Intervals(): (r: seq<int>)
      ensures |r| > 0 && r[0] == 0
      ensures StrictlyAscending(r) && AllBelow(r, 12)
    {
      match this
      case Chromatic => [0, 1, 2, 3, 4, 5, 6, 7, 8, 9, 10, 11]
      case Major => [0, 2, 4, 5, 7, 9, 11]
      case Minor => [0, 2, 3, 5, 7, 8, 10]
      case Pentatonic => [0, 2, 4, 7, 9]
      case Hirajoshi => [0, 2, 3, 7, 8]
      case Iwato => [0, 1, 5, 6, 10]
      case Tetratonic => [0, 3, 5, 7]
    }
  }

  /** `Scale.allCases`, in declaration order. */
  const AllScales: seq<Scale> := [Chromatic, Major, Minor, Pentatonic, Hirajoshi, Iwato, Tetratonic]

  /** Seven scales, each once; the chromatic scale is every semitone. */
  lemma AllScalesListed()
    ensures |AllScales| == 7
    ensures forall s: Scale :: s in AllScales
    ensures forall i, j :: 0 <= i < j < |AllScales| ==> AllScales[i] != AllScales[j]
    ensures Chromatic.Intervals() == Range(12)
  {
    assert Chromatic.Intervals() == Range(12);
    forall s: Scale
      ensures s in AllScales
    {
      match s
      case Chromatic => assert AllScales[0] == s;
      case Major => assert AllScales[1] == s;
      case Minor => assert AllScales[2] == s;
      case Pentatonic => assert AllScales[3] == s;
      case Hirajoshi => assert AllScales[4] == s;
      case Iwato => assert AllScales[5] == s;
      case Tetratonic => assert AllScales[6] == s;
    }
  }

  /** The twelve root notes. */
  datatype Note = C | Cs | D | Ds | E | F | Fs | G | Gs | A | As | B
  {
    /** Semitones above C. */
    function RawValue(): (v: int)
      ensures 0 <= v < 12
    {
      match this
      case C => 0
      case Cs => 1
      case D => 2
      case Ds => 3
      case E => 4
      case F => 5
      case Fs => 6
      case G => 7
      case Gs => 8
      case A => 9
      case As => 10
      case B => 11
    }

    function DisplayName(): (s: string)
      ensures |s| == 1 || (|s| == 2 && s[1] == '#')
    {
      match this
      case C => "C"
      case Cs => "C#"
      case D => "D"
      case Ds => "D#"
      case E => "E"
      case F => "F"
      case Fs => "F#"
      case G => "G"
      case Gs => "G#"
      case A => "A"
      case As => "A#"
      case B => "B"
    }
  }

  /** `Note.allCases`, in declaration order. */
  const AllNotes: seq<Note> := [C, Cs, D, Ds, E, F, Fs, G, Gs, A, As, B]

  /** The notes are listed by raw value, and each raw value names one note. */
  lemma AllNotesByRawValue()
    ensures |AllNotes| == 12
    ensures forall i :: 0 <= i < 12 ==> AllNotes[i].RawValue() == i
    ensures forall n: Note :: n == AllNotes[n.RawValue()]
  {
  }

  /** The sharp names sit exactly on raw values 1, 3, 6, 8 and 10, and every name starts with its natural letter. */
  lemma SharpNames(n: Note)
    ensures |n.DisplayName()| == 2 <==> n.RawValue() in {1, 3, 6, 8, 10}
    ensures n.DisplayName()[0] in "CDEFGAB"
  {
  }

  /** The raw value of a natural note's letter. */
  function LetterValue(c: char): int {
    match c
    case 'C' => 0
    case 'D' => 2
    case 'E' => 4
    case 'F' => 5
    case 'G' => 7
    case 'A' => 9
    case 'B' => 11
    case _ => -1
  }

  /** A name reads back as its note's raw value: the letter's value, plus one for a sharp. */
  lemma NameGivesRawValue(n: Note)
    ensures LetterValue(n.DisplayName()[0]) + |n.DisplayName()| - 1 == n.RawValue()
  {
  }

  /** The twelve names are distinct, and the naturals read C, D, E, F, G, A, B upwards. */
  lemma NoteNames()
    ensures forall a: Note, b: Note :: a.DisplayName() == b.DisplayName() ==> a == b
    ensures [C.DisplayName(), D.DisplayName(), E.DisplayName(), F.DisplayName(),
             G.DisplayName(), A.DisplayName(), B.DisplayName()] == ["C", "D", "E", "F", "G", "A", "B"]
    ensures [C.RawValue(), D.RawValue(), E.RawValue(), F.RawValue(),
             G.RawValue(), A.RawValue(), B.RawValue()] == [0, 2, 4, 5, 7, 9, 11]
  {
    forall a: Note, b: Note | a.DisplayName() == b.DisplayName()
      ensures a == b
    {
      NameGivesRawValue(a);
      NameGivesRawValue(b);
      AllNotesByRawValue();
    }
  }

  /** A sharp is named after the note a semitone below it, followed by `#`. */
  lemma SharpFollowsNatural(n: Note)
    requires |n.DisplayName()| == 2
    ensures 0 < n.RawValue() && n.DisplayName() == AllNotes[n.RawValue() - 1].DisplayName() + "#"
  {
  }

  /** Phrase shapes for pitch modulation; their arithmetic is not part of this model. */
  datatype PhraseShape = Cadence1 | Cadence2 | Cadence3 | Cadence4 | Saw | Triangle | Sine | Pulse

  datatype VoicingStyle = Fixed | Ramp | Climb

  datatype ClockSource = Internal | External

  /** A Euclidean rhythm: `pulses` spread over `steps`, started `rotation` steps later. */
  datatype EuclideanPattern = EuclideanPattern(steps: int, pulses: int, rotation: int, division: Division)
  {
    /** The steps of the rhythm that sound. */
    function PulsePositions(): (r: seq<int>)
      ensures steps <= 0 ==> r == []
      ensures steps > 0 ==> StrictlyAscending(r) && AllBelow(r, steps)
    {
      PatternShape(steps, pulses, rotation);
      Pattern(steps, pulses, rotation)
    }
  }

  const DefaultPattern: EuclideanPattern := EuclideanPattern(8, 3, 0, Eighth)

  /** Pitch settings of a track. */
  datatype MelodicConfig = MelodicConfig(
    transpose: int,
    scale: Scale,
    rootNote: Note,
    voicingAmount: real,
    voicingStyle: VoicingStyle,
    phraseShape: PhraseShape,
    phraseRange: int)

  const DefaultMelodic: MelodicConfig := MelodicConfig(0, Chromatic, C, 0.0, Fixed, Cadence1, 0)

  datatype Track = Track(
    id: int,
    pattern: EuclideanPattern,
    melodic: MelodicConfig,
    velocity: int,
    sustain: real,
    repeats: int,
    isMuted: bool,
    midiChannel: int)

  /** A fresh track: the default rhythm and pitch settings, velocity 100, sustain 0.8, no repeats, sounding on the channel of its own number. */
  function DefaultTrack(id: int): Track {
    Track(id, DefaultPattern, DefaultMelodic, 100, 0.8, 0, false, id)
  }

  datatype SequencerState = SequencerState(
    tracks: seq<Track>,
    tempo: int,
    isPlaying: bool,
    clockSource: ClockSource,
    selectedTrackId: int,
    isMelodicShiftActive: bool,
    playheadPositions: map<int, int>)

  /** The sequencer at launch: four default tracks numbered 1 to 4, 120 BPM, stopped, internal clock, track 1 selected, every playhead at step 0. */
  const DefaultState: SequencerState := SequencerState(
    seq(4, i => DefaultTrack(i + 1)), 120, false, Internal, 1, false,
    map[1 := 0, 2 := 0, 3 := 0, 4 := 0])

  /** The default pattern is the tresillo over eighth notes. */
  lemma DefaultPatternIsTresillo()
    ensures DefaultPattern.PulsePositions() == [0, 3, 6]
    ensures DefaultPattern.division.TicksPerStep() == 12
  {
    TresilloAt(DefaultPattern.steps, DefaultPattern.pulses, DefaultPattern.rotation);
  }

  lemma TresilloAt(steps: int, pulses: int, rotation: int)
    requires steps == 8 && pulses == 3 && rotation == 0
    ensures Pattern(steps, pulses, rotation) == [0, 3, 6]
  {
    EuclideanExamples.Tresillo();
  }

  /** A default track sends on the MIDI channel of its own number, at velocity 100 and sustain 0.8. */
  lemma DefaultTrackChannel(id: int)
    ensures DefaultTrack(id).midiChannel == DefaultTrack(id).id == id
    ensures DefaultTrack(id).velocity == 100
    ensures DefaultTrack(id).sustain == 0.8
    ensures !DefaultTrack(id).isMuted && DefaultTrack(id).repeats == 0
    ensures DefaultTrack(id).pattern == DefaultPattern && DefaultTrack(id).melodic == DefaultMelodic
  {
  }

  /** The default state holds tracks 1 to 4 in order, each on its own channel, with a playhead for exactly those tracks; track 1 is selected. */
  lemma DefaultStateTracks()
    ensures |DefaultState.tracks| == 4
    ensures forall i :: 0 <= i < 4 ==>
      DefaultState.tracks[i].id == i + 1 && DefaultState.tracks[i].midiChannel == i + 1
    ensures DefaultState.playheadPositions.Keys == set i | 0 <= i < 4 :: DefaultState.tracks[i].id
    ensures forall id :: id in DefaultState.playheadPositions ==> DefaultState.playheadPositions[id] == 0
    ensures DefaultState.selectedTrackId == 1 == DefaultState.tracks[0].id
    ensures DefaultState.tempo == 120 && !DefaultState.isPlaying && DefaultState.clockSource == Internal
    ensures !DefaultState.isMelodicShiftActive
  {
    var ids := set i | 0 <= i < 4 :: DefaultState.tracks[i].id;
    assert DefaultState.tracks[0].id == 1 && DefaultState.tracks[1].id == 2;
    assert DefaultState.tracks[2].id == 3 && DefaultState.tracks[3].id == 4;
    assert ids == {1, 2, 3, 4};
  }
}
