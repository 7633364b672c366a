# Arpy's sequencing core, in Dafny

Arpy is a four-track Euclidean MIDI sequencer. Each track spreads a number of
pulses as evenly as possible over a number of steps (Bjorklund's algorithm),
optionally rotated. A 24-PPQ clock drives it. On every tick each track counts
towards its step length; when a step ends, the step being left sounds if it is
a pulse of an unmuted track. The note is the track's root and transpose,
quantized to its scale. It is sent as a note-on and registered with the tick
its note-off is due, and ratchet repeats are spread across the step. Messages
go out as MIDI 1.0 bytes packed into 32-bit Universal MIDI Packet words. Words
from a MIDI input and from an AKAI LPD8 controller are decoded back into
messages, pad presses and knob turns.

The project models that core, module by module:

- `Models`: the records and lookup tables with their defaults. These are
  the divisions, scales, root notes, Euclidean pattern, melodic settings,
  track and sequencer state.
- `EuclideanEngine`: Bjorklund's algorithm twice. `EuclideanPositions` is a
  function over lists of bit groups. `ComputePulsePositions` is Swift's
  `computePulsePositions` loops, proved to compute it; it fills a Bool array in place. Rotation and
  the full pattern are pure.
- `EuclideanExamples`: the well-known rhythms, evaluated through a general
  lemma about the merge loop on two blocks of groups.
- `RepeatEngine`: ratchet expansion, with exact rational offsets.
- `ScaleEngine`, `MIDIEngine` and `PhraseEngine`: pitch mapping.
  `quantizeToScale` is a loop proved against a nearest-interval function.
- `MIDIMessages`, `MIDIOutput`, `MIDIInput` and `MIDIController`: the wire
  codec, the packing of bytes into words, the output service's set-up guard,
  and both word decoders. These are tied together by round-trip lemmas.
- `ClockEngine`: the clock as a class with its start/stop/reset/tempo
  state machine and the tick interval.
- `Sequencer` and `SequencerSpec`: the view model as a class whose methods
  change its tracks, counts, playheads, sounding notes and output log.
  - Each method is proved to take the snapshot of that state to a function
    of `SequencerSpec`.
  - The lemmas about those functions state what a tick, a pulse, panic,
    start, stop and input dispatch do.

Conventions:

- Swift's truncating `/`, `%` and `Int(Double)` are modelled explicitly in
  `SwiftInt`.
- Swift's `x & 0x0F` and `x & 0x7F` on a two's-complement `Int` are the
  Euclidean `x % 16` and `x % 128`.
- Integers are unbounded. The values the sequencer handles are far from
  the 64-bit limits.

Behaviour kept as the code has it:

- `quantizeToScale` adds the root on top of an octave base that is
  already aligned to the root. So in D major, D (62) becomes 64.
  `ScaleEngine.QuantizeCongruence` and `ScaleEngine.QuantizeRootCountedTwice`
  state this.
- `triggerNote` adds the track's transpose into the base note, and
  `computeMIDINote` adds it again. `SequencerSpec.TriggerEffect` keeps both.
- `MIDIMessage` has no control-change case in its declaration, but the
  input decoder and `handleMIDIInput` build one. The model adds
  `ControlChange(channel, cc, value)`. It has no byte encoding, so it is
  never packed or sent.
- The controller service reads knobs as controllers 1 to 8. The view model
  routes controllers 70 to 77 on channel 1. Both ranges are modelled as
  written.
- The third case of `handleMIDIInput`, a note-on on channel 10, can only be
  reached with a note outside the pad range. There it does nothing, and the
  model routes such a message to nothing.

## Model

| member | source | states |
|---|---|---|
| SwiftInt.Clamp | Arpy/Core/MIDI/MIDIEngine.swift:49 | `max(lo, min(hi, x))` lies in `[lo, hi]`: it is `x` inside the range and the nearer bound outside it |
| SwiftInt.SwiftRemBounds | Arpy/Core/MIDI/ScaleEngine.swift:25-29 | for a positive divisor the truncated remainder has the sign of the dividend and magnitude below the divisor; for a non-negative dividend it equals the Euclidean one |
| SwiftInt.NormalisedRem | Arpy/Core/Euclidean/EuclideanEngine.swift:76 | Swift's `((a % n) + n) % n` equals the Euclidean remainder `a mod n` for every integer `a` |
| SwiftInt.Trunc | Arpy/Core/Clock/ClockEngine.swift:76 | `Int(x)` truncates toward zero: within one below a non-negative `x`, within one above a negative one |
| Models.Division.TicksPerStep | Arpy/Models/Division.swift:16-25 | every division has a positive number of ticks per step, and ticks times the division's denominator is 96, four quarter notes at 24 PPQ |
| Models.Division.Denominator | Arpy/Models/Division.swift:5-10 | the `n` of each raw value `1/n` is positive |
| Models.Division.RawValue | Arpy/Models/Division.swift:5-10 | each raw value is `1/` followed by the decimal numeral of its denominator |
| Models.AllDivisionsOrdered | Arpy/Models/Division.swift:4-25 | `allCases` lists the six divisions, each once, with strictly decreasing ticks per step |
| Models.Scale.Intervals | Arpy/Models/Scale.swift:16-26 | every scale's intervals are non-empty, start at the root, rise strictly and stay within one octave |
| Models.AllScalesListed | Arpy/Models/Scale.swift:4-18 | `allCases` lists the seven scales, each once; the chromatic scale is every semitone 0 to 11 |
| Models.Note.RawValue | Arpy/Models/Note.swift:4-16 | every root note's raw value is a semitone 0 to 11 |
| Models.Note.DisplayName | Arpy/Models/Note.swift:20-35 | every name is a single letter or a letter followed by `#`; which name each note gets is pinned by `Models.NameGivesRawValue` and `Models.NoteNames` |
| Models.AllNotesByRawValue | Arpy/Models/Note.swift:4-16 | `allCases` has twelve notes with `allCases[i].rawValue == i`, and each note sits at its raw value |
| Models.SharpNames | Arpy/Models/Note.swift:20-35 | a name is a sharp exactly at raw values 1, 3, 6, 8 and 10, and every name starts with a natural letter |
| Models.NameGivesRawValue | Arpy/Models/Note.swift:20-35 | a name reads back as its note's raw value: the natural letter's value, plus one for a `#` |
| Models.NoteNames | Arpy/Models/Note.swift:20-35 | the twelve names are pairwise distinct, and the naturals at raw values 0, 2, 4, 5, 7, 9, 11 are named C, D, E, F, G, A, B |
| Models.SharpFollowsNatural | Arpy/Models/Note.swift:20-35 | each sharp is named after the note a semitone below it, followed by `#` |
| Models.EuclideanPattern.PulsePositions | Arpy/Models/EuclideanPattern.swift:18-20 | the positions are empty without steps, otherwise strictly ascending steps of the pattern |
| Models.DefaultPatternIsTresillo | Arpy/Models/EuclideanPattern.swift:22-24 | the default pattern sounds on steps 0, 3 and 6 of 8, at 12 ticks per step |
| Models.DefaultTrackChannel | Arpy/Models/Track.swift:29-40 | a default track plays on the channel of its own number, at velocity exactly 100 and sustain exactly 0.8, unmuted, no repeats, with the default pattern and melodic settings |
| Models.DefaultStateTracks | Arpy/Models/SequencerState.swift:26-36 | the default state has tracks 1 to 4 in order, each on its own channel, a zero playhead for exactly those tracks, track 1 selected, 120 BPM, stopped, internal clock, no shift |
| EuclideanEngine.Range | Arpy/Core/Euclidean/EuclideanEngine.swift:13 | `Array(0..<n)` is the `n` indices in order |
| EuclideanEngine.Positions | Arpy/Core/Euclidean/EuclideanEngine.swift:69 | the pulse indices of a bit list are strictly ascending and in range; an index is among them exactly when its bit is set, and there are as many as pulses |
| EuclideanEngine.TailRun | Arpy/Core/Euclidean/EuclideanEngine.swift:23-32 | the trailing run is maximal: the last `n` groups equal the given group and the one before them does not |
| EuclideanEngine.Paired | Arpy/Core/Euclidean/EuclideanEngine.swift:41-43 | merged group `i` is head group `i` followed by group `headCount + i` |
| EuclideanEngine.Merge | Arpy/Core/Euclidean/EuclideanEngine.swift:38-55 | a merge round shortens the group list by the merge count, which is the loop's termination measure |
| EuclideanEngine.InitialGroups | Arpy/Core/Euclidean/EuclideanEngine.swift:19-20 | the loop starts from one group per step |
| EuclideanEngine.MergeKeepsBits | Arpy/Core/Euclidean/EuclideanEngine.swift:38-55 | a merge round only regroups: the multiset of bits is unchanged |
| EuclideanEngine.MergeKeepsGroups | Arpy/Core/Euclidean/EuclideanEngine.swift:38-55 | a merge round keeps the loop invariant: groups non-empty, the first starting with a pulse, `steps` bits of which `k` are pulses |
| EuclideanEngine.BjorklundKeepsGroups | Arpy/Core/Euclidean/EuclideanEngine.swift:22-56 | the whole merge loop keeps that invariant |
| EuclideanEngine.InitialGroupsHold | Arpy/Core/Euclidean/EuclideanEngine.swift:19-20 | the initial `k` pulse groups and `steps - k` rest groups satisfy the invariant |
| EuclideanEngine.EuclideanPositionsShape | Arpy/Core/Euclidean/EuclideanEngine.swift:9-70 | no steps give no pulses; otherwise exactly `clamp(pulses, 0, steps)` strictly ascending indices in `[0, steps)`, starting at 0 whenever there is a pulse |
| EuclideanEngine.EuclideanPositionsEdges | Arpy/Core/Euclidean/EuclideanEngine.swift:10-13 | no pulses give no positions; pulses filling every step give every index |
| EuclideanEngine.Bjorklund | Arpy/Core/Euclidean/EuclideanEngine.swift:22-56 | the `while true` merge loop ends on a non-empty list of at most as many groups as it started with |
| EuclideanEngine.BjorklundStops | Arpy/Core/Euclidean/EuclideanEngine.swift:23-36 | the loop's result satisfies its `break` condition: the trailing run is single or is the whole list |
| EuclideanEngine.EuclideanPositions | Arpy/Core/Euclidean/EuclideanEngine.swift:9-70 | the reference definition the imperative generator is proved equal to: no steps give no positions; otherwise `clamp(pulses, 0, steps)` positions, each in `[0, steps)` |
| EuclideanEngine.TrailingCount | Arpy/Core/Euclidean/EuclideanEngine.swift:23-32 | the backwards scan counts exactly the maximal trailing run |
| EuclideanEngine.MergeRound | Arpy/Core/Euclidean/EuclideanEngine.swift:38-55 | the three appending loops build exactly one merge round |
| EuclideanEngine.FillPattern | Arpy/Core/Euclidean/EuclideanEngine.swift:58-67 | the Bool array filled through `idx` holds exactly the flattened groups, so the `idx < steps` guard never drops a bit |
| EuclideanEngine.PulseIndices | Arpy/Core/Euclidean/EuclideanEngine.swift:69 | collecting the set entries of the array gives their indices in order |
| EuclideanEngine.ComputePulsePositions | Arpy/Core/Euclidean/EuclideanEngine.swift:9-70 | the imperative generator, guards, merge loop and flattening included, returns exactly `EuclideanPositions` |
| EuclideanEngine.Insert | Arpy/Core/Euclidean/EuclideanEngine.swift:78 | inserting into an ascending list keeps it ascending and adds exactly that element |
| EuclideanEngine.Sort | Arpy/Core/Euclidean/EuclideanEngine.swift:78 | `sorted()` returns an ascending permutation of its input |
| EuclideanEngine.Rotate | Arpy/Core/Euclidean/EuclideanEngine.swift:74-79 | rotation keeps the number of positions |
| EuclideanEngine.Pattern | Arpy/Core/Euclidean/EuclideanEngine.swift:83-86 | the full pattern has as many positions as the generator gives |
| EuclideanEngine.Rotated | Arpy/Core/Euclidean/EuclideanEngine.swift:78 | positions moved back cyclically all lie in `[0, n)` |
| EuclideanEngine.RotateUnchanged | Arpy/Core/Euclidean/EuclideanEngine.swift:75-77 | no steps, no positions, or an offset that is a multiple of the steps leaves the positions as they are |
| EuclideanEngine.RotatePeriodic | Arpy/Core/Euclidean/EuclideanEngine.swift:76 | rotating by `offset + n` is rotating by `offset` |
| EuclideanEngine.ShiftIsRotated | Arpy/Core/Euclidean/EuclideanEngine.swift:76-78 | on positions inside the cycle, Swift's `(p - off + n) % n` is the Euclidean `(p - offset) mod n` |
| EuclideanEngine.RotateMeaning | Arpy/Core/Euclidean/EuclideanEngine.swift:74-79 | rotating strictly ascending positions inside the cycle gives strictly ascending positions inside it, namely each moved back by the offset |
| EuclideanEngine.PatternShape | Arpy/Core/Euclidean/EuclideanEngine.swift:83-86 | the rotated pattern has exactly `clamp(pulses, 0, steps)` strictly ascending positions in range, the generator's positions moved back by the rotation |
| EuclideanExamples.BjorklundBlocks | Arpy/Core/Euclidean/EuclideanEngine.swift:22-56 | on `p` copies of one group followed by `q` copies of another, the merge loop ends in the block structure Euclid's algorithm on `(p, q)` predicts |
| EuclideanExamples.AscendingUnique | Arpy/Core/Euclidean/EuclideanEngine.swift:69 | two strictly ascending lists with the same elements are equal |
| EuclideanExamples.Evaluate | Arpy/Core/Euclidean/EuclideanEngine.swift:9-70 | when the merge loop ends in known blocks, the generator returns the ascending indices of their pulses |
| EuclideanExamples.Tresillo | Arpy/Core/Euclidean/EuclideanEngine.swift:83-86 | `pattern(8, 3, 0)` is `[0, 3, 6]` |
| EuclideanExamples.Cinquillo | Arpy/Core/Euclidean/EuclideanEngine.swift:83-86 | `pattern(8, 5, 0)` is `[0, 2, 3, 5, 6]` |
| EuclideanExamples.FourOnTheFloor | Arpy/Core/Euclidean/EuclideanEngine.swift:83-86 | `pattern(16, 4, 0)` is `[0, 4, 8, 12]` |
| EuclideanExamples.TwoOverFour | Arpy/Core/Euclidean/EuclideanEngine.swift:83-86 | `pattern(4, 2, 0)` is `[0, 2]` |
| EuclideanExamples.SinglePulse | Arpy/Core/Euclidean/EuclideanEngine.swift:9-20 | one pulse over any positive number of steps sits on step 0 |
| EuclideanExamples.EmptyAndFull | Arpy/Core/Euclidean/EuclideanEngine.swift:12-13 | `pattern(8, 0, 0)` is empty and `pattern(8, 8, 0)` is every step |
| EuclideanExamples.CyclicGap | Arpy/Core/Euclidean/EuclideanEngine.swift:83-86 | the gap after a pulse is the distance to the next pulse, wrapping round to the first |
| EuclideanExamples.SevenOverSixteenEven | Arpy/Core/Euclidean/EuclideanEngine.swift:83-86 | E(16,7) is `[0, 3, 5, 7, 10, 12, 14]` and all its cyclic gaps are 2 or 3 |
| EuclideanExamples.ThreeOverFourEven | Arpy/Core/Euclidean/EuclideanEngine.swift:83-86 | E(4,3) is `[0, 1, 2]` and its cyclic gaps are 1, 1 and 2 |
| EuclideanExamples.TresilloRotated | Arpy/Core/Euclidean/EuclideanEngine.swift:74-79 | `pattern(8, 3, 1)` is `[2, 5, 7]` |
| RepeatEngine.ComputeRepeats | Arpy/Core/Euclidean/RepeatEngine.swift:12-28 | the appending loop returns exactly `Repeats`, whatever the division |
| RepeatEngine.RepeatsCount | Arpy/Core/Euclidean/RepeatEngine.swift:17-26 | a negative count gives the pulse alone at offset 0; otherwise `repeatCount + 1` triggers; every trigger is on the pulse's step |
| RepeatEngine.Repeats | Arpy/Core/Euclidean/RepeatEngine.swift:12-28 | the reference definition `computeRepeats` is proved equal to: never empty, and the first trigger is the pulse itself, on its step at offset 0 |
| RepeatEngine.RepeatsOffsets | Arpy/Core/Euclidean/RepeatEngine.swift:22-25 | the first trigger is on the beat, offsets rise strictly, all lie in `[0, 1)`, evenly spaced by `1 / (n + 1)` |
| RepeatEngine.RepeatsRise | Arpy/Core/Euclidean/RepeatEngine.swift:23 | the offsets rise strictly |
| RepeatEngine.RepeatsWithinStep | Arpy/Core/Euclidean/RepeatEngine.swift:23 | every offset lies in `[0, 1)` |
| RepeatEngine.RepeatsEvenlySpaced | Arpy/Core/Euclidean/RepeatEngine.swift:23 | consecutive offsets differ by one over the number of triggers |
| RepeatEngine.ThreeRepeats | Arpy/Core/Euclidean/RepeatEngine.swift:22-25 | three repeats sound at 0, 0.25, 0.5 and 0.75 of the step |
| RepeatEngine.OneRepeat | Arpy/Core/Euclidean/RepeatEngine.swift:22-25 | one repeat sounds at 0 and 0.5 of the step |
| ScaleEngine.OctaveAndIndex | Arpy/Core/MIDI/ScaleEngine.swift:22-30 | the truncating formulas give an index in `[0, n)` with `octave * n + index == degree`, negative degrees included |
| ScaleEngine.NegativeOctave | Arpy/Core/MIDI/ScaleEngine.swift:28 | for a negative degree, `(degree - n + 1) / n` truncated is the floor quotient |
| ScaleEngine.NoteInScale | Arpy/Core/MIDI/ScaleEngine.swift:13-34 | the result is a MIDI note 0 to 127; a scale without intervals gives the root above middle C |
| ScaleEngine.ScaleNote | Arpy/Core/MIDI/ScaleEngine.swift:22-32 | the unclamped note is middle C plus the root plus one of the scale's intervals plus a whole number of octaves |
| ScaleEngine.ScaleNoteEuclidean | Arpy/Core/MIDI/ScaleEngine.swift:22-32 | before clamping the note is middle C plus root plus the interval at `degree mod n` plus 12 per octave of `degree div n` and the offset |
| ScaleEngine.ScaleNoteOctave | Arpy/Core/MIDI/ScaleEngine.swift:32 | going `n` degrees up is one octave up: 12 more before clamping, and the same as one more octave offset after |
| ScaleEngine.NoteInScaleRoot | Arpy/Core/MIDI/ScaleEngine.swift:32 | degree 0 without offset is the root above middle C in every scale |
| ScaleEngine.NoteInOctave | Arpy/Core/MIDI/ScaleEngine.swift:42 | `((note - root) % 12 + 12) % 12` is the Euclidean pitch class above the root |
| ScaleEngine.NearestIn | Arpy/Core/MIDI/ScaleEngine.swift:46-55 | the chosen index is one of the first `n` intervals |
| ScaleEngine.Nearest | Arpy/Core/MIDI/ScaleEngine.swift:46-55 | the chosen index is an interval of the scale |
| ScaleEngine.NearestInMinimal | Arpy/Core/MIDI/ScaleEngine.swift:46-55 | the chosen interval is at least as near as every one of the first `n` and strictly nearer than every earlier one |
| ScaleEngine.NearestMinimal | Arpy/Core/MIDI/ScaleEngine.swift:46-55 | the chosen interval is the first of least distance in the whole scale |
| ScaleEngine.Quantize | Arpy/Core/MIDI/ScaleEngine.swift:38-62 | without intervals the note is unchanged; otherwise the result is a MIDI note 0 to 127 |
| ScaleEngine.QuantizeToScale | Arpy/Core/MIDI/ScaleEngine.swift:38-62 | the loop with the strict `<` returns exactly `Quantize` |
| ScaleEngine.QuantizeCongruence | Arpy/Core/MIDI/ScaleEngine.swift:42-57 | before clamping the result is `2 * root + interval` modulo 12: the root is counted twice |
| ScaleEngine.QuantizeUnclamped | Arpy/Core/MIDI/ScaleEngine.swift:42-57 | the unclamped result is the octave base plus the root plus the nearest interval, where the octave base is the root-aligned octave start at or below the note (in `(note - 12, note]`, congruent to the root modulo 12) |
| ScaleEngine.QuantizeRootC | Arpy/Core/MIDI/ScaleEngine.swift:42-57 | with root C the result's pitch class is an interval of the scale, and it moves the note no further than to any interval of the note's own octave |
| ScaleEngine.ChromaticIdentity | Arpy/Core/MIDI/ScaleEngine.swift:38-62 | the chromatic scale from C only clamps |
| ScaleEngine.QuantizeTieGoesDown | Arpy/Core/MIDI/ScaleEngine.swift:49-55 | C# in C major quantizes to C: a tie goes to the earlier interval |
| ScaleEngine.QuantizeRootCountedTwice | Arpy/Core/MIDI/ScaleEngine.swift:43-57 | D in D major quantizes to 64 |
| ScaleEngine.QuantizeLeavesScale | Arpy/Core/MIDI/ScaleEngine.swift:57 | F# in D major quantizes to 68, which is not a note of D major |
| PhraseEngine.PitchOffset | Arpy/Core/MIDI/PhraseEngine.swift:21 | the offset is 0 unless the phrase has steps, the amount is positive and the range is non-zero; otherwise it is the shape's offset |
| PhraseEngine.DefaultNeverModulates | Arpy/Models/MelodicConfig.swift:26-36 | the default melodic settings give a zero offset for every step and phrase length |
| MIDIEngine.NoteForStep | Arpy/Core/MIDI/MIDIEngine.swift:8-23 | there is no note exactly when the step is not a pulse or the track is muted; otherwise the note-on of the track's channel and velocity at `clamp(60 + root + transpose, 0, 127)` |
| MIDIEngine.ComputeMIDINote | Arpy/Core/MIDI/MIDIEngine.swift:32-56 | the note is always 0 to 127; without phrase steps it is only the clamped base note |
| MIDIEngine.ComputeWithoutPhrase | Arpy/Core/MIDI/MIDIEngine.swift:38-55 | with a zero range or no voicing amount the note is the transposed base note quantized and clamped |
| MIDIEngine.ComputeDefault | Arpy/Models/MelodicConfig.swift:26-36 | with the default settings every base note is only clamped, whatever the phrase length |
| MIDIEngine.NoteOffForTrack | Arpy/Core/MIDI/MIDIEngine.swift:59-61 | the note-off is on the track's channel with the note clamped to 0 to 127, unchanged when in range |
| MIDIEngine.NoteOffMatchesNoteOn | Arpy/Core/MIDI/MIDIEngine.swift:59-61 | the note-off for a step's note goes out with the same channel nibble and note byte, under status 8n instead of 9n |
| MIDIEngine.DefaultTrackNote | Arpy/Core/MIDI/MIDIEngine.swift:13-22 | a default track sounds middle C at velocity 100 on its own channel at a pulse, and nothing elsewhere |
| MIDIMessages.StatusByte | Arpy/Core/MIDI/MIDIMessage.swift:17 | the status byte is the kind plus `(channel - 1) mod 16`: the kind in the high nibble, the channel in the low one |
| MIDIMessages.NibbleOr | Arpy/Core/MIDI/MIDIMessage.swift:17 | or'ing the kind with a channel nibble adds them, and the two can be masked apart again |
| MIDIMessages.DataByte | Arpy/Core/MIDI/MIDIMessage.swift:18-19 | `UInt8(x & 0x7F)` is `x mod 128` |
| MIDIMessages.Bytes | Arpy/Core/MIDI/MIDIMessage.swift:13-32 | a note-on is status 9n, note and velocity modulo 128; a note-off is status 8n, note modulo 128 and 0; clock, start, stop and continue are F8, FA, FC and FB |
| MIDIMessages.StatusThenData | Arpy/Core/MIDI/MIDIMessage.swift:13-32 | notes take three bytes and real-time messages one; the first byte has its top bit set and every later one has it clear |
| MIDIMessages.ChannelStatus | Arpy/Core/MIDI/MIDIMessage.swift:17-23 | for channels 1 to 16 the status byte is `0x90 + channel - 1` or `0x80 + channel - 1` |
| MIDIMessages.ChannelWraps | Arpy/Core/MIDI/MIDIMessage.swift:17-23 | channels `c` and `c + 16` encode identically |
| MIDIMessages.ChannelZero | Arpy/Core/MIDI/MIDIMessage.swift:17-23 | channel 0 encodes with channel nibble 0xF |
| MIDIMessages.MiddleC | Arpy/Core/MIDI/MIDIMessage.swift:15-26 | middle C at velocity 100 on channel 1 is `[0x90, 60, 100]` on and `[0x80, 60, 0]` off |
| MIDIOutput.PackWord | Arpy/Core/MIDI/MIDIOutputService.swift:40-50 | a word is produced exactly for one to three bytes |
| MIDIOutput.PackOne | Arpy/Core/MIDI/MIDIOutputService.swift:42-43 | a one-byte word is message type 1, group 0, the byte in bits 16 to 23 and nothing below |
| MIDIOutput.PackTwo | Arpy/Core/MIDI/MIDIOutputService.swift:44-45 | a two-byte word is message type 2, group 0, the bytes in bits 16 to 23 and 8 to 15, bits 0 to 7 clear |
| MIDIOutput.PackThree | Arpy/Core/MIDI/MIDIOutputService.swift:46-47 | a three-byte word is message type 2, group 0, the bytes in bits 16 to 23, 8 to 15 and 0 to 7 |
| MIDIOutput.PackedFields | Arpy/Core/MIDI/MIDIOutputService.swift:42-47 | every packed word carries the first byte in bits 16 to 23, group 0, and type 1 for one byte, 2 otherwise |
| MIDIOutput.SendableMessages | Arpy/Core/MIDI/MIDIOutputService.swift:40-50 | every message but a control change fits one word |
| MIDIOutput.MIDIOutputService.constructor | Arpy/Core/MIDI/MIDIOutputService.swift:6-10 | a new service is not set up and has sent nothing |
| MIDIOutput.MIDIOutputService.Setup | Arpy/Core/MIDI/MIDIOutputService.swift:13-30 | a failing client creation, or else a failing source creation, is reported with its status; the service is set up exactly when both succeed |
| MIDIOutput.MIDIOutputService.Send | Arpy/Core/MIDI/MIDIOutputService.swift:33-57 | the packed word is sent exactly when the service is set up and the message fits one word; otherwise nothing is sent |
| MIDIOutput.MIDIOutputService.Teardown | Arpy/Core/MIDI/MIDIOutputService.swift:60-70 | afterwards the service is not set up, and nothing was sent |
| MIDIOutput.TeardownSilences | Arpy/Core/MIDI/MIDIOutputService.swift:33-34 | after teardown a send sends nothing |
| MIDIInput.Data1Of | Arpy/Core/MIDI/MIDIInputService.swift:77 | the first data byte is masked to 7 bits |
| MIDIInput.Data2Of | Arpy/Core/MIDI/MIDIInputService.swift:78 | the second data byte is masked to 7 bits |
| MIDIInput.DecodeWord | Arpy/Core/MIDI/MIDIInputService.swift:59-89 | F8, FA, FC and FB give clock, start, stop and continue; 9n with velocity gives a note-on, 9n without or 8n a note-off, Bn a control change, on channel `n + 1` with 7-bit data; nothing else decodes |
| MIDIInput.UnpackThree | Arpy/Core/MIDI/MIDIInputService.swift:60 | unpacking a three-byte word gives back its status byte and two data bytes |
| MIDIInput.UnpackOne | Arpy/Core/MIDI/MIDIInputService.swift:60 | unpacking a one-byte word gives back its status byte |
| MIDIInput.NoteRoundTrip | Arpy/Core/MIDI/MIDIInputService.swift:75-84 | a note sent on any channel comes back on that channel modulo 16, with note and velocity modulo 128; a velocity that wraps to 0 comes back as a note-off |
| MIDIInput.NoteOnFields | Arpy/Core/MIDI/MIDIInputService.swift:60-78 | the word sent for a note-on carries its status byte and both data bytes modulo 128 |
| MIDIInput.NoteOffFields | Arpy/Core/MIDI/MIDIInputService.swift:60-78 | the word sent for a note-off carries its status byte, its note and a zero velocity |
| MIDIInput.RoundTrip | Arpy/Core/MIDI/MIDIInputService.swift:59-89 | decoding the word sent for any in-range note message or any real-time message gives back that message |
| MIDIInput.NoteOnRoundTripInRange | Arpy/Core/MIDI/MIDIInputService.swift:81-82 | a note-on on channels 1 to 16, notes 0 to 127 and velocities 1 to 127 comes back unchanged |
| MIDIInput.NoteOffRoundTripInRange | Arpy/Core/MIDI/MIDIInputService.swift:83-84 | a note-off on channels 1 to 16 and notes 0 to 127 comes back unchanged |
| MIDIInput.InRangeWraps | Arpy/Core/MIDI/MIDIInputService.swift:76-77 | a channel and a note already in range are unchanged by the wrap-around |
| MIDIInput.RealTimeIgnoresData | Arpy/Core/MIDI/MIDIInputService.swift:62-73 | a real-time status decodes alike whatever the data bytes |
| MIDIController.DecodeControllerWord | Arpy/Core/MIDI/MIDIControllerService.swift:77-101 | pad events are on pads 1 to 8 (presses with velocity 1 to 127), knob events on controllers 1 to 8 with 7-bit values |
| MIDIController.PadPressExactly | Arpy/Core/MIDI/MIDIControllerService.swift:85-89 | a pad press is exactly a 9n word with velocity on notes 36 to 43, reported as pad `note - 35` with that velocity |
| MIDIController.PadReleaseExactly | Arpy/Core/MIDI/MIDIControllerService.swift:90-94 | a pad release is exactly an 8n word, or a 9n word without velocity, on notes 36 to 43 |
| MIDIController.KnobChangeExactly | Arpy/Core/MIDI/MIDIControllerService.swift:95-98 | a knob change is exactly a Bn word on controllers 1 to 8, reported with the raw controller number and value |
| MIDIController.ChannelIgnored | Arpy/Core/MIDI/MIDIControllerService.swift:78-84 | words that differ only in the channel nibble decode alike |
| MIDIController.PadFromFields | Arpy/Core/MIDI/MIDIControllerService.swift:85-89 | a word with the fields of a pad note-on decodes as that pad's press |
| MIDIController.PadFromNoteOn | Arpy/Core/MIDI/MIDIControllerService.swift:85-89 | a pad note struck on any channel, packed as the sequencer packs it, is read as that pad's press |
| ClockEngine.TickInterval | Arpy/Core/Clock/ClockEngine.swift:71-77 | the interval is the whole number of nanoseconds `r` with `r * bpm * ppq <= 60 * 10^9 < (r + 1) * bpm * ppq`: the truncated quotient |
| ClockEngine.TickIntervalExamples | Arpy/Core/Clock/ClockEngine.swift:71-77 | 20 833 333 ns at 120 BPM, 41 666 666 ns at 60 BPM, 10 416 666 ns at 240 BPM |
| ClockEngine.TickIntervalAntitone | Arpy/Core/Clock/ClockEngine.swift:71-77 | a faster tempo never gives a longer interval |
| ClockEngine.Clock.constructor | Arpy/Core/Clock/ClockEngine.swift:5-11 | a new clock is stopped at tick 0 with no timer and 24 PPQ |
| ClockEngine.Clock.Start | Arpy/Core/Clock/ClockEngine.swift:21-45 | while running nothing changes; from stopped the count restarts at 0 and a timer runs at the tempo's interval |
| ClockEngine.Clock.Stop | Arpy/Core/Clock/ClockEngine.swift:48-52 | the timer is cancelled and the clock stopped; the count is kept |
| ClockEngine.Clock.Reset | Arpy/Core/Clock/ClockEngine.swift:55-57 | the count goes back to 0; running or not stays as it was |
| ClockEngine.Clock.UpdateTempo | Arpy/Core/Clock/ClockEngine.swift:60-64 | a stopped clock is unchanged; a running one restarts at tick 0 with the new tempo's interval |
| ClockEngine.Clock.Fire | Arpy/Core/Clock/ClockEngine.swift:35-41 | a firing hands out the current tick and then counts on to `tick + 1` |
| ClockEngine.RunFromStart | Arpy/Core/Clock/ClockEngine.swift:21-44 | started from stopped and fired `n` times, the clock hands out exactly the ticks 0 to `n - 1` |
| SequencerSpec.Expired | Arpy/ViewModels/SequencerViewModel.swift:253 | the notes due are exactly those with `offTick <= tick` |
| SequencerSpec.ExpireNotes | Arpy/ViewModels/SequencerViewModel.swift:249-257 | the clock is sent first, then one message per due note; the notes kept are exactly the registered notes not yet due; state, counts and pending repeats are untouched |
| SequencerSpec.Kept | Arpy/ViewModels/SequencerViewModel.swift:257 | the notes kept are exactly those with `offTick > tick` |
| SequencerSpec.ExpirePartition | Arpy/ViewModels/SequencerViewModel.swift:253-257 | expiry loses and doubles no note: due and kept notes together are the notes |
| SequencerSpec.ExpireStep | Arpy/ViewModels/SequencerViewModel.swift:253-257 | the first note goes to exactly one side of the partition, ahead of the others |
| SequencerSpec.NoteOffsFor | Arpy/ViewModels/SequencerViewModel.swift:254-256 | one note-off per note due, on its channel, in order |
| SequencerSpec.SustainTicks | Arpy/ViewModels/SequencerViewModel.swift:292 | a note sounds for at least one tick |
| SequencerSpec.TriggerEffect | Arpy/ViewModels/SequencerViewModel.swift:282-336 | a pulse sends a note-on on the track's channel and velocity with a note 0 to 127, registers it until `tick + max(1, sustainTicks / triggers)`, and hands on one repeat per extra trigger |
| SequencerSpec.TriggerEffectParts | Arpy/ViewModels/SequencerViewModel.swift:283-304 | the effect is built from the note, triggers, step ticks and per-trigger sustain as `triggerNote` computes them |
| SequencerSpec.AddTriggerParts | Arpy/ViewModels/SequencerViewModel.swift:301-318 | a pulse appends its note-on to the output, its note to the sounding notes and its repeats to the pending ones |
| SequencerSpec.TriggerFirstTiming | Arpy/ViewModels/SequencerViewModel.swift:302-305 | the first sounding's note-off is due strictly after the tick, at `tick + max(1, sustainTicks / (repeats + 1))` |
| SequencerSpec.TriggerRepeatTiming | Arpy/ViewModels/SequencerViewModel.swift:319-333 | every repeat plays the pulse's note, is delayed a whole number of ticks within the step at the tick interval, and is switched off after it sounds |
| SequencerSpec.RepeatTiming | Arpy/ViewModels/SequencerViewModel.swift:319-333 | the same timing, from the triggers a triggering is made of |
| SequencerSpec.DelayedTiming | Arpy/ViewModels/SequencerViewModel.swift:302-322 | one repeat per trigger after the first, `offsetTicks` into the step, delayed `interval * offsetTicks` nanoseconds, due after it sounds |
| SequencerSpec.OffsetWithinStep | Arpy/ViewModels/SequencerViewModel.swift:302 | the truncated offset of a trigger inside the step is a whole number of ticks short of the next step |
| SequencerSpec.AddTrigger | Arpy/ViewModels/SequencerViewModel.swift:282-336 | a pulse leaves the sequencer state and the counts as they are |
| SequencerSpec.AdvanceTrack | Arpy/ViewModels/SequencerViewModel.swift:261-277 | a track's share of a tick changes no state but the playheads |
| SequencerSpec.AdvanceAll | Arpy/ViewModels/SequencerViewModel.swift:260-279 | the tracks' shares change no state but the playheads |
| SequencerSpec.Tick | Arpy/ViewModels/SequencerViewModel.swift:248-280 | a tick changes no state but the playheads |
| SequencerSpec.StepBoundary | Arpy/ViewModels/SequencerViewModel.swift:264-271 | at a boundary the count restarts and the playhead moves to `(step + 1) mod steps`; otherwise only the count grows, staying below the step's ticks |
| SequencerSpec.AtBoundaryMoves | Arpy/ViewModels/SequencerViewModel.swift:266-271 | at a boundary the playhead stays one of the track's steps |
| SequencerSpec.BoundaryFields | Arpy/ViewModels/SequencerViewModel.swift:266-271 | at a boundary the count restarts and the playhead moves on, whether or not the track fires |
| SequencerSpec.TriggerOnStepLeft | Arpy/ViewModels/SequencerViewModel.swift:268-276 | a track sends exactly when it fires, and then only the note-on of the step being left, not the one entered |
| SequencerSpec.FiringSends | Arpy/ViewModels/SequencerViewModel.swift:274-276 | a firing track sends the note-on of the step being left |
| SequencerSpec.SilentBoundary | Arpy/ViewModels/SequencerViewModel.swift:274-276 | a boundary on a rest or a muted track sends nothing |
| SequencerSpec.AdvanceTrackFrame | Arpy/ViewModels/SequencerViewModel.swift:261-277 | a track's share only appends, every note it adds is due after the tick, and other tracks' counts and playheads are untouched |
| SequencerSpec.FiringExtends | Arpy/ViewModels/SequencerViewModel.swift:274-276 | a firing only appends, with notes due after the tick |
| SequencerSpec.ExtendsTransitive | Arpy/ViewModels/SequencerViewModel.swift:260-279 | appending twice is appending |
| SequencerSpec.AdvanceAllAppends | Arpy/ViewModels/SequencerViewModel.swift:260-279 | the track loop only appends, and every note it adds is due after the tick |
| SequencerSpec.TickOrder | Arpy/ViewModels/SequencerViewModel.swift:248-280 | a tick sends the clock first, then exactly the note-offs of the notes due in order; the notes not due stay in order; no note left sounding is due |
| SequencerSpec.TrackCount | Arpy/ViewModels/SequencerViewModel.swift:264-267 | a track's count stays below its step's ticks |
| SequencerSpec.AdvanceAllCounts | Arpy/ViewModels/SequencerViewModel.swift:260-267 | the loop leaves each visited track's count below its step's ticks and the others as they were |
| SequencerSpec.CountsStep | Arpy/ViewModels/SequencerViewModel.swift:260-267 | the count bounds carry over from one track to the next |
| SequencerSpec.AdvanceAllPlayheads | Arpy/ViewModels/SequencerViewModel.swift:260-271 | the loop keeps every playhead one of its track's steps and leaves later tracks' as they were |
| SequencerSpec.PlayheadsStep | Arpy/ViewModels/SequencerViewModel.swift:260-271 | the playhead bounds carry over from one track to the next |
| SequencerSpec.AtBoundaryOrNot | Arpy/ViewModels/SequencerViewModel.swift:266-271 | a track's share keeps its playhead one of its steps |
| SequencerSpec.TickBounds | Arpy/ViewModels/SequencerViewModel.swift:248-280 | with distinct track numbers, after a tick every count is below its step's ticks and every playhead is one of its track's steps |
| SequencerSpec.PanicMessages | Arpy/ViewModels/SequencerViewModel.swift:215-220 | panic sends 4 × 128 messages |
| SequencerSpec.Panic | Arpy/ViewModels/SequencerViewModel.swift:215-222 | panic appends 512 note-offs to what was sent and forgets every sounding note, with state, counts and pending repeats untouched |
| SequencerSpec.PanicCoversAll | Arpy/ViewModels/SequencerViewModel.swift:215-220 | every note of channels 1 to 4 is switched off at its place in channel-major order, and nothing else is sent |
| SequencerSpec.PanicMessagesStep | Arpy/ViewModels/SequencerViewModel.swift:216-218 | the message at `(channel - 1) * 128 + note` switches off that note of that channel |
| SequencerSpec.ZeroCounts | Arpy/ViewModels/SequencerViewModel.swift:228-230 | every existing count, and no other, is set to 0 |
| SequencerSpec.StartRestarts | Arpy/ViewModels/SequencerViewModel.swift:226-233 | starting plays, sends the start message, zeroes every count and the playheads of tracks 1 to 4, and keeps the sounding notes |
| SequencerSpec.StopSilences | Arpy/ViewModels/SequencerViewModel.swift:236-246 | stopping stops, sends the stop message and then a note-off for every sounding note, and forgets them |
| SequencerSpec.StartPlayback | Arpy/ViewModels/SequencerViewModel.swift:226-234 | starting plays, sends exactly the start message, keeps the tracks, tempo, sounding notes and pending repeats, and keeps the set of counted track numbers |
| SequencerSpec.StopPlayback | Arpy/ViewModels/SequencerViewModel.swift:236-246 | stopping stops, sends the stop message followed by one message per sounding note, forgets the notes, and keeps tracks, tempo, counts and pending repeats |
| SequencerSpec.TogglePlayStop | Arpy/ViewModels/SequencerViewModel.swift:180-186 | the playing flag flips; tracks, tempo and pending repeats are kept; one message is sent on start, one plus one per sounding note on stop |
| SequencerSpec.FirstIndex | Arpy/ViewModels/SequencerViewModel.swift:209 | the index found is the first track with that number; none is found when no track has it |
| SequencerSpec.ToggledMute | Arpy/ViewModels/SequencerViewModel.swift:208-212 | toggling keeps the number of tracks |
| SequencerSpec.ToggleMute | Arpy/ViewModels/SequencerViewModel.swift:208-212 | nothing is sent and no note changes; tracks keep their numbers and order, and only a track numbered as the selected one can change its mute flag |
| SequencerSpec.ToggleMuteFlipsSelected | Arpy/ViewModels/SequencerViewModel.swift:208-212 | only the first track with the selected number changes, only in its mute flag; toggling twice restores the tracks |
| SequencerSpec.FirstIndexUnique | Arpy/ViewModels/SequencerViewModel.swift:209 | an index holding the number with none before it is the one found |
| SequencerSpec.ShiftWhileHeld | Arpy/ViewModels/SequencerViewModel.swift:152-164 | pressing pad 8 turns the melodic shift on, and releasing it turns it off and changes nothing else |
| SequencerSpec.PadPressed | Arpy/ViewModels/SequencerViewModel.swift:141-158 | only pad 5 sends anything or changes sounding notes and counts; pads outside 1 to 8, and pad 6 (tap tempo, not modelled), change nothing; tempo and pending repeats are kept |
| SequencerSpec.PadReleased | Arpy/ViewModels/SequencerViewModel.swift:160-165 | releasing any pad but 8 changes nothing; afterwards the shift is on exactly when it was on and the pad is not 8 |
| SequencerSpec.PadSelects | Arpy/ViewModels/SequencerViewModel.swift:143-145 | pads 1 to 4 select their track and change nothing else |
| SequencerSpec.Route | Arpy/ViewModels/SequencerViewModel.swift:74-95 | dispatch only ever names pads 1 to 8 and knobs 1 to 8 |
| SequencerSpec.RouteExactly | Arpy/ViewModels/SequencerViewModel.swift:71-95 | exactly pad notes 36 to 43 on channel 10 and controllers 70 to 77 on channel 1 do something: pad `note - 35`, knob `cc - 69` at `value / 127` |
| SequencerSpec.HandleInput | Arpy/ViewModels/SequencerViewModel.swift:74-95 | a message that routes nowhere changes nothing; only a press of pad 5 can send anything; tempo and pending repeats are kept |
| Sequencer.SequencerViewModel.constructor | Arpy/ViewModels/SequencerViewModel.swift:15-28 | the sequencer starts in the default state, with zero counts for tracks 1 to 4 and nothing sounding, sent or pending |
| Sequencer.SequencerViewModel.TriggerNote | Arpy/ViewModels/SequencerViewModel.swift:282-336 | the method's effect is exactly `AddTrigger` |
| Sequencer.SequencerViewModel.SoundAll | Arpy/ViewModels/SequencerViewModel.swift:301-335 | the trigger loop sends and registers the first sounding and appends every later one to the pending repeats |
| Sequencer.SequencerViewModel.HandleTick | Arpy/ViewModels/SequencerViewModel.swift:248-280 | the method's effect is exactly `Tick` |
| Sequencer.SequencerViewModel.ExpireNotes | Arpy/ViewModels/SequencerViewModel.swift:250-257 | sends the clock and the due note-offs, and drops the due notes, as `ExpireNotes` says |
| Sequencer.SequencerViewModel.AdvanceTracks | Arpy/ViewModels/SequencerViewModel.swift:260-279 | the track loop's effect is exactly `AdvanceAll` over all tracks |
| Sequencer.SequencerViewModel.AdvanceNext | Arpy/ViewModels/SequencerViewModel.swift:260-279 | one more pass extends the loop's progress by one track |
| Sequencer.SequencerViewModel.AdvanceTrack | Arpy/ViewModels/SequencerViewModel.swift:261-277 | one pass's effect is exactly `AdvanceTrack` |
| Sequencer.SequencerViewModel.ClockTick | Arpy/Core/Clock/ClockEngine.swift:35-41 | a clock firing delivers the current tick to `handleTick` and counts on |
| Sequencer.SequencerViewModel.Panic | Arpy/ViewModels/SequencerViewModel.swift:215-222 | the method's effect is exactly `Panic` |
| Sequencer.SequencerViewModel.StartPlayback | Arpy/ViewModels/SequencerViewModel.swift:226-234 | the effect is exactly `StartPlayback`; the clock runs afterwards, a stopped clock starting at tick 0 at the tempo's interval and a running one left as it was |
| Sequencer.SequencerViewModel.StopPlayback | Arpy/ViewModels/SequencerViewModel.swift:236-246 | the clock stops, its timer cancelled and its count kept, and the effect is exactly `StopPlayback` |
| Sequencer.SequencerViewModel.TogglePlayStop | Arpy/ViewModels/SequencerViewModel.swift:180-186 | the effect is `TogglePlayStop`; a stopped clock starts at tick 0 with a timer at the tempo's interval, a running one stops with its tick kept and its timer cancelled |
| Sequencer.SequencerViewModel.ToggleMute | Arpy/ViewModels/SequencerViewModel.swift:208-212 | the method's effect is exactly `ToggleMute` |
| Sequencer.SequencerViewModel.PadPressed | Arpy/ViewModels/SequencerViewModel.swift:141-158 | the method's effect is exactly `PadPressed`; pad 5 toggles the clock as `TogglePlayStop` does, and every other pad leaves the clock untouched |
| Sequencer.SequencerViewModel.PadReleased | Arpy/ViewModels/SequencerViewModel.swift:160-165 | the method's effect is exactly `PadReleased` |
| Sequencer.SequencerViewModel.HandleMIDIInput | Arpy/ViewModels/SequencerViewModel.swift:74-95 | the method's effect is exactly `HandleInput`: routed pad notes press and release pads; a press of pad 5 toggles the clock, and every other message leaves the clock untouched |

## Left out

- Phrase-shape arithmetic (`Double` phase, `sin`, `round`) is a function
  parameter of the model (`ShapeOffset`). Only the zero guard of
  `pitchOffset` is modelled, so every property holds for any shape arithmetic.
- Timers and concurrency are left out: the dispatch timer, the asynchronous
  main-queue increment of the tick, and `Task` hops. A firing is a call to
  `Clock.Fire` and the tick it delivers is handled at once.
- Ratchet repeats after the first sounding are recorded as pending entries,
  each with its delay and note-off tick. Their later delivery, and the note
  each then registers, are not modelled.
- Tempo is a whole number of BPM, and `tickInterval` is integer division.
  `Double` BPM values are not modelled.
- Sustain and trigger offsets are exact reals. `Int(...)` truncation is
  modelled, but floating-point rounding is not.
- CoreMIDI is left out: client, port and endpoint creation and disposal,
  `connectAllSources`, the packet-list iteration (`MIDIEventPacketNext`) and
  `MIDIReceivedEventList`. The output service's set-up results are
  parameters; only the per-word encoding and decoding is modelled.
- The input service's `receivedClock`, `receivedStart` and `receivedStop`
  flags are not modelled; they are UI indicators set on the main queue.
- `knobChanged`, `applyNormalKnob`, `applyMelodicKnob` and
  `syncKnobsFromState` map knob values to settings through `Double`
  rounding. In the model a routed knob turn changes nothing.
- `tapTempo` depends on wall-clock dates; in the model pad 6 changes nothing.
- `startPlayback` zeroes the counts by a loop over the dictionary's keys.
  Key order does not matter there, so it is modelled as one map update
  (`ZeroCounts`).
- Persistence, all SwiftUI and AppKit views, `ClockSource`'s, `PhraseShape`'s
  and `VoicingStyle`'s display names, and `selectedTrack`'s display helpers
  are not part of this model.
- A track with zero steps is excluded: the tick handlers require every
  track's `steps` to be non-zero (`CanAdvance`). Swift's
  `(currentStep + 1) % track.pattern.steps` traps on zero, but only when that
  track reaches a step boundary. The trap is unreachable in the app: tracks
  start with 8 steps, and knob 1 sets `steps` to `round(value * 15) + 1`,
  which is 1 to 16.
- Integer overflow is not modelled: Swift traps on overflow, and the
  sequencer's values stay far from the limits.
- Models.Division.RawValue: states the `1/n` form through the denominator,
  not the six literal strings.
