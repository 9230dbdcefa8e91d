# voicesynth pitch tracker — a Dafny model

voicesynth listens to the microphone, estimates the pitch of the voice, and
plays it back on an oscillator while showing the nearest note. This project
models and proves properties of the pitch tracker's core in `js/main.js`:

- **Note table** (`getPitchesToNotes`). Nine octaves of twelve just-intonation
  notes, built as two parallel lists of pitches and names. The A of octave index
  4 is 440 Hz.
- **Nearest-note search** (`findClosest`). A modified binary search that returns
  the index of the closest value in the ascending pitch table. It returns `null`
  for tables shorter than 8.
- **Pitch gate** (`setPitch`). Frequencies outside 40–1200 Hz are ignored. An
  accepted frequency becomes the previous pitch. It is then shifted by
  `2^(octave - 4)` and shown with the nearest note's name and the signed offset
  to it.
- **Detection cycle** (`update`):
  - the gain decays by 0.005, floored at 0;
  - windows whose RMS is below 0.04 are silence: the decayed gain is written
    out and the previous pitch is cleared;
  - the pseudo-autocorrelation scan looks for the first rising streak of
    correlations above 0.9. There are three outcomes:
    - the streak ends inside the window: its last lag is refined by
      interpolation, the gain is set from the loudness, and 44100 / lag goes
      to `setPitch`;
    - the streak lasts to the last lag: that lag goes to `setPitch` without
      refinement;
    - no lag is good: the decayed gain is written out and the previous pitch
      is cleared.

Modules:

| file | module | contents |
|---|---|---|
| `numeric.dfy` | `Numeric` | `Option`, `Abs`/`Min`/`Max`, powers of two, and the order-preserving multiplication lemmas `MulLe`/`MulLt` |
| `note_table.dfy` | `NoteTable` | the table and the method that builds it, with its ascending order proved |
| `closest_match.dfy` | `ClosestMatch` | the bisection as written and the proof that it returns a nearest index |
| `correlation.dfy` | `Correlation` | the correlation per lag and the scan loop, with a reference definition (`Analyze`) that describes the outcome over lag ranges |
| `tracker.dfy` | `Tracker` | the `PitchTracker` class: its `curgain`/`prevPitch` state, `SetPitch` and `Update` |

Numbers are modelled as mathematical reals.

The hysteresis test of `setPitch` is reproduced as written. `prevPitch` is
assigned the new frequency just before the test compares the two, so the test
never rejects. `SetPitch`'s contract states that every in-range frequency is
shown.

## Model

| member | source | states |
|---|---|---|
| `NoteTable.RatiosAscending` | js/main.js:27 | the twelve ratios are positive, rise in table order, and stay below 2 |
| `NoteTable.OctaveA` | js/main.js:29 | the A of octave index i, 440 · 2^(i - 4), which is positive |
| `NoteTable.EntryPitch` | js/main.js:29-31 | the closed form of the pitch pushed at position k, A(k / 12) · ratio(k % 12), which is positive |
| `NoteTable.EntryName` | js/main.js:30-32 | the label pushed at position k, one of the twelve keys of the ratio table |
| `NoteTable.EntryPitchWithinOctave` | js/main.js:29-31 | inside an octave, each note's pitch is above the previous note's |
| `NoteTable.EntryPitchAcrossOctave` | js/main.js:28-31 | the A of the next octave is above the last note (Ab) of the current one |
| `NoteTable.EntryPitchStep` | js/main.js:28-33 | every table entry is strictly above its predecessor |
| `NoteTable.EntryPitchIncreasing` | js/main.js:28-33 | any later table entry is strictly above any earlier one |
| `NoteTable.FirstEntryPitch` | js/main.js:29 | the lowest pitch is 440 · 2^-4 = 27.5 Hz |
| `NoteTable.EntryAt` | js/main.js:28-32 | position 12 · i + j of the table holds the pitch A(i) · ratio(j) and the label of note j |
| `NoteTable.TablePrefix` | js/main.js:30-33 | defines the loop state: the pitches and names pushed so far are the first table entries |
| `NoteTable.TablePrefixExtend` | js/main.js:30-33 | pushing note j of octave i at position 12 · i + j keeps the pushed lists a prefix of the table |
| `NoteTable.TableAscending` | js/main.js:28-33 | a complete table ascends strictly and starts at 27.5 Hz |
| `NoteTable.GetPitchesToNotes` | js/main.js:25-36 | 108 pitches and 108 names; entry k is A(k / 12) · ratio(k % 12) and its label; the pitches strictly ascend and start at 27.5 |
| `ClosestMatch.NearestIn` | js/main.js:38-41 | reference linear scan: its index lies in the prefix and is no farther from x than any element of the prefix |
| `ClosestMatch.MinDistance` | js/main.js:38-41 | the smallest distance from x to an element, attained by some element |
| `ClosestMatch.FindClosest` | js/main.js:42-45 | `null` exactly when the table has fewer than 8 entries; otherwise an index into the table |
| `ClosestMatch.Midpoint` | js/main.js:48 | the rounded-up midpoint of a range of two or more indices lies in (bottom, top] |
| `ClosestMatch.Search` | js/main.js:46-58 | the bisection returns an index within the current range |
| `ClosestMatch.NearestFromAbove` | js/main.js:51-52 | when x lies below inWhat[mid] and inWhat[mid] is strictly nearer than inWhat[mid-1], mid is a nearest index of the sorted table |
| `ClosestMatch.NearestFromBelow` | js/main.js:55-56 | when x lies above inWhat[mid] and inWhat[mid] is strictly nearer than inWhat[mid+1], mid is a nearest index |
| `ClosestMatch.SearchReturnsMid` | js/main.js:50-56 | a step that returns the midpoint at once returns an element at the minimal distance |
| `ClosestMatch.SearchDescends` | js/main.js:51-53 | recursing into [bottom, mid-1] keeps an element at the minimal distance inside the range |
| `ClosestMatch.SearchAscends` | js/main.js:55-57 | recursing into [mid+1, top] keeps an element at the minimal distance inside the range |
| `ClosestMatch.SearchNearest` | js/main.js:46-58 | if the range holds an element at the minimal distance, the bisection returns one |
| `ClosestMatch.FindClosestNearest` | js/main.js:38-59 | on a sorted table of 8 or more values, findClosest returns an index no farther from x than any other, at the same distance as the linear scan's |
| `ClosestMatch.FindClosestExact` | js/main.js:50 | a value present in the sorted table is found exactly |
| `Correlation.MaxLag` | js/main.js:82 | MAX_SAMPLES, the floor of half the window length: twice it fits in the window, so every lag plus every summed index stays inside |
| `Correlation.AbsDiffSum` | js/main.js:106-108 | the summed absolute difference is non-negative |
| `Correlation.Correlation` | js/main.js:104-109 | a lag's correlation never exceeds 1 |
| `Correlation.Previous` | js/main.js:102-123 | `lastCorrelation` when a lag is examined: 1 before the first lag, then the previous lag's correlation; never above 1 |
| `Correlation.Qualifies` | js/main.js:111 | defines a good correlation: above 0.9 and above `lastCorrelation` |
| `Correlation.RefinedLag` | js/main.js:118-120 | defines the refined lag best_offset + 8 · shift, with shift the difference of the neighbouring correlations over the best one |
| `Correlation.Analyze` | js/main.js:102-129 | reference definition of the scan's outcome over lag ranges; its properties are stated by `AnalyzeNoPeak` and `AnalyzePeak`, and `Scan` is proved equal to it |
| `Correlation.NoDifferenceAtLagZero` | js/main.js:106-108 | at lag 0 every summed difference is zero |
| `Correlation.CorrelationAtLagZero` | js/main.js:104-109 | the correlation at lag 0 is exactly 1 |
| `Correlation.LagZeroNeverQualifies` | js/main.js:102-111 | lag 0 is never a good correlation, because `lastCorrelation` starts at 1 |
| `Correlation.FirstQualifying` | js/main.js:103-112 | the first good lag at or after `from`: every lag before it is not good, and it is good unless it is MAX_SAMPLES |
| `Correlation.StreakEnd` | js/main.js:111-117 | the first lag that is not good at or after `from`: every lag before it is good, and it is not good unless it is MAX_SAMPLES |
| `Correlation.AnalyzeNoPeak` | js/main.js:125-132 | the scan finds no pitch exactly when no lag is a good correlation |
| `Correlation.StreakRises` | js/main.js:111-116 | correlations rise along a streak of good lags |
| `Correlation.AnalyzePeak` | js/main.js:111-127 | a found peak is a good lag of at least 1 with the largest good correlation so far; a refined peak is followed by the stored lag that ended the streak (so both neighbours read at line 118 exist); an unrefined peak is the last lag |
| `Correlation.StreakGrows` | js/main.js:111-116 | a good lag inside the running streak extends it |
| `Correlation.StreakEndsAt` | js/main.js:117-121 | a lag that is not good, reached while the streak runs, makes the outcome the refined lag of the lag before it |
| `Correlation.ScanCompletes` | js/main.js:125-128 | when the loop runs to the end, the outcome is the last lag if a streak started, and no peak otherwise |
| `Correlation.CorrelationAt` | js/main.js:104-109 | the inner loop computes the lag's correlation |
| `Correlation.Scan` | js/main.js:82-129 | the scan loop's outcome equals the reference definition `Analyze`: no peak, the last lag unrefined, or best_offset + 8 · shift at the end of the first good streak |
| `Tracker.InRange` | js/main.js:62 | defines the range test: neither below 40 Hz nor above 1200 Hz |
| `Tracker.HysteresisRejects` | js/main.js:64 | defines the 5% test: no previous pitch, or a jump of more than 5% of it |
| `Tracker.HysteresisPassesItself` | js/main.js:63-64 | an in-range frequency compared with itself, as happens right after line 63 overwrites `prevPitch`, is never rejected |
| `Tracker.Decay` | js/main.js:89 | the decayed gain is never negative, never above a non-negative old gain, and 0 once the old gain is at most 0.005 |
| `Tracker.IsSilent` | js/main.js:95-96 | defines silence as a mean square below 0.04² |
| `Tracker.PeakLag` | js/main.js:120 | defines the lag handed to setPitch: best_offset + 8 · shift after an early exit (line 120), or the bare best_offset when the loop ran to the end (line 127) |
| `Tracker.Accepts` | js/main.js:120 | defines when setPitch accepts 44100 / lag (line 120, and line 127 for the unrefined lag): a positive lag whose frequency is in range |
| `Tracker.AcceptedLags` | js/main.js:62 | the accepted lags are exactly those from 44100 / 1200 = 36.75 to 44100 / 40 = 1102.5 samples |
| `Tracker.SquareSum` | js/main.js:91-94 | the sum of squares is non-negative |
| `Tracker.SilenceMatchesRms` | js/main.js:95-96 | comparing the mean square with 0.04² decides exactly what comparing the RMS with 0.04 decides |
| `Tracker.ZeroSquareSum` | js/main.js:91-94 | an all-zero window has a zero sum of squares |
| `Tracker.ZeroWindowIsSilent` | js/main.js:91-100 | an all-zero window is silence |
| `Tracker.Transpose` | js/main.js:65 | octave 4 leaves the frequency unchanged |
| `Tracker.TransposeUp` | js/main.js:65 | one octave higher doubles the shifted frequency |
| `Tracker.Display` | js/main.js:66-73 | the shown note is the name at a nearest table index, the offset is the frequency minus that pitch, the `+` sign appears exactly when the offset is not negative, and the frequency and gain are passed through |
| `Tracker.AscendingIsSorted` | js/main.js:67 | the strictly ascending table meets the sortedness findClosest relies on |
| `Tracker.PitchTracker.constructor` | js/main.js:13-14 | full gain and no previous pitch (lines 13-14), and the note table as `init` builds it with getPitchesToNotes at line 140 |
| `Tracker.PitchTracker.SetPitch` | js/main.js:61-74 | out-of-range frequencies leave the state alone and show nothing; in-range ones become the previous pitch and are always shown, transposed by the octave |
| `Tracker.PitchTracker.Update` | js/main.js:76-133 | silence exactly when the RMS is below 0.04; no pitch exactly when the scan finds none; both decay the gain and clear the previous pitch; otherwise the gain becomes min(1, loudness) and 44100 / lag is shown when in range, and rejected otherwise |

## Left out

- The Web Audio graph, `getUserMedia`, `init`, the `requestAnimationFrame` loop and the knockout view model are not modelled. The writes to `gain.gain.value`, `osc.frequency.value` and the observables are returned instead, as `Cycle` and `Reading` values.
- Floating point is not modelled: numbers are reals. No rounding, NaN or infinity exists in the model.
- A zero or negative refined lag is rejected without dividing. In the source it gives an infinite or negative frequency that the range test refuses.
- `Math.sqrt` is not modelled. The silence gate compares the mean square with 0.04², and `SilenceMatchesRms` shows that this equals the RMS comparison.
- `Math.log2` is not modelled. The gain formula log2(1 + rms) / log2(1.5) is a non-negative `loudness` the caller supplies.
- Tracker.Display: the offset is not rounded to two decimals by `toFixed(2)`. The sign is therefore taken from the exact offset. In the source, a small negative offset that rounds to "-0.00" is shown as "+-0.00".
- Tracker.PitchTracker.Update: requires a non-empty window. The source always reads 512 samples; with an empty one its RMS would be NaN.
- The octave slider's value is an integer parameter of `SetPitch` and `Update`.
- `findClosest`'s optional `bottom`/`top` arguments are modelled as `Search`'s range parameters, with `FindClosest` as the entry call without them.
