// The detection cycle: the tracker's persistent state (the current gain and
// the previously accepted pitch), the range and hysteresis gate with the note
// lookup (setPitch), and one cycle over a sample window (update).
module Tracker {
  import opened Numeric
  import opened NoteTable
  import opened ClosestMatch
  import opened Correlation

  /** Frequencies outside [LowerLimit, UpperLimit] Hz are ignored. */
  const LowerLimit := 40.0
  const UpperLimit := 1200.0
  /** The sample rate the lag is converted with. */
  const SampleRate := 44100.0
  /** The gain falls by this much at the start of every cycle. */
  const GainStep := 0.005
  /** Windows whose RMS is below this are silence. */
  const SilenceThreshold := 0.04
  /** The relative pitch change the hysteresis test rejects. */
  const Hysteresis := 0.05

  predicate InRange(freq: real) {
    !(freq < LowerLimit || freq > UpperLimit)
  }

  /** The 5% test of setPitch: no previous pitch, or a jump of more than 5% from it. */
  predicate HysteresisRejects(freq: real, prev: real) {
    prev == 0.0 || Abs(freq - prev) > prev * Hysteresis
  }

  /** The gain after the per-cycle decay, floored at 0. */
  function Decay(gain: real): (r: real)
    ensures r >= 0.0
    ensures gain >= 0.0 ==> r <= gain
    ensures gain <= GainStep ==> r == 0.0
  {
    Max(0.0, gain - GainStep)
  }

  /** The sum of the squares of the first n samples. */
  function SquareSum(buf: seq<real>, n: nat): (r: real)
    requires n <= |buf|
    ensures r >= 0.0
  {
    if n == 0 then 0.0 else SquareSum(buf, n - 1) + buf[n - 1] * buf[n - 1]
  }

  /**
   * RMS below the silence threshold, stated on the mean square: for the
   * non-negative square root, sqrt(m) < t exactly when m < t * t.
   */
  predicate IsSilent(buf: seq<real>)
    requires |buf| > 0
  {
    SquareSum(buf, |buf|) / (|buf| as real) < SilenceThreshold * SilenceThreshold
  }

  /**
   * The frequency shifted by (octave - 4) octaves before the note lookup:
   * octave 4 leaves it unchanged, each step doubles or halves it.
   */
  function Transpose(freq: real, octave: int): (r: real)
    ensures octave == 4 ==> r == freq
  {
    freq * Pow2(octave - 4)
  }

  /** Moving up one octave doubles the transposed frequency. */
  lemma TransposeUp(freq: real, octave: int)
    ensures Transpose(freq, octave + 1) == 2.0 * Transpose(freq, octave)
  {
    Pow2Step(octave - 4);
  }

  /** What the display and the oscillator are given for an accepted pitch. */
  datatype Reading = Reading(name: string, offset: real, plus: bool, freq: real, gain: real)

  /** The outcome of one detection cycle. */
  datatype Cycle =
    | Silent(gain: real)       // RMS below the threshold; the decayed gain is written out
    | Unvoiced(gain: real)     // no good correlation; the decayed gain is written out
    | Rejected(lag: real)      // setPitch ignored the frequency; nothing is written out
    | Detected(reading: Reading)

  /** The lag a peak is converted with: interpolated, or the bare peak lag. */
  function PeakLag(s: ScanOutcome): real
    requires !s.NoPeak?
  {
    match s
    case Refined(_, lag) => lag
    case Unrefined(best) => best as real
  }

  /**
   * setPitch accepts 44100 / lag. A lag of 0 gives Infinity and a negative
   * lag a negative frequency: both fail the range test.
   */
  predicate Accepts(lag: real) {
    lag > 0.0 && InRange(SampleRate / lag)
  }

  /** The lags setPitch accepts are those of 36.75 to 1102.5 samples (1200 Hz down to 40 Hz). */
  lemma AcceptedLags(lag: real)
    ensures Accepts(lag) <==> SampleRate / UpperLimit <= lag <= SampleRate / LowerLimit
  {
    if lag > 0.0 {
      var f := SampleRate / lag;
      assert f * lag == SampleRate;
      if f < LowerLimit {
        MulLt(lag, f, LowerLimit);
      } else {
        MulLe(lag, LowerLimit, f);
      }
      if f > UpperLimit {
        MulLt(lag, UpperLimit, f);
      } else {
        MulLe(lag, f, UpperLimit);
      }
    }
  }

  /**
   * The 5% test right after prevPitch is overwritten with the frequency:
   * an in-range frequency compared with itself is never rejected.
   */
  lemma HysteresisPassesItself(freq: real)
    requires InRange(freq)
    ensures !HysteresisRejects(freq, freq)
  {
  }

  /**
   * The note shown for a (scaled) frequency: the name of the nearest table
   * pitch, the signed difference to it, and a `+` sign exactly when that
   * difference is not negative.
   */
  function Display(pitches: seq<real>, names: seq<string>, freq: real, gain: real): (r: Reading)
    requires |pitches| == |names| && |pitches| >= MinLength && Sorted(pitches)
    ensures r.freq == freq && r.gain == gain
    ensures exists i :: 0 <= i < |names| && IsNearest(pitches, freq, i) &&
              r.name == names[i] && r.offset == freq - pitches[i]
    ensures r.plus <==> r.offset >= 0.0
  {
    FindClosestNearest(freq, pitches);
    var i := FindClosest(freq, pitches).value;
    var offset := freq - pitches[i];
    Reading(names[i], offset, offset >= 0.0, freq, gain)
  }

  lemma AscendingIsSorted(s: seq<real>)
    requires StrictlyAscending(s)
    ensures Sorted(s)
  {
    forall i, j | 0 <= i < j < |s|
      ensures At(s, i) <= At(s, j)
    {
      assert s[i] < s[j];
    }
  }

  /** Silence holds of the mean square exactly when it holds of the RMS. */
  lemma SilenceMatchesRms(buf: seq<real>, rms: real)
    requires |buf| > 0
    requires rms >= 0.0 && rms * rms == SquareSum(buf, |buf|) / (|buf| as real)
    ensures rms < SilenceThreshold <==> IsSilent(buf)
  {
    var t := SilenceThreshold;
    if rms < t {
      MulLe(rms, rms, t);
      MulLt(t, rms, t);
    } else {
      MulLe(rms, t, rms);
      MulLe(t, t, rms);
    }
  }

  lemma {:induction false} ZeroSquareSum(buf: seq<real>, n: nat)
    requires n <= |buf|
    requires forall i :: 0 <= i < |buf| ==> buf[i] == 0.0
    ensures SquareSum(buf, n) == 0.0
  {
    if n > 0 {
      ZeroSquareSum(buf, n - 1);
    }
  }

  /** An all-zero window is silence. */
  lemma ZeroWindowIsSilent(buf: seq<real>)
    requires |buf| > 0
    requires forall i :: 0 <= i < |buf| ==> buf[i] == 0.0
    ensures IsSilent(buf)
  {
    ZeroSquareSum(buf, |buf|);
  }

  /**
   * The tracker's state: the note table built at start-up, the gain it
   * drives, and the previously accepted pitch.
   */
  class PitchTracker {
    const pitches: seq<real>
    const names: seq<string>
    var curgain: real
    var prevPitch: real

    ghost predicate Valid()
      reads this
    {
      |pitches| == NoteCount && |names| == NoteCount && Sorted(pitches) &&
      0.0 <= curgain <= 1.0 &&
      (prevPitch == 0.0 || InRange(prevPitch))
    }

    /** Start-up: build the note table; full gain, no previous pitch. */
    constructor ()
      ensures Valid()
      ensures curgain == 1.0 && prevPitch == 0.0
      ensures forall k :: 0 <= k < NoteCount ==>
                pitches[k] == EntryPitch(k) && names[k] == EntryName(k)
    {
      var p, n := GetPitchesToNotes();
      AscendingIsSorted(p);
      pitches, names := p, n;
      curgain := 1.0;
      prevPitch := 0.0;
    }

    /**
     * setPitch: ignore a frequency outside the limits; otherwise record it as
     * the previous pitch, and, since the 5% test then compares it with
     * itself, always show the note of the frequency scaled by 2^(octave - 4).
     */
    method SetPitch(freq: real, octave: int) returns (shown: Option<Reading>)
      requires Valid()
      modifies this`prevPitch
      ensures Valid()
      ensures !InRange(freq) ==> prevPitch == old(prevPitch) && shown == None
      ensures InRange(freq) ==>
                prevPitch == freq && shown == Some(Display(pitches, names, Transpose(freq, octave), curgain))
    {
      if freq < LowerLimit || freq > UpperLimit {
        return None;
      }
      prevPitch := freq;
      shown := None;
      // prevPitch was overwritten just above, so the 5% test compares the
      // frequency with itself and never rejects
      HysteresisPassesItself(freq);
      if !HysteresisRejects(freq, prevPitch) {
        shown := Some(Display(pitches, names, Transpose(freq, octave), curgain));
      }
    }

    /**
     * One detection cycle over a sample window. `loudness` stands for
     * log2(1 + rms) / log2(1.5), which is non-negative; the new gain is that
     * value clamped at 1.
     */
    method Update(buf: seq<real>, octave: int, loudness: real) returns (cycle: Cycle)
      requires Valid()
      requires |buf| > 0
      requires loudness >= 0.0
      modifies this`curgain, this`prevPitch
      ensures Valid()
      ensures cycle.Silent? <==> IsSilent(buf)
      ensures cycle.Unvoiced? <==> !IsSilent(buf) && Analyze(buf).NoPeak?
      ensures cycle.Silent? || cycle.Unvoiced? ==>
                curgain == Decay(old(curgain)) && cycle.gain == curgain && prevPitch == 0.0
      ensures !IsSilent(buf) && !Analyze(buf).NoPeak? ==>
                var lag := PeakLag(Analyze(buf));
                curgain == Min(1.0, loudness) &&
                if Accepts(lag) then
                  prevPitch == SampleRate / lag &&
                  cycle == Detected(Display(pitches, names, Transpose(SampleRate / lag, octave), curgain))
                else
                  prevPitch == old(prevPitch) && cycle == Rejected(lag)
    {
      curgain := Decay(curgain);

      var sumSquares := 0.0;
      for i := 0 to |buf|
        invariant sumSquares == SquareSum(buf, i)
      {
        sumSquares := sumSquares + buf[i] * buf[i];
      }
      if sumSquares / (|buf| as real) < SilenceThreshold * SilenceThreshold {
        prevPitch := 0.0;
        return Silent(curgain);
      }

      var scan := Scan(buf);
      if scan.NoPeak? {
        prevPitch := 0.0;
        return Unvoiced(curgain);
      }
      curgain := Min(1.0, loudness);
      var lag := PeakLag(scan);
      var shown := None;
      if lag > 0.0 {
        shown := SetPitch(SampleRate / lag, octave);
      }
      cycle := if shown.Some? then Detected(shown.value) else Rejected(lag);
    }
  }
}
