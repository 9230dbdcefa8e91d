// The chromatic note table: nine octaves of twelve just-intonation notes,
// kept as two parallel sequences (pitches and names) as the tracker does.
module NoteTable {
  import opened Numeric

  const Octaves := 9
  const NotesPerOctave := 12
  const NoteCount := Octaves * NotesPerOctave

  /** The note labels, in the order the ratio table lists them. */
  const Labels: seq<string> := ["A", "Bb", "B", "C", "Db", "D", "Eb", "E", "F", "Gb", "G", "Ab"]

  /** Just-intonation ratio of each label to the octave's A. */
  const Ratios: seq<real> := [1.0, 16.0 / 15.0, 1.125, 1.2, 1.25, 4.0 / 3.0, 45.0 / 32.0, 1.5, 1.6, 5.0 / 3.0, 1.8, 1.875]

  /** The reference A of octave index i: 440 Hz at index 4. */
  function OctaveA(i: int): (r: real)
    ensures r > 0.0
  {
    440.0 * Pow2(i - 4)
  }

  /** The pitch stored at table position k (octave k / 12, note k % 12). */
  function EntryPitch(k: nat): (r: real)
    ensures r > 0.0
  {
    OctaveA(k / NotesPerOctave) * Ratios[k % NotesPerOctave]
  }

  /** The label stored at table position k. */
  function EntryName(k: nat): (r: string)
    ensures r in Labels
  {
    Labels[k % NotesPerOctave]
  }

  ghost predicate StrictlyAscending(s: seq<real>) {
    forall i, j :: 0 <= i < j < |s| ==> s[i] < s[j]
  }

  /** Within an octave the ratios rise, and the last one stays below 2. */
  lemma RatiosAscending(j: nat)
    requires j + 1 < NotesPerOctave
    ensures 0.0 < Ratios[j] < Ratios[j + 1] < 2.0
  {
  }

  /** Inside octave i, note j + 1 is above note j. */
  lemma EntryPitchWithinOctave(i: nat, j: nat)
    requires j + 1 < NotesPerOctave
    ensures EntryPitch(NotesPerOctave * i + j) < EntryPitch(NotesPerOctave * i + j + 1)
  {
    var k := NotesPerOctave * i + j;
    assert k / NotesPerOctave == i && k % NotesPerOctave == j;
    assert (k + 1) / NotesPerOctave == i && (k + 1) % NotesPerOctave == j + 1;
    var a := OctaveA(i);
    RatiosAscending(j);
    assert a * Ratios[j] < a * Ratios[j + 1];
  }

  /** The A of octave i + 1 is above the Ab of octave i. */
  lemma EntryPitchAcrossOctave(i: nat)
    ensures EntryPitch(NotesPerOctave * i + 11) < EntryPitch(NotesPerOctave * (i + 1))
  {
    var k := NotesPerOctave * i + 11;
    assert k / NotesPerOctave == i && k % NotesPerOctave == 11;
    assert (k + 1) / NotesPerOctave == i + 1 && (k + 1) % NotesPerOctave == 0;
    Pow2Step(i - 4);
    assert EntryPitch(k + 1) == 2.0 * OctaveA(i);
  }

  /** Each table entry is strictly above its predecessor. */
  lemma EntryPitchStep(k: nat)
    ensures EntryPitch(k) < EntryPitch(k + 1)
  {
    var i, j := k / NotesPerOctave, k % NotesPerOctave;
    assert k == NotesPerOctave * i + j;
    if j + 1 < NotesPerOctave {
      EntryPitchWithinOctave(i, j);
    } else {
      EntryPitchAcrossOctave(i);
    }
  }

  /** Table pitches rise strictly across octave boundaries as well as within octaves. */
  lemma {:induction false} EntryPitchIncreasing(k: nat, m: nat)
    requires k < m
    ensures EntryPitch(k) < EntryPitch(m)
    decreases m - k
  {
    EntryPitchStep(k);
    if k + 1 < m {
      EntryPitchIncreasing(k + 1, m);
    }
  }

  /** The lowest table pitch is the A of octave index 0, 440 / 16 = 27.5 Hz. */
  lemma FirstEntryPitch()
    ensures EntryPitch(0) == 27.5
  {
    assert Pow2(-4) == Pow2(-3) / 2.0 == Pow2(-2) / 4.0 == Pow2(-1) / 8.0 == Pow2(0) / 16.0;
  }

  /** Position 12 · i + j holds note j of octave i. */
  lemma EntryAt(i: nat, j: nat)
    requires j < NotesPerOctave
    ensures EntryPitch(NotesPerOctave * i + j) == OctaveA(i) * Ratios[j]
    ensures EntryName(NotesPerOctave * i + j) == Labels[j]
  {
    var k := NotesPerOctave * i + j;
    assert k / NotesPerOctave == i && k % NotesPerOctave == j;
    assert OctaveA(k / NotesPerOctave) == OctaveA(i) && Ratios[k % NotesPerOctave] == Ratios[j];
    assert EntryPitch(k) == OctaveA(k / NotesPerOctave) * Ratios[k % NotesPerOctave];
    assert EntryName(k) == Labels[k % NotesPerOctave];
  }

  /** The first |pitches| table entries, with their names, are in place. */
  ghost predicate TablePrefix(pitches: seq<real>, names: seq<string>) {
    |pitches| == |names| &&
    forall k :: 0 <= k < |pitches| ==> pitches[k] == EntryPitch(k) && names[k] == EntryName(k)
  }

  /** Appending note j of octave i at position 12 · i + j extends the prefix. */
  lemma TablePrefixExtend(pitches: seq<real>, names: seq<string>, i: nat, j: nat)
    requires TablePrefix(pitches, names)
    requires j < NotesPerOctave && |pitches| == NotesPerOctave * i + j
    ensures TablePrefix(pitches + [OctaveA(i) * Ratios[j]], names + [Labels[j]])
  {
    EntryAt(i, j);
  }

  /** A complete table ascends strictly from 27.5 Hz. */
  lemma TableAscending(pitches: seq<real>, names: seq<string>)
    requires TablePrefix(pitches, names) && |pitches| == NoteCount
    ensures StrictlyAscending(pitches)
    ensures pitches[0] == 27.5
  {
    forall k, m | 0 <= k < m < |pitches|
      ensures pitches[k] < pitches[m]
    {
      EntryPitchIncreasing(k, m);
    }
    FirstEntryPitch();
  }

  /**
   * Builds the table octave by octave, appending each octave's twelve notes
   * in label order.
   */
  method GetPitchesToNotes() returns (pitches: seq<real>, names: seq<string>)
    ensures |pitches| == NoteCount && |names| == NoteCount
    ensures forall k :: 0 <= k < NoteCount ==> pitches[k] == EntryPitch(k) && names[k] == EntryName(k)
    ensures StrictlyAscending(pitches)
    ensures pitches[0] == 27.5
  {
    pitches, names := [], [];
    for i := 0 to Octaves
      invariant |pitches| == NotesPerOctave * i && TablePrefix(pitches, names)
    {
      var a := OctaveA(i);
      for j := 0 to NotesPerOctave
        invariant |pitches| == NotesPerOctave * i + j && TablePrefix(pitches, names)
      {
        TablePrefixExtend(pitches, names, i, j);
        pitches := pitches + [a * Ratios[j]];
        names := names + [Labels[j]];
      }
    }
    TableAscending(pitches, names);
  }
}
