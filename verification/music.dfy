/**
 * Note sequences as the interaction exchanges them with magenta, and the two
 * magenta helpers the interaction relies on: `adjust_sequence_times` (shift
 * every time by a delta) and `trim_note_sequence` (restrict to a window).
 * Both helpers are foreign code; they are modelled here by their documented
 * behaviour.
 */
module Music {
  import opened Wrappers

  /** A note event: MIDI pitch, velocity, and start and end time in seconds. */
  datatype Note = Note(pitch: int, velocity: int, startTime: real, endTime: real)

  /**
   * A note sequence: its notes in order, its total time, and the tempo of its
   * first tempo entry (`None` for a sequence without tempos).
   */
  datatype NoteSequence = NoteSequence(notes: seq<Note>, totalTime: real, qpm: Option<real>)

  /** A freshly constructed `NoteSequence()`: no notes, total time 0, no tempo. */
  const EmptySequence: NoteSequence := NoteSequence([], 0.0, None)

  function Min(x: real, y: real): real { if x <= y then x else y }

  function ShiftNote(n: Note, delta: real): (r: Note)
    ensures r.pitch == n.pitch && r.velocity == n.velocity
    ensures r.startTime - n.startTime == delta && r.endTime - n.endTime == delta
  {
    n.(startTime := n.startTime + delta, endTime := n.endTime + delta)
  }

  function ShiftNotes(notes: seq<Note>, delta: real): (r: seq<Note>)
    ensures |r| == |notes|
    ensures forall i :: 0 <= i < |r| ==> r[i] == ShiftNote(notes[i], delta)
    decreases |notes|
  {
    if |notes| == 0 then []
    else
      var rest := ShiftNotes(notes[1..], delta);
      assert forall i :: 1 <= i < |notes| ==> notes[i] == notes[1..][i - 1];
      [ShiftNote(notes[0], delta)] + rest
  }

  /** `adjust_sequence_times`: every note and the total time move by `delta`. */
  function AdjustSequenceTimes(s: NoteSequence, delta: real): (r: NoteSequence)
    ensures |r.notes| == |s.notes| && r.qpm == s.qpm
    ensures r.totalTime - s.totalTime == delta
    ensures forall i :: 0 <= i < |r.notes| ==>
      r.notes[i].pitch == s.notes[i].pitch && r.notes[i].velocity == s.notes[i].velocity &&
      r.notes[i].startTime - s.notes[i].startTime == delta &&
      r.notes[i].endTime - s.notes[i].endTime == delta
  {
    s.(notes := ShiftNotes(s.notes, delta), totalTime := s.totalTime + delta)
  }

  /** Two shifts are one shift by the sum of the deltas. */
  lemma AdjustCompose(s: NoteSequence, d1: real, d2: real)
    ensures AdjustSequenceTimes(AdjustSequenceTimes(s, d1), d2) == AdjustSequenceTimes(s, d1 + d2)
  {
    var lhs := AdjustSequenceTimes(AdjustSequenceTimes(s, d1), d2);
    var rhs := AdjustSequenceTimes(s, d1 + d2);
    assert lhs.notes == rhs.notes;
  }

  /** Shifting by zero changes nothing; shifting back undoes a shift. */
  lemma AdjustInverse(s: NoteSequence, d: real)
    ensures AdjustSequenceTimes(s, 0.0) == s
    ensures AdjustSequenceTimes(AdjustSequenceTimes(s, d), -d) == s
  {
    assert AdjustSequenceTimes(s, 0.0).notes == s.notes;
    AdjustCompose(s, d, -d);
    assert AdjustSequenceTimes(s, d + -d).notes == s.notes;
  }

  /** A note trimmed to end no later than `end`. */
  function ClipNote(n: Note, end: real): Note
  {
    n.(endTime := Min(n.endTime, end))
  }

  /** Whether trimming to `[start, end)` keeps the note: it must start inside the window. */
  predicate StartsIn(n: Note, start: real, end: real)
  {
    start <= n.startTime < end
  }

  /**
   * The notes of `trim_note_sequence`: notes starting before `start` or at or
   * after `end` are dropped and notes ending after `end` are truncated.
   */
  function TrimNotes(notes: seq<Note>, start: real, end: real): (r: seq<Note>)
    ensures |r| <= |notes|
    ensures AllInWindow(r, start, end)
    decreases |notes|
  {
    if |notes| == 0 then []
    else
      var rest := TrimNotes(notes[1..], start, end);
      if StartsIn(notes[0], start, end) then
        assert ([ClipNote(notes[0], end)] + rest)[1..] == rest;
        [ClipNote(notes[0], end)] + rest
      else rest
  }

  /**
   * Trimming keeps exactly the notes that start in the window: every kept
   * note is an input note starting in the window with its end clipped, and
   * every such input note is kept.
   */
  lemma {:induction false} TrimNotesKeeps(notes: seq<Note>, start: real, end: real)
    ensures forall n :: n in TrimNotes(notes, start, end) ==>
              exists m :: m in notes && StartsIn(m, start, end) && n == ClipNote(m, end)
    ensures forall m :: m in notes && StartsIn(m, start, end) ==> ClipNote(m, end) in TrimNotes(notes, start, end)
    decreases |notes|
  {
    if |notes| > 0 {
      TrimNotesKeeps(notes[1..], start, end);
      assert forall m :: m in notes[1..] ==> m in notes;
      assert forall m :: m in notes ==> m == notes[0] || m in notes[1..];
    }
  }

  /** `trim_note_sequence`: the notes trimmed to the window, and the total time capped at its end. */
  function TrimNoteSequence(s: NoteSequence, start: real, end: real): (r: NoteSequence)
    ensures InWindow(r, start, end)
    ensures r.totalTime == Min(s.totalTime, end) && r.qpm == s.qpm
  {
    s.(notes := TrimNotes(s.notes, start, end), totalTime := Min(s.totalTime, end))
  }

  /** Every note starts in `[start, end)` and ends by `end`. */
  ghost predicate AllInWindow(notes: seq<Note>, start: real, end: real)
    decreases |notes|
  {
    |notes| == 0 ||
    (StartsIn(notes[0], start, end) && notes[0].endTime <= end && AllInWindow(notes[1..], start, end))
  }

  /** The window condition note by note. */
  lemma {:induction false} AllInWindowIff(notes: seq<Note>, start: real, end: real)
    ensures AllInWindow(notes, start, end) <==>
            forall i :: 0 <= i < |notes| ==> start <= notes[i].startTime < end && notes[i].endTime <= end
    decreases |notes|
  {
    if |notes| > 0 {
      AllInWindowIff(notes[1..], start, end);
      assert forall i :: 1 <= i < |notes| ==> notes[i] == notes[1..][i - 1];
    }
  }

  /** The notes of `s` lie in `[start, end)`. */
  ghost predicate NotesInWindow(s: NoteSequence, start: real, end: real)
  {
    AllInWindow(s.notes, start, end)
  }

  /** The notes lie in `[start, end)` and the sequence ends by `end`. */
  ghost predicate InWindow(s: NoteSequence, start: real, end: real)
  {
    s.totalTime <= end && NotesInWindow(s, start, end)
  }

  /** Shifting notes that lie in a window moves them into the shifted window. */
  lemma {:induction false} ShiftInWindow(notes: seq<Note>, start: real, end: real, delta: real)
    requires AllInWindow(notes, start, end)
    ensures AllInWindow(ShiftNotes(notes, delta), start + delta, end + delta)
    decreases |notes|
  {
    if |notes| > 0 {
      ShiftInWindow(notes[1..], start, end, delta);
      assert ShiftNotes(notes, delta)[1..] == ShiftNotes(notes[1..], delta);
    }
  }

  /** Shifting a sequence that lies in a window moves it into the shifted window. */
  lemma AdjustInWindow(s: NoteSequence, start: real, end: real, delta: real)
    ensures NotesInWindow(s, start, end) ==> NotesInWindow(AdjustSequenceTimes(s, delta), start + delta, end + delta)
    ensures InWindow(s, start, end) ==> InWindow(AdjustSequenceTimes(s, delta), start + delta, end + delta)
  {
    if NotesInWindow(s, start, end) {
      ShiftInWindow(s.notes, start, end, delta);
    }
  }
}
