/**
 * MIDI helpers: transposing the notes of a MIDI file's pitched instruments
 * in place, and a mock output port that queues the messages sent to it.
 */
module MidiUtil {

  /** A note of a MIDI file: velocity, pitch, start and end in seconds. */
  datatype PrettyNote = PrettyNote(velocity: int, pitch: int, start: real, end: real)

  /** `note` with its pitch raised by `n` semitones. */
  function ShiftPitch(note: PrettyNote, n: int): PrettyNote
  {
    note.(pitch := note.pitch + n)
  }

  /**
   * The notes with every pitch raised by `n` semitones: the same number of
   * notes, in the same order, each differing from the original in pitch alone.
   */
  function Transpose(notes: seq<PrettyNote>, n: int): (r: seq<PrettyNote>)
    ensures |r| == |notes|
    ensures forall j :: 0 <= j < |notes| ==> r[j].pitch == notes[j].pitch + n
    ensures forall j :: 0 <= j < |notes| ==>
      r[j].velocity == notes[j].velocity && r[j].start == notes[j].start && r[j].end == notes[j].end
    decreases |notes|
  {
    if |notes| == 0 then []
    else
      var rest := Transpose(notes[1..], n);
      assert forall j :: 1 <= j < |notes| ==> notes[j] == notes[1..][j - 1];
      [ShiftPitch(notes[0], n)] + rest
  }

  /** Transposing by `a` and then by `b` is transposing by `a + b`. */
  lemma {:induction false} TransposeCompose(notes: seq<PrettyNote>, a: int, b: int)
    ensures Transpose(Transpose(notes, a), b) == Transpose(notes, a + b)
  {
    var left, right := Transpose(Transpose(notes, a), b), Transpose(notes, a + b);
    forall j | 0 <= j < |notes|
      ensures left[j] == right[j]
    {
      assert left[j].pitch == right[j].pitch;
    }
  }

  /** Transposing by 0 changes nothing. */
  lemma {:induction false} TransposeZero(notes: seq<PrettyNote>)
    ensures Transpose(notes, 0) == notes
  {
    var r := Transpose(notes, 0);
    forall j | 0 <= j < |notes|
      ensures r[j] == notes[j]
    {
      assert r[j].pitch == notes[j].pitch;
    }
  }

  /** Transposing by `n` and then by `-n` restores every pitch. */
  lemma {:induction false} TransposeInverse(notes: seq<PrettyNote>, n: int)
    ensures Transpose(Transpose(notes, n), -n) == notes
  {
    TransposeCompose(notes, n, -n);
    TransposeZero(notes);
  }

  /** An instrument of a MIDI file: a drum flag and its notes, which are changed in place. */
  class Instrument {
    const isDrum: bool
    const notes: array<PrettyNote>

    constructor(isDrum: bool, notes: array<PrettyNote>)
      ensures this.isDrum == isDrum && this.notes == notes
    {
      this.isDrum := isDrum;
      this.notes := notes;
    }
  }

  /** A MIDI file: its list of instruments. */
  class PrettyMidi {
    const instruments: seq<Instrument>

    constructor(instruments: seq<Instrument>)
      ensures this.instruments == instruments
    {
      this.instruments := instruments;
    }
  }

  /** Whether no two instruments in the list share one list of notes. */
  predicate DistinctNoteLists(instruments: seq<Instrument>)
  {
    forall i, j :: 0 <= i < j < |instruments| ==> instruments[i].notes != instruments[j].notes
  }

  /**
   * Raises every note of every instrument that is not a drum by `n`
   * semitones, in place; drum notes are left alone.
   */
  method ShiftInstrumentNotes(midiData: PrettyMidi, n: int)
    requires DistinctNoteLists(midiData.instruments)
    modifies set i | 0 <= i < |midiData.instruments| && !midiData.instruments[i].isDrum :: midiData.instruments[i].notes
    ensures forall i :: 0 <= i < |midiData.instruments| && midiData.instruments[i].isDrum ==>
      midiData.instruments[i].notes[..] == old(midiData.instruments[i].notes[..])
    ensures forall i :: 0 <= i < |midiData.instruments| && !midiData.instruments[i].isDrum ==>
      midiData.instruments[i].notes[..] == Transpose(old(midiData.instruments[i].notes[..]), n)
  {
    var instruments := midiData.instruments;
    var i := 0;
    while i < |instruments|
      invariant 0 <= i <= |instruments|
      invariant forall k :: 0 <= k < i && !instruments[k].isDrum ==>
        instruments[k].notes[..] == Transpose(old(instruments[k].notes[..]), n)
      invariant forall k :: (i <= k < |instruments| || (0 <= k < i && instruments[k].isDrum)) ==>
        instruments[k].notes[..] == old(instruments[k].notes[..])
    {
      var instrument := instruments[i];
      if !instrument.isDrum {
        var notes := instrument.notes;
        var j := 0;
        while j < notes.Length
          modifies notes
          invariant 0 <= j <= notes.Length
          invariant forall m :: 0 <= m < j ==> notes[m] == ShiftPitch(old(notes[m]), n)
          invariant forall m :: j <= m < notes.Length ==> notes[m] == old(notes[m])
        {
          notes[j] := notes[j].(pitch := notes[j].pitch + n);
          j := j + 1;
        }
        assert notes[..] == Transpose(old(notes[..]), n);
      }
      i := i + 1;
    }
  }

  /** A MIDI message: its content and the `time` attribute the port stamps. */
  class MidiMessage {
    const content: seq<int>
    var time: real

    constructor(content: seq<int>, time: real)
      ensures this.content == content && this.time == time
    {
      this.content := content;
      this.time := time;
    }
  }

  /** An output port that keeps what it is sent in a first-in first-out queue. */
  class MockMidiPort {
    var messageQueue: seq<MidiMessage>

    constructor()
      ensures messageQueue == []
    {
      messageQueue := [];
    }

    /**
     * Stamps the message with the clock reading `now` and puts it at the back
     * of the queue, so messages leave the queue in the order they were sent.
     */
    method Send(msg: MidiMessage, now: real)
      modifies this`messageQueue, msg`time
      ensures msg.time == now
      ensures messageQueue == old(messageQueue) + [msg]
    {
      msg.time := now;
      messageQueue := messageQueue + [msg];
    }
  }
}

/** The older copy of the MIDI helpers, whose transposition is the same. */
module LegacyMidiUtil {
  import opened MidiUtil

  /** Raises the notes of every instrument that is not a drum by `n` semitones, in place. */
  method ShiftInstrumentNotes(midiData: PrettyMidi, n: int)
    requires DistinctNoteLists(midiData.instruments)
    modifies set i | 0 <= i < |midiData.instruments| && !midiData.instruments[i].isDrum :: midiData.instruments[i].notes
    ensures forall i :: 0 <= i < |midiData.instruments| && midiData.instruments[i].isDrum ==>
      midiData.instruments[i].notes[..] == old(midiData.instruments[i].notes[..])
    ensures forall i :: 0 <= i < |midiData.instruments| && !midiData.instruments[i].isDrum ==>
      midiData.instruments[i].notes[..] == Transpose(old(midiData.instruments[i].notes[..]), n)
  {
    MidiUtil.ShiftInstrumentNotes(midiData, n);
  }
}
