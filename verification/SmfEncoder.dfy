/** Encoding clips and the musical clock as a format 1 file of two tracks. */
module SmfEncoder {
  import opened Wrappers
  import opened Bytes
  import opened StableSort
  import opened SmfFormat
  import VariableLength
  import NoteOverlap

  // A clip holds notes and controls at ticks of its own; the caller gives each clip an offset.
  datatype Clip = Clip(notes: seq<Note>, controls: seq<Control>)
  datatype Placement = Placement(clip: Clip, offset: nat)

  datatype Tempo = Tempo(tick: u64, bpm: real)
  datatype Meter = Meter(tick: u64, numerator: byte, denominator: byte)
  datatype Timebase = Timebase(ppq: nat, tempos: seq<Tempo>, meters: seq<Meter>)

  predicate ValidTimebase(timebase: Timebase) {
    && 0 < timebase.ppq <= 0x3fff_ffff
    && timebase.tempos != [] && timebase.tempos[0].tick == 0
    && timebase.meters != [] && timebase.meters[0].tick == 0
    && (forall i :: 0 <= i < |timebase.tempos| - 1 ==> timebase.tempos[i].tick < timebase.tempos[i + 1].tick)
    && (forall i :: 0 <= i < |timebase.meters| - 1 ==> timebase.meters[i].tick < timebase.meters[i + 1].tick)
    && (forall i :: 0 <= i < |timebase.tempos| ==> timebase.tempos[i].bpm > 0.0)
    && (forall i :: 0 <= i < |timebase.meters| ==>
          timebase.meters[i].numerator != 0 && timebase.meters[i].denominator in {1, 2, 4, 8, 16, 32})
  }

  const MAX_SMF_PPQ: nat := 0x7fff

  // At one tick, note-offs come first.
  type Turn = x: nat | x < 2

  // An event of a track, already encoded.
  datatype Item = Item(tick: nat, order: Turn, data: bytes)

  // The order of the pair (tick, order).
  const ByMoment: Item -> int := (item: Item) => 2 * item.tick + item.order

  // The bytes of the events, from the tick of the previous one on, up to the end-of-track event.
  function Deltas(items: seq<Item>, previous: nat): Option<bytes> {
    if items == [] then Some([0, 0xff, 0x2f, 0])
    else if items[0].tick < previous || items[0].tick - previous >= VariableLength.VLQ_LIMIT then None
    else
      var rest :- Deltas(items[1..], items[0].tick);
      Some(VariableLength.Encoded(items[0].tick - previous) + items[0].data + rest)
  }

  function TrackChunk(items: seq<Item>): Option<bytes> {
    var data :- Deltas(Sort(items, ByMoment), 0);
    if |data| >= U32_LIMIT then None else Some(TRACK_TAG + Be32(|data|) + data)
  }

  // Tempo, in microseconds per quarter note.
  function Micros(bpm: real): int
    requires bpm > 0.0
  {
    (60000000.0 / bpm + 0.5).Floor
  }

  function TempoEvent(bpm: real): Option<bytes>
    requires bpm > 0.0
  {
    var micros := Micros(bpm);
    if 1 <= micros <= 0xff_ffff
    then Some([0xff, 0x51, 3, micros / 0x1_0000, micros / 0x100 % 0x100, micros % 0x100])
    else None
  }

  function Log2(n: byte): Option<nat> {
    if n == 1 then Some(0) else if n == 2 then Some(1) else if n == 4 then Some(2) else if n == 8 then Some(3)
    else if n == 16 then Some(4) else if n == 32 then Some(5) else if n == 64 then Some(6)
    else if n == 128 then Some(7) else None
  }

  function MeterEvent(numerator: byte, denominator: byte): Option<bytes> {
    var exponent :- Log2(denominator);
    Some([0xff, 0x58, 4, numerator, exponent, 24, 8])
  }

  predicate Within(tick: nat, origin: nat, end: Option<nat>) {
    tick > origin && (end.None? || tick < end.value)
  }

  // The last tempo change at or before the origin.
  function TempoAt(tempos: seq<Tempo>, tick: nat): (r: Option<Tempo>)
    ensures r.Some? ==> r.value in tempos
  {
    if tempos == [] then None
    else if tempos[|tempos| - 1].tick <= tick then Some(tempos[|tempos| - 1])
    else TempoAt(tempos[..|tempos| - 1], tick)
  }

  function MeterAt(meters: seq<Meter>, tick: nat): (r: Option<Meter>)
    ensures r.Some? ==> r.value in meters
  {
    if meters == [] then None
    else if meters[|meters| - 1].tick <= tick then Some(meters[|meters| - 1])
    else MeterAt(meters[..|meters| - 1], tick)
  }

  predicate Positive(tempos: seq<Tempo>) {
    forall i :: 0 <= i < |tempos| ==> tempos[i].bpm > 0.0
  }

  function TempoItems(tempos: seq<Tempo>, origin: nat, end: Option<nat>): Option<seq<Item>>
    requires Positive(tempos)
  {
    if tempos == [] then Some([])
    else
      var n := |tempos| - 1;
      var before :- TempoItems(tempos[..n], origin, end);
      if !Within(tempos[n].tick, origin, end) then Some(before)
      else
        var data :- TempoEvent(tempos[n].bpm);
        Some(before + [Item(tempos[n].tick - origin, 0, data)])
  }

  function MeterItems(meters: seq<Meter>, origin: nat, end: Option<nat>): Option<seq<Item>> {
    if meters == [] then Some([])
    else
      var n := |meters| - 1;
      var before :- MeterItems(meters[..n], origin, end);
      if !Within(meters[n].tick, origin, end) then Some(before)
      else
        var data :- MeterEvent(meters[n].numerator, meters[n].denominator);
        Some(before + [Item(meters[n].tick - origin, 0, data)])
  }

  // The clock in force at the origin, then every change inside the range.
  function ClockItems(timebase: Timebase, origin: nat, end: Option<nat>): Option<seq<Item>>
    requires Positive(timebase.tempos)
  {
    var tempo :- TempoAt(timebase.tempos, origin);
    var meter :- MeterAt(timebase.meters, origin);
    var tempoData :- TempoEvent(tempo.bpm);
    var meterData :- MeterEvent(meter.numerator, meter.denominator);
    var tempos :- TempoItems(timebase.tempos, origin, end);
    var meters :- MeterItems(timebase.meters, origin, end);
    Some([Item(0, 0, tempoData), Item(0, 0, meterData)] + tempos + meters)
  }

  // What a track of the performance says: notes by their number in the export, and controls.
  datatype Message = Press(id: nat, note: Note) | Lift(id: nat, note: Note) | Change(control: Control)

  datatype Cue = Cue(tick: nat, order: Turn, message: Message)

  function LyricBytes(lyric: Option<bytes>): bytes {
    if lyric.None? then [] else [0xff, LYRIC] + VariableLength.Encoded(|lyric.value|) + lyric.value + [0]
  }

  predicate Channelled(channel: nat) {
    1 <= channel <= 16
  }

  predicate Sayable(message: Message) {
    match message
    case Press(_, note) => Playable(note)
    case Lift(_, note) => Playable(note)
    case Change(control) => Settable(control)
  }

  predicate Playable(note: Note) {
    && note.key <= 127 && 1 <= note.velocity <= 127 && note.duration != 0 && Channelled(note.channel)
    && note.start + note.duration <= U64_MAX
    && (note.lyric.Some? ==> |note.lyric.value| < VariableLength.VLQ_LIMIT)
  }

  predicate Settable(control: Control) {
    control.data1 <= 127 && control.data2 <= 127 && Channelled(control.channel) && control.tick <= U64_MAX
  }

  function ControlBytes(control: Control): bytes
    requires Settable(control)
  {
    match control.kind
    case ControlChange => [0xb0 + control.channel - 1, control.data1, control.data2]
    case PitchBend => [0xe0 + control.channel - 1, control.data1, control.data2]
    case ChannelPressure => [0xd0 + control.channel - 1, control.data1]
  }

  function MessageBytes(message: Message): bytes
    requires Sayable(message)
  {
    match message
    case Press(_, note) => LyricBytes(note.lyric) + [0x90 + note.channel - 1, note.key, note.velocity]
    case Lift(_, note) => [0x80 + note.channel - 1, note.key, 0]
    case Change(control) => ControlBytes(control)
  }

  function Said(cue: Cue): Item {
    Item(cue.tick, cue.order, if Sayable(cue.message) then MessageBytes(cue.message) else [])
  }

  // A note or control moved by the offset of its clip.
  function Moved(note: Note, offset: nat): Note {
    note.(start := offset + note.start)
  }

  function MovedControl(control: Control, offset: nat): Control {
    control.(tick := offset + control.tick)
  }

  function ClipNotes(notes: seq<Note>, offset: nat): (r: seq<Note>)
    ensures |r| == |notes| && forall i :: 0 <= i < |r| ==> r[i] == Moved(notes[i], offset)
  {
    seq(|notes|, i requires 0 <= i < |notes| => Moved(notes[i], offset))
  }

  function ClipControls(controls: seq<Control>, offset: nat): (r: seq<Control>)
    ensures |r| == |controls| && forall i :: 0 <= i < |r| ==> r[i] == MovedControl(controls[i], offset)
  {
    seq(|controls|, i requires 0 <= i < |controls| => MovedControl(controls[i], offset))
  }

  // Every note of the export at its exported tick, in input order.
  function AllNotes(clips: seq<Placement>): seq<Note> {
    if clips == [] then []
    else AllNotes(clips[..|clips| - 1]) + ClipNotes(clips[|clips| - 1].clip.notes, clips[|clips| - 1].offset)
  }

  function AllControls(clips: seq<Placement>): seq<Control> {
    if clips == [] then []
    else AllControls(clips[..|clips| - 1]) + ClipControls(clips[|clips| - 1].clip.controls, clips[|clips| - 1].offset)
  }

  function NoteCues(notes: seq<Note>, first: nat): seq<Cue> {
    if notes == [] then []
    else
      var n := |notes| - 1;
      NoteCues(notes[..n], first) + [PressCue(first + n, notes[n]), LiftCue(first + n, notes[n])]
  }

  function PressCue(id: nat, note: Note): Cue {
    Cue(note.start, 1, Press(id, note))
  }

  function LiftCue(id: nat, note: Note): Cue {
    Cue(note.start + note.duration, 0, Lift(id, note))
  }

  function ChangeCue(control: Control): Cue {
    Cue(control.tick, 1, Change(control))
  }

  function ControlCues(controls: seq<Control>): (r: seq<Cue>)
    ensures |r| == |controls| && forall i :: 0 <= i < |r| ==> r[i] == ChangeCue(controls[i])
  {
    seq(|controls|, i requires 0 <= i < |controls| => ChangeCue(controls[i]))
  }

  // The performance in input order: clip by clip, the notes and then the controls.
  function Cues(clips: seq<Placement>): seq<Cue> {
    if clips == [] then []
    else
      var n := |clips| - 1;
      Cues(clips[..n]) + NoteCues(ClipNotes(clips[n].clip.notes, clips[n].offset), |AllNotes(clips[..n])|)
      + ControlCues(ClipControls(clips[n].clip.controls, clips[n].offset))
  }

  function RangeOf(note: Note): NoteOverlap.Range {
    NoteOverlap.Range(note.channel, note.key, note.start, note.start + note.duration)
  }

  function Ranges(notes: seq<Note>): (r: seq<NoteOverlap.Range>)
    ensures |r| == |notes| && forall i :: 0 <= i < |r| ==> r[i] == RangeOf(notes[i])
  {
    seq(|notes|, i requires 0 <= i < |notes| => RangeOf(notes[i]))
  }

  predicate AllPlayable(notes: seq<Note>) {
    forall i :: 0 <= i < |notes| ==> Playable(notes[i])
  }

  predicate AllSettable(controls: seq<Control>) {
    forall i :: 0 <= i < |controls| ==> Settable(controls[i])
  }

  const Saying: Cue -> Item := (cue: Cue) => Said(cue)

  // The header chunk: format 1, two tracks.
  function Header(ppq: nat): bytes
    requires ppq <= MAX_SMF_PPQ
  {
    HEADER_TAG + [0, 0, 0, 6, 0, 1, 0, 2] + Be16(ppq)
  }

  /** The bytes of an export. It is refused for an invalid clock, an event SMF cannot represent, two overlapping
      notes on one channel and key, or a gap or track too long. */
  ghost function Encode(timebase: Timebase, clips: seq<Placement>, origin: nat, end: Option<nat>): Option<bytes> {
    if !ValidTimebase(timebase) || timebase.ppq > MAX_SMF_PPQ then None
    else
      var clock :- ClockItems(timebase, origin, end);
      if !AllPlayable(AllNotes(clips)) || !AllSettable(AllControls(clips)) then None
      else if !Pairwise(Ranges(AllNotes(clips)), NoteOverlap.Apart) then None
      else
        var clockTrack :- TrackChunk(clock);
        var performance :- TrackChunk(Map(Cues(clips), Saying));
        Some(Header(timebase.ppq) + clockTrack + performance)
  }

  // The events still to write, after the bytes already written, still make up the whole.
  ghost predicate Pending(all: Option<bytes>, done: bytes, items: seq<Item>, previous: nat) {
    var rest := Deltas(items, previous);
    all == if rest.None? then None else Some(done + rest.value)
  }

  lemma {:induction false} OneWritten(all: Option<bytes>, done: bytes, items: seq<Item>, previous: nat)
    requires Pending(all, done, items, previous) && items != [] && previous <= items[0].tick
    ensures var delta := items[0].tick - previous;
      if delta >= VariableLength.VLQ_LIMIT then all.None?
      else Pending(all, done + VariableLength.Encoded(delta) + items[0].data, items[1..], items[0].tick)
  {
    var delta := items[0].tick - previous;
    if delta < VariableLength.VLQ_LIMIT {
      var rest := Deltas(items[1..], items[0].tick);
      var head := VariableLength.Encoded(delta) + items[0].data;
      if rest.Some? {
        assert done + (head + rest.value) == done + VariableLength.Encoded(delta) + items[0].data + rest.value;
      }
    }
  }

  lemma {:induction false} NoneWritten(items: seq<Item>)
    ensures Pending(Deltas(items, 0), [], items, 0)
  {
    var all := Deltas(items, 0);
    assert all.Some? ==> [] + all.value == all.value;
  }

  lemma {:induction false} AllWritten(all: Option<bytes>, done: bytes, items: seq<Item>, previous: nat)
    requires Pending(all, done, items, previous) && items == []
    ensures all == Some(done + [0, 0xff, 0x2f, 0])
  {
  }

  lemma {:induction false} SortedTicks(items: seq<Item>, n: nat)
    requires SortedBy(items, ByMoment) && n < |items|
    ensures forall i :: n < i < |items| ==> items[n].tick <= items[i].tick
  {
    forall i | n < i < |items| ensures items[n].tick <= items[i].tick {
      assert ByMoment(items[n]) <= ByMoment(items[i]);
    }
  }

  function Gap(items: seq<Item>, previous: nat, i: nat): int
    requires i < |items|
  {
    items[i].tick - if i == 0 then previous else items[i - 1].tick
  }

  // Every event comes less than 2^28 ticks after the one before it.
  ghost predicate GapsFit(items: seq<Item>, previous: nat) {
    forall i :: 0 <= i < |items| ==> Gap(items, previous, i) < 0x1000_0000
  }

  /** A track in order is refused exactly when some gap does not fit a variable-length number. */
  lemma {:induction false} GapsDecide(items: seq<Item>, previous: nat)
    requires SortedBy(items, ByMoment) && (items != [] ==> previous <= items[0].tick)
    ensures Deltas(items, previous).Some? <==> GapsFit(items, previous)
    decreases |items|
  {
    if items != [] {
      SortedTicks(items, 0);
      var first, rest := items[0].tick, items[1..];
      GapsDecide(rest, first);
      assert Gap(items, previous, 0) == first - previous;
      forall i: nat | 0 < i < |items| ensures Gap(rest, first, i - 1) == Gap(items, previous, i) {
      }
      assert forall i: nat :: i < |rest| ==> Gap(rest, first, i) == Gap(items, previous, i + 1);
    }
  }

  method EncodeTrack(items: seq<Item>) returns (r: Option<bytes>)
    ensures r == TrackChunk(items)
  {
    hide Sort, Pending, SortedBy, Deltas;
    var events := Sort(items, ByMoment);
    SortIsSorted(items, ByMoment);
    var track: bytes := [];
    var previous: nat := 0;
    ghost var all := Deltas(events, 0);
    ghost var rest := events;
    NoneWritten(events);
    for n := 0 to |events|
      invariant rest == events[n..] && Pending(all, track, rest, previous)
      invariant forall i :: n <= i < |events| ==> previous <= events[i].tick
    {
      var item := events[n];
      SortedTicks(events, n);
      OneWritten(all, track, rest, previous);
      var delta := VariableLength.EncodeVlq(item.tick - previous);
      if delta.None? {
        return None;
      }
      track := track + delta.value + item.data;
      previous := item.tick;
      rest := rest[1..];
    }
    AllWritten(all, track, rest, previous);
    track := track + [0, 0xff, 0x2f, 0];
    if |track| >= U32_LIMIT {
      return None;
    }
    return Some(TRACK_TAG + Be32(|track|) + track);
  }

  // One note: its range, its note-on with the lyric before it, and its note-off.
  method EncodeNote(note: Note, offset: nat, ghost id: nat) returns (r: Option<(NoteOverlap.Range, Item, Item)>)
    ensures r.Some? <==> Playable(Moved(note, offset))
    ensures r.Some? ==> r.value.0 == RangeOf(Moved(note, offset))
    ensures r.Some? ==> r.value.1 == Said(PressCue(id, Moved(note, offset)))
    ensures r.Some? ==> r.value.2 == Said(LiftCue(id, Moved(note, offset)))
  {
    if note.key > 127 || note.velocity == 0 || note.velocity > 127 || note.duration == 0 {
      return None;
    }
    var tick := offset + note.start;
    var finish := tick + note.duration;
    if tick > U64_MAX || finish > U64_MAX || note.channel == 0 || note.channel - 1 >= 16 {
      return None;
    }
    var channel := note.channel - 1;
    var on: bytes := [];
    if note.lyric.Some? {
      on := on + [0xff, LYRIC];
      var length := VariableLength.EncodeVlq(|note.lyric.value|);
      if length.None? {
        return None;
      }
      on := on + length.value;
      on := on + note.lyric.value;
      on := on + [0];
    }
    assert on == LyricBytes(note.lyric);
    on := on + [0x90 + channel, note.key, note.velocity];
    return Some((NoteOverlap.Range(note.channel, note.key, tick, finish),
                 Item(tick, 1, on), Item(finish, 0, [0x80 + channel, note.key, 0])));
  }

  method EncodeControl(control: Control, offset: nat) returns (r: Option<Item>)
    ensures r == if Settable(MovedControl(control, offset))
                 then Some(Said(ChangeCue(MovedControl(control, offset)))) else None
  {
    if control.data1 > 127 || control.data2 > 127 {
      return None;
    }
    var tick := offset + control.tick;
    if tick > U64_MAX || control.channel == 0 || control.channel - 1 >= 16 {
      return None;
    }
    var channel := control.channel - 1;
    var data: bytes;
    match control.kind {
      case ControlChange => data := [0xb0 + channel, control.data1, control.data2];
      case PitchBend => data := [0xe0 + channel, control.data1, control.data2];
      case ChannelPressure => data := [0xd0 + channel, control.data1];
    }
    return Some(Item(tick, 1, data));
  }

  // The cues of some whole clips and of part of the next.
  function CuesSoFar(before: seq<Placement>, notes: seq<Note>, controls: seq<Control>): seq<Cue> {
    Cues(before) + NoteCues(notes, |AllNotes(before)|) + ControlCues(controls)
  }

  // What has been written: `notes` and `controls` are the events of the current clip already done.
  ghost predicate Written(performance: seq<Item>, ranges: seq<NoteOverlap.Range>, before: seq<Placement>,
                          notes: seq<Note>, controls: seq<Control>) {
    && AllPlayable(AllNotes(before)) && AllPlayable(notes)
    && AllSettable(AllControls(before)) && AllSettable(controls)
    && performance == Map(CuesSoFar(before, notes, controls), Saying)
    && ranges == Ranges(AllNotes(before) + notes)
  }

  lemma {:induction false} BothPlayable(a: seq<Note>, b: seq<Note>)
    ensures AllPlayable(a + b) <==> AllPlayable(a) && AllPlayable(b)
  {
    assert forall i :: 0 <= i < |a| ==> (a + b)[i] == a[i];
    assert forall i :: 0 <= i < |b| ==> (a + b)[|a| + i] == b[i];
  }

  lemma {:induction false} BothSettable(a: seq<Control>, b: seq<Control>)
    ensures AllSettable(a + b) <==> AllSettable(a) && AllSettable(b)
  {
    assert forall i :: 0 <= i < |a| ==> (a + b)[i] == a[i];
    assert forall i :: 0 <= i < |b| ==> (a + b)[|a| + i] == b[i];
  }

  lemma {:induction false} NextNoteCues(before: seq<Placement>, notes: seq<Note>, note: Note)
    ensures var id := |AllNotes(before)| + |notes|;
      CuesSoFar(before, notes + [note], []) == CuesSoFar(before, notes, []) + [PressCue(id, note), LiftCue(id, note)]
  {
    hide Cues, AllNotes;
    NoteCuesNext(notes, note, |AllNotes(before)|);
    assert ControlCues([]) == [];
  }

  lemma {:induction false} NoteCuesNext(notes: seq<Note>, note: Note, first: nat)
    ensures NoteCues(notes + [note], first) ==
            NoteCues(notes, first) + [PressCue(first + |notes|, note), LiftCue(first + |notes|, note)]
  {
    hide PressCue, LiftCue;
    assert (notes + [note])[..|notes|] == notes;
  }

  lemma {:induction false} NextRange(notes: seq<Note>, more: seq<Note>, note: Note)
    ensures Ranges(notes + (more + [note])) == Ranges(notes + more) + [RangeOf(note)]
  {
  }

  lemma {:induction false} SayTwo(cues: seq<Cue>, a: Cue, b: Cue)
    ensures Map(cues + [a, b], Saying) == Map(cues, Saying) + [Said(a), Said(b)]
  {
  }

  lemma {:induction false} WriteNote(performance: seq<Item>, ranges: seq<NoteOverlap.Range>, before: seq<Placement>,
                                     notes: seq<Note>, note: Note, id: nat, on: Item, off: Item)
    requires Written(performance, ranges, before, notes, []) && Playable(note) && id == |AllNotes(before)| + |notes|
    requires on == Said(PressCue(id, note)) && off == Said(LiftCue(id, note))
    ensures Written(performance + [on, off], ranges + [RangeOf(note)], before, notes + [note], [])
  {
    hide CuesSoFar, Said, PressCue, LiftCue, AllNotes, AllControls, RangeOf, Ranges, Playable, Map;
    NextNoteCues(before, notes, note);
    SayTwo(CuesSoFar(before, notes, []), PressCue(id, note), LiftCue(id, note));
    NextRange(AllNotes(before), notes, note);
    OnePlayable(notes, note);
  }

  lemma {:induction false} OnePlayable(notes: seq<Note>, note: Note)
    requires AllPlayable(notes) && Playable(note)
    ensures AllPlayable(notes + [note])
  {
  }

  lemma {:induction false} WriteControl(performance: seq<Item>, ranges: seq<NoteOverlap.Range>, before: seq<Placement>,
                                        notes: seq<Note>, controls: seq<Control>, control: Control)
    requires Written(performance, ranges, before, notes, controls) && Settable(control)
    ensures Written(performance + [Said(ChangeCue(control))], ranges, before, notes, controls + [control])
  {
    hide Map, NoteCues, Cues, AllNotes, AllControls, Settable, AllPlayable, Ranges;
    var cues := CuesSoFar(before, notes, controls);
    assert CuesSoFar(before, notes, controls + [control]) == cues + [ChangeCue(control)];
    MapConcat(cues, [ChangeCue(control)], Saying);
    SayOne(ChangeCue(control));
  }

  lemma {:induction false} SayOne(cue: Cue)
    ensures Map([cue], Saying) == [Said(cue)]
  {
  }

  lemma {:induction false} WroteClip(performance: seq<Item>, ranges: seq<NoteOverlap.Range>, before: seq<Placement>,
                                     next: Placement)
    requires Written(performance, ranges, before, ClipNotes(next.clip.notes, next.offset),
                     ClipControls(next.clip.controls, next.offset))
    ensures Written(performance, ranges, before + [next], [], [])
  {
    var clips := before + [next];
    assert clips[..|before|] == before;
    BothPlayable(AllNotes(before), ClipNotes(next.clip.notes, next.offset));
    BothSettable(AllControls(before), ClipControls(next.clip.controls, next.offset));
    assert AllNotes(clips) + [] == AllNotes(clips);
    assert CuesSoFar(clips, [], []) == Cues(clips);
  }

  lemma {:induction false} Refused(clips: seq<Placement>, n: nat)
    requires n < |clips|
    requires !AllPlayable(ClipNotes(clips[n].clip.notes, clips[n].offset))
          || !AllSettable(ClipControls(clips[n].clip.controls, clips[n].offset))
    ensures !AllPlayable(AllNotes(clips)) || !AllSettable(AllControls(clips))
    decreases |clips|
  {
    var last := |clips| - 1;
    var final := clips[last];
    BothPlayable(AllNotes(clips[..last]), ClipNotes(final.clip.notes, final.offset));
    BothSettable(AllControls(clips[..last]), ClipControls(final.clip.controls, final.offset));
    if n < last {
      Refused(clips[..last], n);
    }
  }

  lemma {:induction false} WrittenArePlayable(performance: seq<Item>, ranges: seq<NoteOverlap.Range>,
                                              before: seq<Placement>, notes: seq<Note>)
    requires Written(performance, ranges, before, notes, [])
    ensures AllPlayable(notes)
  {
  }

  method EncodeNotes(before: seq<Item>, sounding: seq<NoteOverlap.Range>, notes: seq<Note>, offset: nat,
                     ghost clips: seq<Placement>) returns (ok: bool, performance: seq<Item>,
                                                           ranges: seq<NoteOverlap.Range>)
    requires Written(before, sounding, clips, [], [])
    ensures ok == AllPlayable(ClipNotes(notes, offset))
    ensures ok ==> Written(performance, ranges, clips, ClipNotes(notes, offset), [])
  {
    hide Written, Playable, Said, AllNotes;
    performance, ranges := before, sounding;
    ghost var done: seq<Note> := [];
    for i := 0 to |notes|
      invariant done == ClipNotes(notes, offset)[..i] && Written(performance, ranges, clips, done, [])
    {
      ghost var moved, id := Moved(notes[i], offset), |AllNotes(clips)| + |done|;
      var encoded := EncodeNote(notes[i], offset, id);
      if encoded.None? {
        assert !Playable(ClipNotes(notes, offset)[i]);
        return false, performance, ranges;
      }
      WriteNote(performance, ranges, clips, done, moved, id, encoded.value.1, encoded.value.2);
      done := done + [moved];
      ranges := ranges + [encoded.value.0];
      performance := performance + [encoded.value.1, encoded.value.2];
    }
    assert done == ClipNotes(notes, offset);
    WrittenArePlayable(performance, ranges, clips, done);
    return true, performance, ranges;
  }

  lemma {:induction false} WrittenAreSettable(performance: seq<Item>, ranges: seq<NoteOverlap.Range>,
                                              before: seq<Placement>, notes: seq<Note>, controls: seq<Control>)
    requires Written(performance, ranges, before, notes, controls)
    ensures AllSettable(controls)
  {
  }

  method EncodeControls(before: seq<Item>, controls: seq<Control>, offset: nat, ghost ranges: seq<NoteOverlap.Range>,
                        ghost clips: seq<Placement>, ghost notes: seq<Note>) returns (ok: bool, performance: seq<Item>)
    requires Written(before, ranges, clips, notes, [])
    ensures ok == AllSettable(ClipControls(controls, offset))
    ensures ok ==> Written(performance, ranges, clips, notes, ClipControls(controls, offset))
  {
    hide Written, Settable, Said, AllNotes;
    performance := before;
    ghost var done: seq<Control> := [];
    for i := 0 to |controls|
      invariant done == ClipControls(controls, offset)[..i] && Written(performance, ranges, clips, notes, done)
    {
      var item := EncodeControl(controls[i], offset);
      if item.None? {
        return false, performance;
      }
      WriteControl(performance, ranges, clips, notes, done, MovedControl(controls[i], offset));
      done := done + [MovedControl(controls[i], offset)];
      performance := performance + [item.value];
    }
    assert done == ClipControls(controls, offset);
    WrittenAreSettable(performance, ranges, clips, notes, done);
    return true, performance;
  }

  lemma {:induction false} NothingWritten()
    ensures Written([], [], [], [], [])
  {
  }

  lemma {:induction false} AllClipsWritten(performance: seq<Item>, ranges: seq<NoteOverlap.Range>,
                                           clips: seq<Placement>)
    requires Written(performance, ranges, clips, [], [])
    ensures AllPlayable(AllNotes(clips)) && AllSettable(AllControls(clips))
    ensures performance == Map(Cues(clips), Saying) && ranges == Ranges(AllNotes(clips))
  {
    assert AllNotes(clips) + [] == AllNotes(clips);
    assert CuesSoFar(clips, [], []) == Cues(clips);
  }

  method EncodePerformance(clips: seq<Placement>) returns (r: Option<(seq<Item>, seq<NoteOverlap.Range>)>)
    ensures r == if AllPlayable(AllNotes(clips)) && AllSettable(AllControls(clips))
                 then Some((Map(Cues(clips), Saying), Ranges(AllNotes(clips)))) else None
  {
    hide Written, AllPlayable, AllSettable, Cues, AllNotes, AllControls;
    var performance: seq<Item>, ranges: seq<NoteOverlap.Range> := [], [];
    ghost var done: seq<Placement> := [];
    NothingWritten();
    for n := 0 to |clips|
      invariant done == clips[..n] && Written(performance, ranges, done, [], [])
    {
      var placement := clips[n];
      var ok;
      ok, performance, ranges := EncodeNotes(performance, ranges, placement.clip.notes, placement.offset, done);
      if ok {
        ok, performance := EncodeControls(performance, placement.clip.controls, placement.offset,
                                          ranges, done, ClipNotes(placement.clip.notes, placement.offset));
      }
      if !ok {
        Refused(clips, n);
        return None;
      }
      WroteClip(performance, ranges, done, placement);
      done := done + [placement];
    }
    assert done == clips;
    AllClipsWritten(performance, ranges, clips);
    return Some((performance, ranges));
  }

  lemma {:induction false} TempoRefused(tempos: seq<Tempo>, origin: nat, end: Option<nat>, n: nat)
    requires Positive(tempos) && n < |tempos|
    requires Within(tempos[n].tick, origin, end) && TempoEvent(tempos[n].bpm).None?
    ensures TempoItems(tempos, origin, end).None?
    decreases |tempos|
  {
    if n < |tempos| - 1 {
      assert tempos[..|tempos| - 1][n] == tempos[n];
      TempoRefused(tempos[..|tempos| - 1], origin, end, n);
    }
  }

  lemma {:induction false} MeterRefused(meters: seq<Meter>, origin: nat, end: Option<nat>, n: nat)
    requires n < |meters|
    requires Within(meters[n].tick, origin, end) && MeterEvent(meters[n].numerator, meters[n].denominator).None?
    ensures MeterItems(meters, origin, end).None?
    decreases |meters|
  {
    if n < |meters| - 1 {
      assert meters[..|meters| - 1][n] == meters[n];
      MeterRefused(meters[..|meters| - 1], origin, end, n);
    }
  }

  method EncodeTempos(tempos: seq<Tempo>, origin: nat, end: Option<nat>) returns (r: Option<seq<Item>>)
    requires Positive(tempos)
    ensures r == TempoItems(tempos, origin, end)
  {
    var items: seq<Item> := [];
    ghost var done: seq<Tempo> := [];
    for n := 0 to |tempos|
      invariant done == tempos[..n] && Positive(done) && TempoItems(done, origin, end) == Some(items)
    {
      var change := tempos[n];
      assert (done + [change])[..n] == done;
      if Within(change.tick, origin, end) {
        var data := TempoEvent(change.bpm);
        if data.None? {
          TempoRefused(tempos, origin, end, n);
          return None;
        }
        items := items + [Item(change.tick - origin, 0, data.value)];
      }
      done := done + [change];
    }
    assert done == tempos;
    return Some(items);
  }

  method EncodeMeters(meters: seq<Meter>, origin: nat, end: Option<nat>) returns (r: Option<seq<Item>>)
    ensures r == MeterItems(meters, origin, end)
  {
    var items: seq<Item> := [];
    ghost var done: seq<Meter> := [];
    for n := 0 to |meters|
      invariant done == meters[..n] && MeterItems(done, origin, end) == Some(items)
    {
      var change := meters[n];
      assert (done + [change])[..n] == done;
      if Within(change.tick, origin, end) {
        var data := MeterEvent(change.numerator, change.denominator);
        if data.None? {
          MeterRefused(meters, origin, end, n);
          return None;
        }
        items := items + [Item(change.tick - origin, 0, data.value)];
      }
      done := done + [change];
    }
    assert done == meters;
    return Some(items);
  }

  method EncodeClock(timebase: Timebase, origin: nat, end: Option<nat>) returns (r: Option<seq<Item>>)
    requires Positive(timebase.tempos)
    ensures r == ClockItems(timebase, origin, end)
  {
    var tempo := TempoAt(timebase.tempos, origin);
    var meter := MeterAt(timebase.meters, origin);
    if tempo.None? || meter.None? {
      return None;
    }
    var tempoData := TempoEvent(tempo.value.bpm);
    var meterData := MeterEvent(meter.value.numerator, meter.value.denominator);
    if tempoData.None? || meterData.None? {
      return None;
    }
    var tempos := EncodeTempos(timebase.tempos, origin, end);
    if tempos.None? {
      return None;
    }
    var meters := EncodeMeters(timebase.meters, origin, end);
    if meters.None? {
      return None;
    }
    return Some([Item(0, 0, tempoData.value), Item(0, 0, meterData.value)] + tempos.value + meters.value);
  }

  lemma {:induction false} PlayableRanges(notes: seq<Note>)
    requires AllPlayable(notes)
    ensures NoteOverlap.Nonempty(Ranges(notes))
  {
    forall i | 0 <= i < |notes| ensures Ranges(notes)[i].start < Ranges(notes)[i].end {
      assert Playable(notes[i]);
    }
  }

  method EncodeSmf(timebase: Timebase, clips: seq<Placement>, origin: nat, end: Option<nat>) returns (r: Option<bytes>)
    ensures r == Encode(timebase, clips, origin, end)
  {
    if !ValidTimebase(timebase) || timebase.ppq > MAX_SMF_PPQ {
      return None;
    }
    var clock := EncodeClock(timebase, origin, end);
    if clock.None? {
      return None;
    }
    var performance := EncodePerformance(clips);
    if performance.None? {
      return None;
    }
    PlayableRanges(AllNotes(clips));
    var ranges := performance.value.1;
    var sorted := NoteOverlap.InOrderOf(ranges);
    NoteOverlap.InOrderOfIsInOrder(ranges);
    var clash := NoteOverlap.CheckNeighbours(ranges, sorted);
    if clash {
      return None;
    }
    var clockTrack := EncodeTrack(clock.value);
    if clockTrack.None? {
      return None;
    }
    var performanceTrack := EncodeTrack(performance.value.0);
    if performanceTrack.None? {
      return None;
    }
    return Some(Header(timebase.ppq) + clockTrack.value + performanceTrack.value);
  }
}
