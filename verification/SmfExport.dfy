/** What an exported file says, told from its bytes: its format, every event of its two tracks, and their order. */
module SmfExport {
  import opened Wrappers
  import opened Bytes
  import opened StableSort
  import opened SmfFormat
  import opened SmfEncoder
  import opened SmfDecoding
  import opened SmfPlayback
  import opened SmfStaging
  import opened SmfClockTrack
  import opened SmfContents
  import SmfFiles
  import Spell = SmfFileSpelling

  // An event at its tick, counted from the start of the track.
  datatype Moment = Moment(tick: nat, event: Event)

  function Timeline(steps: seq<Step>, tick: nat): seq<Moment> {
    if steps == [] then []
    else [Moment(tick + steps[0].delta, steps[0].event)] + Timeline(steps[1..], tick + steps[0].delta)
  }

  // What is to be said of a note or a control, at its tick.
  datatype Entry = Entry(tick: nat, events: seq<Event>)

  function OnEvents(note: Note): seq<Event> {
    (if note.lyric.Some? then [Meta(0x05, note.lyric.value)] else [])
    + [if note.key < 0x100 && note.velocity < 0x100
       then Channel(0x9, note.channel, note.key, note.velocity) else System]
  }

  function OffEvent(note: Note): Event {
    if note.key < 0x100 then Channel(0x8, note.channel, note.key, 0) else System
  }

  function ControlEvent(control: Control): Event {
    if control.data1 >= 0x100 || control.data2 >= 0x100 then System
    else match control.kind
      case ControlChange => Channel(0xb, control.channel, control.data1, control.data2)
      case PitchBend => Channel(0xe, control.channel, control.data1, control.data2)
      case ChannelPressure => Channel(0xd, control.channel, control.data1, 0)
  }

  function OnEntries(clip: Placement): seq<Entry> {
    seq(|clip.clip.notes|, i requires 0 <= i < |clip.clip.notes| =>
        Entry(clip.offset + clip.clip.notes[i].start, OnEvents(clip.clip.notes[i])))
  }

  function ControlEntries(clip: Placement): seq<Entry> {
    seq(|clip.clip.controls|, i requires 0 <= i < |clip.clip.controls| =>
        Entry(clip.offset + clip.clip.controls[i].tick, [ControlEvent(clip.clip.controls[i])]))
  }

  function OffEntries(clip: Placement): seq<Entry> {
    seq(|clip.clip.notes|, i requires 0 <= i < |clip.clip.notes| =>
        Entry(clip.offset + clip.clip.notes[i].start + clip.clip.notes[i].duration, [OffEvent(clip.clip.notes[i])]))
  }

  // Clip by clip, the notes of a clip before its controls.
  function AllEntries(clips: seq<Placement>): seq<Entry> {
    if clips == [] then []
    else
      var last := clips[|clips| - 1];
      AllEntries(clips[..|clips| - 1]) + OnEntries(last) + ControlEntries(last)
  }

  function AllOffEntries(clips: seq<Placement>): seq<Entry> {
    if clips == [] then [] else AllOffEntries(clips[..|clips| - 1]) + OffEntries(clips[|clips| - 1])
  }

  const ByEntry: Entry -> int := (entry: Entry) => entry.tick

  function Moments(entry: Entry): seq<Moment> {
    seq(|entry.events|, i requires 0 <= i < |entry.events| => Moment(entry.tick, entry.events[i]))
  }

  function Flat(entries: seq<Entry>): seq<Moment> {
    if entries == [] then [] else Moments(entries[0]) + Flat(entries[1..])
  }

  predicate IsOff(moment: Moment) {
    moment.event.Channel? && moment.event.command == 0x8
  }

  const Offs: Moment -> bool := (moment: Moment) => IsOff(moment)
  const Others: Moment -> bool := (moment: Moment) => !IsOff(moment)

  // In order of ticks, and at one tick the note-offs first.
  ghost predicate InTime(moments: seq<Moment>) {
    forall i, j :: 0 <= i < j < |moments| ==>
      moments[i].tick <= moments[j].tick
      && (moments[i].tick == moments[j].tick && IsOff(moments[j]) ==> IsOff(moments[i]))
  }

  // What a cue says.
  function EntryOf(cue: Cue): Entry {
    Entry(cue.tick, match cue.message
                    case Press(_, note) => OnEvents(note)
                    case Lift(_, note) => [OffEvent(note)]
                    case Change(control) => [ControlEvent(control)])
  }

  const SayingEntry: Cue -> Entry := (cue: Cue) => EntryOf(cue)

  lemma {:induction false} TimelineBoth(a: seq<Step>, b: seq<Step>, tick: nat)
    ensures Timeline(a + b, tick) == Timeline(a, tick) + Timeline(b, tick + LengthOf(a))
    decreases |a|
  {
    if a == [] {
      assert a + b == b;
    } else {
      assert (a + b)[1..] == a[1..] + b;
      TimelineBoth(a[1..], b, tick + a[0].delta);
    }
  }

  lemma {:induction false} CueTimeline(cue: Cue, previous: nat)
    requires Sayable(cue.message) && previous <= cue.tick
    ensures var steps := StepsOf(cue.message, cue.tick - previous);
      Timeline(steps, previous) == Moments(EntryOf(cue)) && LengthOf(steps) == cue.tick - previous
  {
    var steps, entry := StepsOf(cue.message, cue.tick - previous), EntryOf(cue);
    if |steps| == 2 {
      TwoSteps(steps, previous);
      assert Moments(entry) == [Moment(cue.tick, entry.events[0]), Moment(cue.tick, entry.events[1])];
    } else {
      OneStep(steps, previous);
      assert Moments(entry) == [Moment(cue.tick, entry.events[0])];
    }
  }

  lemma {:induction false} OneStep(steps: seq<Step>, tick: nat)
    requires |steps| == 1
    ensures Timeline(steps, tick) == [Moment(tick + steps[0].delta, steps[0].event)]
    ensures LengthOf(steps) == steps[0].delta
  {
    assert steps[1..] == [];
  }

  lemma {:induction false} TwoSteps(steps: seq<Step>, tick: nat)
    requires |steps| == 2
    ensures Timeline(steps, tick) ==
            [Moment(tick + steps[0].delta, steps[0].event),
             Moment(tick + steps[0].delta + steps[1].delta, steps[1].event)]
    ensures LengthOf(steps) == steps[0].delta + steps[1].delta
  {
    OneStep(steps[1..], tick + steps[0].delta);
  }

  function EndTick(cues: seq<Cue>, previous: nat): nat {
    if cues == [] then previous else cues[|cues| - 1].tick
  }

  lemma {:induction false} CuesTimeline(cues: seq<Cue>, previous: nat)
    requires Ascending(cues, previous)
    ensures Timeline(AllSteps(cues, previous), previous) ==
            Flat(Map(cues, SayingEntry)) + [Moment(EndTick(cues, previous), Meta(0x2f, []))]
    decreases |cues|
  {
    hide StepsOf, EntryOf, Sayable, LengthOf;
    if cues == [] {
      EndTimeline(previous);
    } else {
      var first, rest := cues[0], cues[1..];
      var steps, more := StepsOf(first.message, first.tick - previous), AllSteps(rest, first.tick);
      CueTimeline(first, previous);
      TimelineBoth(steps, more, previous);
      CuesTimeline(rest, first.tick);
      assert Map(cues, SayingEntry) == [EntryOf(first)] + Map(rest, SayingEntry);
      assert Flat(Map(cues, SayingEntry)) == Moments(EntryOf(first)) + Flat(Map(rest, SayingEntry));
    }
  }

  lemma {:induction false} EndTimeline(previous: nat)
    ensures Timeline([END_OF_TRACK], previous) == [Moment(previous, Meta(0x2f, []))]
    ensures Flat(Map([], SayingEntry)) == []
  {
    assert [END_OF_TRACK][1..] == [];
  }

  const IsLiftCue: Cue -> bool := (cue: Cue) => cue.message.Lift?
  const NoLiftCue: Cue -> bool := (cue: Cue) => !cue.message.Lift?

  lemma {:induction false} FilterAll(moments: seq<Moment>, p: Moment -> bool)
    ensures (forall m :: m in moments ==> p(m)) ==> Filter(moments, p) == moments
    ensures (forall m :: m in moments ==> !p(m)) ==> Filter(moments, p) == []
  {
    if moments != [] {
      FilterAll(moments[1..], p);
      assert forall m :: m in moments[1..] ==> m in moments;
    }
  }

  // Note-offs come from lifts, and everything else from the other cues.
  lemma {:induction false} CueSplit(cue: Cue)
    requires Sayable(cue.message)
    ensures forall m :: m in Moments(EntryOf(cue)) ==> m.tick == cue.tick && IsOff(m) == cue.message.Lift?
    ensures Filter(Moments(EntryOf(cue)), Others) == if cue.message.Lift? then [] else Moments(EntryOf(cue))
    ensures Filter(Moments(EntryOf(cue)), Offs) == if cue.message.Lift? then Moments(EntryOf(cue)) else []
  {
    hide Filter;
    FilterAll(Moments(EntryOf(cue)), Others);
    FilterAll(Moments(EntryOf(cue)), Offs);
  }

  ghost predicate AllSayable(cues: seq<Cue>) {
    forall i :: 0 <= i < |cues| ==> Sayable(cues[i].message)
  }

  lemma {:induction false} FlatSplit(cues: seq<Cue>)
    requires AllSayable(cues)
    ensures Filter(Flat(Map(cues, SayingEntry)), Others) == Flat(Map(Filter(cues, NoLiftCue), SayingEntry))
    ensures Filter(Flat(Map(cues, SayingEntry)), Offs) == Flat(Map(Filter(cues, IsLiftCue), SayingEntry))
    decreases |cues|
  {
    hide Filter, Moments, EntryOf, Sayable, Map;
    if cues == [] {
      NothingSplit();
    } else {
      var first, rest := cues[0], cues[1..];
      FlatSplit(rest);
      CueSplit(first);
      assert cues == [first] + rest;
      FlatNext(first, rest);
      FilterCons(first, rest, NoLiftCue);
      FilterCons(first, rest, IsLiftCue);
      FlatNext(first, Filter(rest, NoLiftCue));
      FlatNext(first, Filter(rest, IsLiftCue));
      FilterConcat(Moments(EntryOf(first)), Flat(Map(rest, SayingEntry)), Others);
      FilterConcat(Moments(EntryOf(first)), Flat(Map(rest, SayingEntry)), Offs);
      NothingBefore(Flat(Map(Filter(rest, NoLiftCue), SayingEntry)));
      NothingBefore(Flat(Map(Filter(rest, IsLiftCue), SayingEntry)));
    }
  }

  lemma {:induction false} NothingBefore(moments: seq<Moment>)
    ensures [] + moments == moments
  {
  }

  lemma {:induction false} NothingSplit()
    ensures Flat(Map([], SayingEntry)) == [] && Filter<Cue>([], NoLiftCue) == [] && Filter<Cue>([], IsLiftCue) == []
    ensures Filter<Moment>([], Others) == [] && Filter<Moment>([], Offs) == []
  {
  }

  lemma {:induction false} FlatNext(first: Cue, rest: seq<Cue>)
    ensures Flat(Map([first] + rest, SayingEntry)) == Moments(EntryOf(first)) + Flat(Map(rest, SayingEntry))
  {
    hide EntryOf, Moments;
    assert Map([first] + rest, SayingEntry) == [EntryOf(first)] + Map(rest, SayingEntry);
  }

  // What the later cues say comes no earlier than what a cue says, nor before it at its tick.
  lemma {:induction false} FlatAfter(first: Cue, rest: seq<Cue>, notes: seq<Note>)
    requires AllSayable(rest) && AllCued(rest, notes) && Cued(first, notes)
    requires forall i :: 0 <= i < |rest| ==> CueMoment(first) <= CueMoment(rest[i])
    ensures forall m :: m in Flat(Map(rest, SayingEntry)) ==>
      first.tick <= m.tick && (first.tick == m.tick && IsOff(m) ==> first.message.Lift?)
    decreases |rest|
  {
    hide Moments, EntryOf, Sayable, Map, Cued, IsOff, CueMoment;
    if rest == [] {
      NothingSplit();
    } else {
      assert AllCued(rest[1..], notes) && AllSayable(rest[1..]);
      FlatAfter(first, rest[1..], notes);
      CueSplit(rest[0]);
      InTurn(first, rest[0], notes);
      assert rest == [rest[0]] + rest[1..];
      FlatNext(rest[0], rest[1..]);
    }
  }

  lemma {:induction false} FlatInTime(cues: seq<Cue>, notes: seq<Note>)
    requires AllSayable(cues) && AllCued(cues, notes) && SortedBy(cues, CueMoment)
    ensures InTime(Flat(Map(cues, SayingEntry)))
    decreases |cues|
  {
    hide Moments, EntryOf, Sayable, Map, Cued, IsOff, InTime;
    if cues == [] {
      NothingSplit();
      NothingInTime();
    } else {
      var first, rest := cues[0], cues[1..];
      assert AllCued(rest, notes) && SortedBy(rest, CueMoment) && AllSayable(rest);
      FlatInTime(rest, notes);
      FlatAfter(first, rest, notes);
      CueSplit(first);
      assert cues == [first] + rest;
      FlatNext(first, rest);
      BothInTime(Moments(EntryOf(first)), Flat(Map(rest, SayingEntry)), first);
    }
  }

  lemma {:induction false} NothingInTime()
    ensures InTime([])
  {
  }

  lemma {:induction false} InTurn(a: Cue, b: Cue, notes: seq<Note>)
    requires Cued(a, notes) && Cued(b, notes) && CueMoment(a) <= CueMoment(b)
    ensures a.tick <= b.tick && (a.tick == b.tick && b.message.Lift? ==> a.message.Lift?)
  {
  }

  lemma {:induction false} BothInTime(head: seq<Moment>, tail: seq<Moment>, first: Cue)
    requires InTime(tail) && forall m :: m in head ==> m.tick == first.tick && IsOff(m) == first.message.Lift?
    requires forall m :: m in tail ==>
               first.tick <= m.tick && (first.tick == m.tick && IsOff(m) ==> first.message.Lift?)
    ensures InTime(head + tail)
  {
    hide IsOff;
    var all := head + tail;
    forall i, j | 0 <= i < j < |all|
      ensures all[i].tick <= all[j].tick && (all[i].tick == all[j].tick && IsOff(all[j]) ==> IsOff(all[i]))
    {
      if i < |head| {
        assert head[i] in head && (if j < |head| then head[j] in head else tail[j - |head|] in tail);
      } else {
        assert all[i] == tail[i - |head|] && all[j] == tail[j - |head|];
      }
    }
  }

  // The entries of notes and controls already moved to their place.
  function OnsOf(notes: seq<Note>): (r: seq<Entry>)
    ensures |r| == |notes| && forall i :: 0 <= i < |r| ==> r[i] == Entry(notes[i].start, OnEvents(notes[i]))
  {
    seq(|notes|, i requires 0 <= i < |notes| => Entry(notes[i].start, OnEvents(notes[i])))
  }

  function OffsOf(notes: seq<Note>): (r: seq<Entry>)
    ensures |r| == |notes|
    ensures forall i :: 0 <= i < |r| ==> r[i] == Entry(notes[i].start + notes[i].duration, [OffEvent(notes[i])])
  {
    seq(|notes|, i requires 0 <= i < |notes| => Entry(notes[i].start + notes[i].duration, [OffEvent(notes[i])]))
  }

  function ChangesOf(controls: seq<Control>): (r: seq<Entry>)
    ensures |r| == |controls|
    ensures forall i :: 0 <= i < |r| ==> r[i] == Entry(controls[i].tick, [ControlEvent(controls[i])])
  {
    seq(|controls|, i requires 0 <= i < |controls| => Entry(controls[i].tick, [ControlEvent(controls[i])]))
  }

  lemma {:induction false} OneNoteSays(rest: seq<Cue>, press: Cue, lift: Cue)
    requires press.message.Press? && lift.message.Lift?
    ensures Filter(rest + [press, lift], NoLiftCue) == Filter(rest, NoLiftCue) + [press]
    ensures Filter(rest + [press, lift], IsLiftCue) == Filter(rest, IsLiftCue) + [lift]
  {
    hide Filter;
    FilterConcat(rest, [press, lift], NoLiftCue);
    FilterConcat(rest, [press, lift], IsLiftCue);
    FilterPair(press, lift, NoLiftCue);
    FilterPair(press, lift, IsLiftCue);
  }

  lemma {:induction false} NoteCuesSay(notes: seq<Note>, first: nat)
    ensures Map(Filter(NoteCues(notes, first), NoLiftCue), SayingEntry) == OnsOf(notes)
    ensures Map(Filter(NoteCues(notes, first), IsLiftCue), SayingEntry) == OffsOf(notes)
  {
    hide Filter, Map, OnEvents, OffEvent, NoteCues, OnsOf, OffsOf;
    if notes == [] {
      NoNotesSay(first);
    } else {
      var n := |notes| - 1;
      var rest, press, lift := NoteCues(notes[..n], first), PressCue(first + n, notes[n]), LiftCue(first + n, notes[n]);
      NoteCuesSay(notes[..n], first);
      assert notes[..n] + [notes[n]] == notes;
      NoteCuesNext(notes[..n], notes[n], first);
      OneNoteSays(rest, press, lift);
      MapConcat(Filter(rest, NoLiftCue), [press], SayingEntry);
      MapConcat(Filter(rest, IsLiftCue), [lift], SayingEntry);
      OneMoreSays(notes, first + n, press, lift);
    }
  }

  lemma {:induction false} OneMoreSays(notes: seq<Note>, id: nat, press: Cue, lift: Cue)
    requires notes != []
    requires press == PressCue(id, notes[|notes| - 1]) && lift == LiftCue(id, notes[|notes| - 1])
    ensures OnsOf(notes) == OnsOf(notes[..|notes| - 1]) + Map([press], SayingEntry)
    ensures OffsOf(notes) == OffsOf(notes[..|notes| - 1]) + Map([lift], SayingEntry)
  {
    hide OnEvents, OffEvent;
  }

  lemma {:induction false} NoNotesSay(first: nat)
    ensures Map(Filter(NoteCues([], first), NoLiftCue), SayingEntry) == OnsOf([])
    ensures Map(Filter(NoteCues([], first), IsLiftCue), SayingEntry) == OffsOf([])
  {
  }

  lemma {:induction false} ControlCuesSay(controls: seq<Control>)
    ensures Map(Filter(ControlCues(controls), NoLiftCue), SayingEntry) == ChangesOf(controls)
    ensures Filter(ControlCues(controls), IsLiftCue) == []
  {
    hide ControlEvent;
    if controls != [] {
      ControlCuesSay(controls[1..]);
      assert ControlCues(controls) == [ChangeCue(controls[0])] + ControlCues(controls[1..]);
    }
  }

  lemma {:induction false} ClipEntries(clip: Placement)
    ensures OnsOf(ClipNotes(clip.clip.notes, clip.offset)) == OnEntries(clip)
    ensures OffsOf(ClipNotes(clip.clip.notes, clip.offset)) == OffEntries(clip)
    ensures ChangesOf(ClipControls(clip.clip.controls, clip.offset)) == ControlEntries(clip)
  {
  }

  lemma {:induction false} ClipSays(clip: Placement, first: nat)
    ensures var cues := NoteCues(ClipNotes(clip.clip.notes, clip.offset), first)
                        + ControlCues(ClipControls(clip.clip.controls, clip.offset));
      && Map(Filter(cues, NoLiftCue), SayingEntry) == OnEntries(clip) + ControlEntries(clip)
      && Map(Filter(cues, IsLiftCue), SayingEntry) == OffEntries(clip)
  {
    hide Filter, Map, NoteCues, ControlCues, OnsOf, OffsOf, ChangesOf, OnEntries, OffEntries, ControlEntries;
    var notes, controls := ClipNotes(clip.clip.notes, clip.offset), ClipControls(clip.clip.controls, clip.offset);
    var a, b := NoteCues(notes, first), ControlCues(controls);
    NoteCuesSay(notes, first);
    ControlCuesSay(controls);
    ClipEntries(clip);
    FilterConcat(a, b, NoLiftCue);
    FilterConcat(a, b, IsLiftCue);
    MapConcat(Filter(a, NoLiftCue), Filter(b, NoLiftCue), SayingEntry);
    NothingAfter(Filter(a, IsLiftCue));
  }

  lemma {:induction false} NothingAfter(cues: seq<Cue>)
    ensures cues + [] == cues
  {
  }

  lemma {:induction false} CuesSay(clips: seq<Placement>)
    ensures Map(Filter(Cues(clips), NoLiftCue), SayingEntry) == AllEntries(clips)
    ensures Map(Filter(Cues(clips), IsLiftCue), SayingEntry) == AllOffEntries(clips)
  {
    hide Filter, Map, NoteCues, ControlCues, OnEntries, ControlEntries, OffEntries;
    if clips == [] {
      NothingSplit();
    } else {
      var n := |clips| - 1;
      var clip, first := clips[n], |AllNotes(clips[..n])|;
      var before := Cues(clips[..n]);
      var a, b := NoteCues(ClipNotes(clip.clip.notes, clip.offset), first),
          ControlCues(ClipControls(clip.clip.controls, clip.offset));
      CuesSay(clips[..n]);
      ClipSays(clip, first);
      assert Cues(clips) == before + (a + b);
      FilterConcat(before, a + b, NoLiftCue);
      FilterConcat(before, a + b, IsLiftCue);
      MapConcat(Filter(before, NoLiftCue), Filter(a + b, NoLiftCue), SayingEntry);
      MapConcat(Filter(before, IsLiftCue), Filter(a + b, IsLiftCue), SayingEntry);
    }
  }

  // Sorting the cues sorts what they say.
  lemma {:induction false} SortedSays(cues: seq<Cue>, notes: seq<Note>, p: Cue -> bool, order: Turn)
    requires AllCued(cues, notes)
    requires forall cue :: cue in cues && p(cue) ==> cue.order == order
    ensures Map(Filter(Sort(cues, CueMoment), p), SayingEntry) == Sort(Map(Filter(cues, p), SayingEntry), ByEntry)
  {
    hide Sort, Filter, Map, EntryOf, Cued;
    var key: Entry -> int := (entry: Entry) => 2 * entry.tick + order;
    FilterSort(cues, CueMoment, p);
    FilterMembers(cues, p);
    forall cue | cue in Filter(cues, p) ensures key(SayingEntry(cue)) == CueMoment(cue) {
      EntryTick(cue);
    }
    MapSort(Filter(cues, p), CueMoment, SayingEntry, key);
    SameOrder(Map(Filter(cues, p), SayingEntry), key, ByEntry);
  }

  lemma {:induction false} EntryTick(cue: Cue)
    ensures EntryOf(cue).tick == cue.tick
  {
  }

  lemma {:induction false} CuedOrder(cue: Cue, notes: seq<Note>)
    requires Cued(cue, notes)
    ensures cue.order == if cue.message.Lift? then 0 else 1
    ensures AllPlayable(notes) ==> Sayable(cue.message)
  {
  }

  lemma {:induction false} ChunkBytes(data: bytes)
    requires |data| < U32_LIMIT
    ensures TRACK_TAG + Be32(|data|) + data == Spell.TrackBytes(data)
  {
    BigEndianRoundTrip(|data|);
    Spell.FourBack(Be32(|data|));
  }

  lemma {:induction false} SmallNumbers()
    ensures FromBe32([0, 0, 0, 6]) == 6 && FromBe16([0, 1]) == 1 && FromBe16([0, 2]) == 2
  {
  }

  lemma {:induction false} FormatOne(ppq: nat, clock: bytes, performance: bytes)
    requires 0 < ppq <= MAX_SMF_PPQ && |clock| < U32_LIMIT && |performance| < U32_LIMIT
    ensures SmfEncoder.Header(ppq) + Spell.TrackBytes(clock) + Spell.TrackBytes(performance) ==
            Spell.FileBytes(Spell.File(1, ppq, [], [clock, performance], []))
  {
    hide Spell.TrackBytes, FromBe16, FromBe32;
    SmallNumbers();
    var file := Spell.File(1, ppq, [], [clock, performance], []);
    Spell.FourBack([0, 0, 0, 6]);
    Spell.TwoBack([0, 1]);
    Spell.TwoBack([0, 2]);
    BigEndianRoundTrip(ppq);
    Spell.TwoBack(Be16(ppq));
    assert SmfEncoder.Header(ppq) == Spell.HeaderBytes(file) by {
      hide Spell.BigEndian;
      assert SmfEncoder.Header(ppq) == [0x4d, 0x54, 0x68, 0x64] + [0, 0, 0, 6] + [0, 1] + [0, 2] + Be16(ppq) + [];
    }
    assert [clock, performance][1..] == [performance] && [performance][1..] == [];
    assert Spell.TracksBytes([performance]) == Spell.TrackBytes(performance) + Spell.TracksBytes([]);
    assert Spell.TracksBytes([clock, performance]) == Spell.TrackBytes(clock) + Spell.TracksBytes([performance]);
  }

  /** An export is a format 1 file of exactly two tracks, the clock and the performance, at the resolution of the
      project. */
  lemma {:induction false} ExportIsFormatOne(timebase: Timebase, clips: seq<Placement>, origin: nat, end: Option<nat>)
      returns (clock: bytes, performance: bytes)
    requires Encode(timebase, clips, origin, end).Some?
    ensures var file := Spell.File(1, timebase.ppq, [], [clock, performance], []);
      && Spell.Spellable(file) && Encode(timebase, clips, origin, end) == Some(Spell.FileBytes(file))
      && SmfFiles.FileDatas(Spell.FileBytes(file)) == Some([clock, performance])
    ensures ClockItems(timebase, origin, end).Some?
    ensures Deltas(Sort(ClockItems(timebase, origin, end).value, ByMoment), 0) == Some(clock)
    ensures Deltas(Sort(Map(Cues(clips), Saying), ByMoment), 0) == Some(performance)
  {
    hide Deltas, Sort, ClockItems, Cues, Spell.FileBytes, Spell.TrackBytes, SmfFiles.FileDatas, SmfEncoder.Header;
    clock := Deltas(Sort(ClockItems(timebase, origin, end).value, ByMoment), 0).value;
    performance := Deltas(Sort(Map(Cues(clips), Saying), ByMoment), 0).value;
    ChunkBytes(clock);
    ChunkBytes(performance);
    FormatOne(timebase.ppq, clock, performance);
    Spell.FileSpelled(Spell.File(1, timebase.ppq, [], [clock, performance], []), None);
  }

  lemma {:induction false} SortedAscends(cues: seq<Cue>, notes: seq<Note>)
    requires SortedBy(cues, CueMoment) && AllCued(cues, notes) && AllSayable(cues)
    ensures Ascending(cues, 0)
  {
    hide Sayable;
    forall i, j | 0 <= i < j < |cues| ensures cues[i].tick <= cues[j].tick {
      assert Cued(cues[i], notes) && Cued(cues[j], notes);
      InTurn(cues[i], cues[j], notes);
    }
  }

  // The cues of an export in order.
  lemma {:induction false} ExportedCues(clips: seq<Placement>) returns (cues: seq<Cue>)
    requires AllPlayable(AllNotes(clips)) && AllSettable(AllControls(clips))
    ensures cues == Sort(Cues(clips), CueMoment) && SortedBy(cues, CueMoment) && AllCued(cues, AllNotes(clips))
    ensures AllSayable(cues) && Ascending(cues, 0)
    ensures Sort(Map(Cues(clips), Saying), ByMoment) == Map(cues, Saying)
    ensures Map(Filter(cues, NoLiftCue), SayingEntry) == Sort(AllEntries(clips), ByEntry)
    ensures Map(Filter(cues, IsLiftCue), SayingEntry) == Sort(AllOffEntries(clips), ByEntry)
  {
    hide Sort, Cues, AllNotes, AllControls, Cued, Sayable, Filter, Map, Complete, Once, AllEntries, AllOffEntries,
        AllPlayable, AllSettable, Ascending;
    cues := Sort(Cues(clips), CueMoment);
    CuesOnce(clips);
    CuesComplete(clips);
    SortIsSorted(Cues(clips), CueMoment);
    SortKeepsCues(Cues(clips), AllNotes(clips));
    SameElements(Cues(clips), CueMoment);
    MapSort(Cues(clips), CueMoment, Saying, ByMoment);
    forall cue | cue in Cues(clips) ensures cue.order == (if cue.message.Lift? then 0 else 1) {
      var i :| 0 <= i < |Cues(clips)| && Cues(clips)[i] == cue;
      CuedOrder(Cues(clips)[i], AllNotes(clips));
    }
    SortedSays(Cues(clips), AllNotes(clips), NoLiftCue, 1);
    SortedSays(Cues(clips), AllNotes(clips), IsLiftCue, 0);
    CuesSay(clips);
    forall i | 0 <= i < |cues| ensures Sayable(cues[i].message) {
      CuedOrder(cues[i], AllNotes(clips));
    }
    SortedAscends(cues, AllNotes(clips));
  }

  /** The second track of an export, event by event: it ends with one end-of-track event at the tick of its last one;
      before that the events are in order, the note-offs of a tick first; the note-offs, with velocity zero, are those
      of all notes, stably sorted; and the others are the note-ons, each with its lyric just before it, and the
      controls, clip by clip with the notes of a clip before its controls, stably sorted. */
  lemma {:induction false} ExportedPerformance(timebase: Timebase, clips: seq<Placement>, origin: nat,
                                               end: Option<nat>) returns (performance: bytes, body: seq<Moment>)
    requires Encode(timebase, clips, origin, end).Some?
    ensures var datas := SmfFiles.FileDatas(Encode(timebase, clips, origin, end).value);
      datas.Some? && |datas.value| == 2 && datas.value[1] == performance
    ensures Decode(performance, 0).Some?
    ensures Timeline(Decode(performance, 0).value, 0) ==
            body + [Moment(if body == [] then 0 else body[|body| - 1].tick, Meta(0x2f, []))]
    ensures InTime(body)
    ensures Filter(body, Others) == Flat(Sort(AllEntries(clips), ByEntry))
    ensures Filter(body, Offs) == Flat(Sort(AllOffEntries(clips), ByEntry))
  {
    hide Sort, Filter, Map, Flat, Decode, Deltas, Cues, AllEntries, AllOffEntries, InTime, SmfFiles.FileDatas, Timeline,
        Spell.FileBytes, Ascending, AllSteps;
    var clock;
    clock, performance := ExportIsFormatOne(timebase, clips, origin, end);
    EncodePlays(timebase, clips, origin, end);
    var cues := ExportedCues(clips);
    DecodeTrack(cues, 0, 0);
    CuesTimeline(cues, 0);
    body := Flat(Map(cues, SayingEntry));
    FlatInTime(cues, AllNotes(clips));
    FlatSplit(cues);
    LastMoment(cues, body);
  }

  lemma {:induction false} EncodePlays(timebase: Timebase, clips: seq<Placement>, origin: nat, end: Option<nat>)
    requires Encode(timebase, clips, origin, end).Some?
    ensures AllPlayable(AllNotes(clips)) && AllSettable(AllControls(clips)) && ValidTimebase(timebase)
  {
  }

  lemma {:induction false} LastMoment(cues: seq<Cue>, body: seq<Moment>)
    requires body == Flat(Map(cues, SayingEntry))
    ensures EndTick(cues, 0) == if body == [] then 0 else body[|body| - 1].tick
    decreases |cues|
  {
    hide EntryOf, Map;
    if cues == [] {
      NothingSplit();
    } else {
      var n := |cues| - 1;
      LastIsFlat(cues[..n], cues[n]);
      assert cues == cues[..n] + [cues[n]];
      SaysSomething(cues[n]);
    }
  }

  lemma {:induction false} LastIsFlat(before: seq<Cue>, last: Cue)
    ensures Flat(Map(before + [last], SayingEntry)) == Flat(Map(before, SayingEntry)) + Moments(EntryOf(last))
    decreases |before|
  {
    hide EntryOf, Moments, Map;
    if before == [] {
      FlatNext(last, []);
      NothingSplit();
      assert [last] + [] == [last] && [] + [last] == [last];
    } else {
      LastIsFlat(before[1..], last);
      assert before == [before[0]] + before[1..];
      FlatNext(before[0], before[1..]);
      FlatNext(before[0], before[1..] + [last]);
      assert [before[0]] + (before[1..] + [last]) == before + [last];
    }
  }

  lemma {:induction false} SaysSomething(cue: Cue)
    ensures Moments(EntryOf(cue)) != []
    ensures forall m :: m in Moments(EntryOf(cue)) ==> m.tick == cue.tick
  {
  }
}
