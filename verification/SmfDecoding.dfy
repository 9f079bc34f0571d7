/** The bytes written for a cue decode to its events, and to nothing else. */
module SmfDecoding {
  import opened Wrappers
  import opened Bytes
  import opened StableSort
  import opened SmfFormat
  import opened SmfEncoder
  import VariableLength

  // What the parser makes of a control: channel pressure has one data byte.
  function ReadBack(control: Control): Control {
    if control.kind == ChannelPressure then control.(data2 := 0) else control
  }

  function CommandOf(kind: ControlKind): nat {
    match kind
    case ControlChange => 0xb
    case PitchBend => 0xe
    case ChannelPressure => 0xd
  }

  function NoteOn(note: Note): Event
    requires Playable(note)
  {
    Channel(0x9, note.channel, note.key, note.velocity)
  }

  function StepsOf(message: Message, delta: nat): seq<Step>
    requires Sayable(message)
  {
    match message
    case Press(_, note) =>
      if note.lyric.None? then [Step(delta, NoteOn(note))]
      else [Step(delta, Meta(LYRIC, note.lyric.value)), Step(0, NoteOn(note))]
    case Lift(_, note) => [Step(delta, Channel(0x8, note.channel, note.key, 0))]
    case Change(control) =>
      [Step(delta, Channel(CommandOf(control.kind), control.channel, control.data1, ReadBack(control).data2))]
  }

  const END_OF_TRACK: Step := Step(0, Meta(0x2f, []))

  ghost predicate Ascending(cues: seq<Cue>, previous: nat) {
    && (forall i :: 0 <= i < |cues| ==> previous <= cues[i].tick && Sayable(cues[i].message))
    && forall i, j :: 0 <= i < j < |cues| ==> cues[i].tick <= cues[j].tick
  }

  ghost function AllSteps(cues: seq<Cue>, previous: nat): seq<Step>
    requires Ascending(cues, previous)
  {
    if cues == [] then [END_OF_TRACK]
    else StepsOf(cues[0].message, cues[0].tick - previous) + AllSteps(cues[1..], cues[0].tick)
  }

  // Decoding `data` gives `steps` and goes on as decoding `rest` does.
  ghost predicate Yields(data: bytes, running: nat, steps: seq<Step>, rest: bytes, running': nat) {
    Decode(data, running) ==
    match Decode(rest, running')
    case None => None
    case Some(more) => Some(steps + more)
  }

  lemma {:induction false} YieldsBoth(a: bytes, p: nat, first: seq<Step>, b: bytes, q: nat, second: seq<Step>, c: bytes,
                                      r: nat)
    requires Yields(a, p, first, b, q) && Yields(b, q, second, c, r)
    ensures Yields(a, p, first + second, c, r)
  {
    if Decode(c, r).Some? {
      assert first + (second + Decode(c, r).value) == first + second + Decode(c, r).value;
    }
  }

  lemma {:induction false} YieldsAll(a: bytes, p: nat, first: seq<Step>, b: bytes, q: nat, rest: seq<Step>)
    requires Yields(a, p, first, b, q) && Decode(b, q) == Some(rest)
    ensures Decode(a, p) == Some(first + rest)
  {
  }

  lemma {:induction false} DecodeOne(delta: nat, body: bytes, running: nat, event: Event, rest: bytes, running': nat)
    requires delta < VariableLength.VLQ_LIMIT
    requires DecodeEvent(body, running) == Some(Decoded(event, rest, running'))
    ensures Yields(VariableLength.Encoded(delta) + body, running, [Step(delta, event)], rest, running')
  {
    var all := VariableLength.Encoded(delta) + body;
    VariableLength.RoundTrip(delta, body);
    assert VariableLength.Read(all) == Some((delta, body));
  }

  lemma {:induction false} DecodeThree(status: byte, data1: byte, data2: byte, rest: bytes, running: nat)
    requires 0x80 <= status < 0xf0 && status / 16 != 0xc && status / 16 != 0xd
    ensures DecodeEvent([status, data1, data2] + rest, running) ==
            Some(Decoded(Channel(status / 16, status % 16 + 1, data1, data2), rest, status))
  {
    var input := [status, data1, data2] + rest;
    assert input[1..] == [data1, data2] + rest;
    assert input[1..][2..] == rest;
  }

  lemma {:induction false} DecodeTwo(status: byte, data1: byte, rest: bytes, running: nat)
    requires status / 16 == 0xd
    ensures DecodeEvent([status, data1] + rest, running) ==
            Some(Decoded(Channel(0xd, status % 16 + 1, data1, 0), rest, status))
  {
    var input := [status, data1] + rest;
    assert input[1..] == [data1] + rest;
    assert input[1..][1..] == rest;
  }

  lemma {:induction false} DecodeMeta(kind: byte, data: bytes, rest: bytes, running: nat)
    requires |data| < VariableLength.VLQ_LIMIT
    ensures DecodeEvent([0xff, kind] + VariableLength.Encoded(|data|) + data + rest, running) ==
            Some(Decoded(Meta(kind, data), rest, running))
  {
    var length := VariableLength.Encoded(|data|);
    var input := [0xff, kind] + length + data + rest;
    assert input[1..][1..] == length + (data + rest);
    VariableLength.RoundTrip(|data|, data + rest);
    assert (data + rest)[..|data|] == data && (data + rest)[|data|..] == rest;
  }

  lemma {:induction false} DecodeControl(control: Control, delta: nat, rest: bytes, running: nat)
        returns (running': nat)
    requires Settable(control) && delta < VariableLength.VLQ_LIMIT
    ensures Yields(VariableLength.Encoded(delta) + ControlBytes(control) + rest, running,
                   StepsOf(Change(control), delta), rest, running')
  {
    var data := ControlBytes(control);
    var status := data[0];
    running' := status;
    var event := StepsOf(Change(control), delta)[0].event;
    if control.kind == ChannelPressure {
      DecodeTwo(status, control.data1, rest, running);
    } else {
      DecodeThree(status, control.data1, control.data2, rest, running);
    }
    DecodeOne(delta, data + rest, running, event, rest, status);
    assert VariableLength.Encoded(delta) + data + rest == VariableLength.Encoded(delta) + (data + rest);
  }

  lemma {:induction false} DecodeNoteOn(note: Note, delta: nat, rest: bytes, running: nat) returns (running': nat)
    requires Playable(note) && delta < VariableLength.VLQ_LIMIT
    ensures Yields(VariableLength.Encoded(delta) + [0x90 + note.channel - 1, note.key, note.velocity] + rest, running,
                   [Step(delta, NoteOn(note))], rest, running')
  {
    running' := 0x90 + note.channel - 1;
    var on := [0x90 + note.channel - 1, note.key, note.velocity];
    DecodeThree(0x90 + note.channel - 1, note.key, note.velocity, rest, running);
    DecodeOne(delta, on + rest, running, NoteOn(note), rest, running');
    assert VariableLength.Encoded(delta) + on + rest == VariableLength.Encoded(delta) + (on + rest);
  }

  lemma {:induction false} SungBytes(head: bytes, length: bytes, text: bytes, on: bytes, rest: bytes)
    ensures head + ([0xff, LYRIC] + length + text + [0] + on) + rest ==
            head + ([0xff, LYRIC] + length + text + ([0] + on + rest))
  {
  }

  lemma {:induction false} DecodeSung(id: nat, note: Note, delta: nat, rest: bytes, running: nat)
        returns (running': nat)
    requires Playable(note) && delta < VariableLength.VLQ_LIMIT && note.lyric.Some?
    ensures Yields(VariableLength.Encoded(delta) + MessageBytes(Press(id, note)) + rest, running,
                   StepsOf(Press(id, note), delta), rest, running')
  {
    hide Decode, DecodeEvent;
    var on := [0x90 + note.channel - 1, note.key, note.velocity];
    var text, head, length := note.lyric.value, VariableLength.Encoded(delta),
        VariableLength.Encoded(|note.lyric.value|);
    var after := [0] + on + rest;
    var body := [0xff, LYRIC] + length + text + after;
    assert VariableLength.Encoded(0) == [0];
    running' := DecodeNoteOn(note, 0, rest, running);
    DecodeMeta(LYRIC, text, after, running);
    DecodeOne(delta, body, running, Meta(LYRIC, text), after, running);
    YieldsBoth(head + body, running, [Step(delta, Meta(LYRIC, text))], after, running, [Step(0, NoteOn(note))], rest,
               running');
    SungBytes(head, length, text, on, rest);
    assert StepsOf(Press(id, note), delta) == [Step(delta, Meta(LYRIC, text))] + [Step(0, NoteOn(note))];
  }

  lemma {:induction false} DecodePress(id: nat, note: Note, delta: nat, rest: bytes, running: nat)
        returns (running': nat)
    requires Playable(note) && delta < VariableLength.VLQ_LIMIT
    ensures Yields(VariableLength.Encoded(delta) + MessageBytes(Press(id, note)) + rest, running,
                   StepsOf(Press(id, note), delta), rest, running')
  {
    hide Decode;
    if note.lyric.Some? {
      running' := DecodeSung(id, note, delta, rest, running);
    } else {
      running' := DecodeNoteOn(note, delta, rest, running);
      var on := [0x90 + note.channel - 1, note.key, note.velocity];
      assert [] + on == on;
    }
  }

  lemma {:induction false} DecodeMessage(message: Message, delta: nat, rest: bytes, running: nat)
        returns (running': nat)
    requires Sayable(message) && delta < VariableLength.VLQ_LIMIT
    ensures Yields(VariableLength.Encoded(delta) + MessageBytes(message) + rest, running, StepsOf(message, delta), rest,
                   running')
  {
    hide Decode;
    match message
    case Press(id, note) => running' := DecodePress(id, note, delta, rest, running);
    case Change(control) => running' := DecodeControl(control, delta, rest, running);
    case Lift(id, note) =>
      running' := 0x80 + note.channel - 1;
      var off := [0x80 + note.channel - 1, note.key, 0];
      DecodeThree(0x80 + note.channel - 1, note.key, 0, rest, running);
      DecodeOne(delta, off + rest, running, Channel(0x8, note.channel, note.key, 0), rest, running');
      assert VariableLength.Encoded(delta) + off + rest == VariableLength.Encoded(delta) + (off + rest);
  }

  lemma {:induction false} NothingLeft(running: nat)
    ensures Decode([], running) == Some([])
  {
  }

  lemma {:induction false} DecodeEnd(running: nat)
    ensures Decode([0, 0xff, 0x2f, 0], running) == Some([END_OF_TRACK])
  {
    hide Decode;
    var none: bytes := [];
    var body := [0xff, 0x2f, 0];
    assert VariableLength.Encoded(0) == [0];
    DecodeMeta(0x2f, none, none, running);
    assert body == [0xff, 0x2f] + VariableLength.Encoded(|none|) + none + none;
    DecodeOne(0, body, running, Meta(0x2f, none), none, running);
    assert [0, 0xff, 0x2f, 0] == VariableLength.Encoded(0) + body;
    NothingLeft(running);
    YieldsAll(VariableLength.Encoded(0) + body, running, [END_OF_TRACK], none, running, []);
    assert [END_OF_TRACK] + [] == [END_OF_TRACK];
  }

  lemma {:induction false} DeltasHead(cues: seq<Cue>, previous: nat)
    requires Ascending(cues, previous) && cues != [] && Deltas(Map(cues, Saying), previous).Some?
    ensures cues[0].tick - previous < VariableLength.VLQ_LIMIT && Ascending(cues[1..], cues[0].tick)
    ensures Deltas(Map(cues[1..], Saying), cues[0].tick).Some?
    ensures Deltas(Map(cues, Saying), previous).value ==
            VariableLength.Encoded(cues[0].tick - previous) + MessageBytes(cues[0].message)
            + Deltas(Map(cues[1..], Saying), cues[0].tick).value
  {
    hide MessageBytes, Sayable, VariableLength.Encoded;
    assert Map(cues, Saying)[1..] == Map(cues[1..], Saying);
    assert Map(cues, Saying)[0] == Said(cues[0]);
  }

  lemma {:induction false} StepsHead(cues: seq<Cue>, previous: nat)
    requires Ascending(cues, previous) && cues != [] && Ascending(cues[1..], cues[0].tick)
    ensures AllSteps(cues, previous) ==
            StepsOf(cues[0].message, cues[0].tick - previous) + AllSteps(cues[1..], cues[0].tick)
  {
  }

  /** The bytes of a whole track decode to the events of its cues in order. */
  lemma {:induction false} DecodeTrack(cues: seq<Cue>, previous: nat, running: nat)
    requires Ascending(cues, previous) && Deltas(Map(cues, Saying), previous).Some?
    ensures Decode(Deltas(Map(cues, Saying), previous).value, running) == Some(AllSteps(cues, previous))
    decreases |cues|
  {
    hide Decode, StepsOf, MessageBytes;
    if cues == [] {
      DecodeEnd(running);
    } else {
      var delta := cues[0].tick - previous;
      var steps, tail := StepsOf(cues[0].message, delta), AllSteps(cues[1..], cues[0].tick);
      DeltasHead(cues, previous);
      var rest := Deltas(Map(cues[1..], Saying), cues[0].tick).value;
      var running' := DecodeMessage(cues[0].message, delta, rest, running);
      DecodeTrack(cues[1..], cues[0].tick, running');
      YieldsAll(Deltas(Map(cues, Saying), previous).value, running, steps, rest, running', tail);
      StepsHead(cues, previous);
    }
  }
}
