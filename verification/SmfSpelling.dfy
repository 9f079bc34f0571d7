/** How Standard MIDI Files 1.0 spells a track: quantities, messages, and statuses that may be left out. The parser
    accepts what is spelled so and nothing else, and gives it the meaning it was spelled for. */
module SmfSpelling {
  import opened Wrappers
  import opened Bytes
  import opened SmfFormat
  import VariableLength

  // A quantity is up to four bytes of seven bits each, the first the most significant; all but the last have bit 7 set.
  predicate IsNumber(digits: bytes) {
    && 1 <= |digits| <= 4 && digits[|digits| - 1] < 0x80
    && forall i :: 0 <= i < |digits| - 1 ==> digits[i] >= 0x80
  }

  function Weight(n: nat): nat {
    if n == 0 then 1 else if n == 1 then 0x80 else if n == 2 then 0x4000 else 0x20_0000
  }

  function Number(digits: bytes): nat
    requires |digits| <= 4
  {
    if digits == [] then 0 else digits[0] % 0x80 * Weight(|digits| - 1) + Number(digits[1..])
  }

  // A message as it is spelled: a voice message with its data bytes, or a length-prefixed payload.
  datatype Spelled =
    | Voice(status: byte, data: bytes)
    | MetaEvent(kind: byte, length: bytes, data: bytes)
    | Exclusive(continued: bool, length: bytes, data: bytes)

  // `bare` leaves out the status of a voice message that has the status of the last one.
  datatype Timed = Timed(delta: bytes, message: Spelled, bare: bool)

  // Program changes and channel pressures have one data byte, everything else has two.
  function DataBytes(status: byte): nat {
    if 0xc0 <= status <= 0xdf then 1 else 2
  }

  predicate WellSpelled(timed: Timed, running: nat) {
    && IsNumber(timed.delta)
    && match timed.message
       case Voice(status, data) =>
         && 0x80 <= status && status !in [0xf0, 0xf7, 0xff] && |data| == DataBytes(status)
         && (timed.bare ==> status == running && data[0] < 0x80)
       case MetaEvent(_, length, data) => !timed.bare && IsNumber(length) && Number(length) == |data|
       case Exclusive(_, length, data) => !timed.bare && IsNumber(length) && Number(length) == |data|
  }

  // Only voice messages of the channels set the running status; no message cancels it.
  function RunningAfter(timed: Timed, running: nat): nat {
    match timed.message
    case Voice(status, _) => if status <= 0xef then status else running
    case _ => running
  }

  function Spelling(timed: Timed): bytes {
    timed.delta +
    match timed.message
    case Voice(status, data) => (if timed.bare then [] else [status]) + data
    case MetaEvent(kind, length, data) => [0xff, kind] + length + data
    case Exclusive(continued, length, data) => [if continued then 0xf7 else 0xf0] + length + data
  }

  function EventOf(message: Spelled): Event {
    match message
    case Voice(status, data) =>
      Channel(status / 0x10, status % 0x10 + 1, if data == [] then 0 else data[0], if |data| < 2 then 0 else data[1])
    case MetaEvent(kind, _, data) => Meta(kind, data)
    case Exclusive(_, _, _) => System
  }

  function StepOf(timed: Timed): Step {
    Step(if |timed.delta| <= 4 then Number(timed.delta) else 0, EventOf(timed.message))
  }

  predicate AllWellSpelled(track: seq<Timed>, running: nat) {
    track == [] || (WellSpelled(track[0], running) && AllWellSpelled(track[1..], RunningAfter(track[0], running)))
  }

  function SpellingOf(track: seq<Timed>): bytes {
    if track == [] then [] else Spelling(track[0]) + SpellingOf(track[1..])
  }

  function StepsOf(track: seq<Timed>): seq<Step> {
    if track == [] then [] else [StepOf(track[0])] + StepsOf(track[1..])
  }

  // A running status is one of a channel, or none yet.
  predicate IsRunning(running: nat) {
    running == 0 || 0x80 <= running <= 0xef
  }

  lemma {:induction false} ReadDigits(digits: bytes, rest: bytes, value: nat, limit: nat)
    requires IsNumber(digits) && |digits| <= limit <= 4
    ensures VariableLength.ReadFrom(digits + rest, value, limit) ==
            Some((value * 0x80 * Weight(|digits| - 1) + Number(digits), rest))
    decreases |digits|
  {
    assert (digits + rest)[1..] == digits[1..] + rest;
    if |digits| > 1 {
      ReadDigits(digits[1..], rest, value * 0x80 + digits[0] % 0x80, limit - 1);
      var w := Weight(|digits| - 2);
      assert Weight(|digits| - 1) == 0x80 * w;
      assert (value * 0x80 + digits[0] % 0x80) * 0x80 * w == value * 0x80 * (0x80 * w) + digits[0] % 0x80 * (0x80 * w);
    } else {
      assert digits[1..] == [] && Number([]) == 0;
    }
  }

  lemma {:induction false} ReadNumber(digits: bytes, rest: bytes)
    requires IsNumber(digits)
    ensures VariableLength.Read(digits + rest) == Some((Number(digits), rest))
  {
    ReadDigits(digits, rest, 0, 4);
  }

  lemma {:induction false} DigitsRead(input: bytes, value: nat, limit: nat) returns (digits: bytes)
    requires limit <= 4 && VariableLength.ReadFrom(input, value, limit).Some?
    ensures IsNumber(digits) && |digits| <= limit
    ensures input == digits + VariableLength.ReadFrom(input, value, limit).value.1
    decreases limit
  {
    if input[0] < 0x80 {
      digits := [input[0]];
    } else {
      var rest := DigitsRead(input[1..], value * 0x80 + input[0] % 0x80, limit - 1);
      digits := [input[0]] + rest;
    }
  }

  // Whatever is read as a quantity is spelled as one.
  lemma {:induction false} NumberRead(input: bytes) returns (digits: bytes)
    requires VariableLength.Read(input).Some?
    ensures IsNumber(digits) && VariableLength.Read(input).value.0 == Number(digits)
    ensures input == digits + VariableLength.Read(input).value.1
  {
    digits := DigitsRead(input, 0, 4);
    ReadNumber(digits, VariableLength.Read(input).value.1);
  }

  lemma {:induction false} PayloadSpelled(length: bytes, data: bytes, rest: bytes)
    requires IsNumber(length) && Number(length) == |data|
    ensures Payload(length + data + rest) == Some((data, rest))
  {
    assert length + data + rest == length + (data + rest);
    ReadNumber(length, data + rest);
    assert (data + rest)[..|data|] == data && (data + rest)[|data|..] == rest;
  }

  // The body of a message, its delta aside.
  function BodyOf(timed: Timed): bytes {
    Spelling(timed)[|timed.delta|..]
  }

  lemma {:induction false} VoiceSpelled(status: byte, data: bytes, bare: bool, running: nat, rest: bytes)
    requires 0x80 <= status && status !in [0xf0, 0xf7, 0xff] && |data| == DataBytes(status) && IsRunning(running)
    requires bare ==> status == running && data[0] < 0x80
    ensures DecodeEvent((if bare then [] else [status]) + data + rest, running) ==
            Some(Decoded(EventOf(Voice(status, data)), rest, if status <= 0xef then status else running))
  {
    var input := (if bare then [] else [status]) + data + rest;
    var body := data + rest;
    assert bare ==> input == body;
    assert !bare ==> input[0] == status && input[1..] == body;
    assert |data| == 1 ==> body[1..] == rest;
    assert |data| == 2 ==> body[2..] == rest;
  }

  lemma {:induction false} MetaSpelled(kind: byte, length: bytes, data: bytes, running: nat, rest: bytes)
    requires IsNumber(length) && Number(length) == |data|
    ensures DecodeEvent([0xff, kind] + length + data + rest, running) == Some(Decoded(Meta(kind, data), rest, running))
  {
    var input := [0xff, kind] + length + data + rest;
    assert input[1..][1..] == length + data + rest;
    PayloadSpelled(length, data, rest);
  }

  lemma {:induction false} ExclusiveSpelled(status: byte, length: bytes, data: bytes, running: nat, rest: bytes)
    requires IsNumber(length) && Number(length) == |data| && (status == 0xf0 || status == 0xf7)
    ensures DecodeEvent([status] + length + data + rest, running) == Some(Decoded(System, rest, running))
  {
    var input := [status] + length + data + rest;
    assert input[1..] == length + data + rest;
    PayloadSpelled(length, data, rest);
  }

  lemma {:induction false} MessageSpelled(timed: Timed, running: nat, rest: bytes)
    requires WellSpelled(timed, running) && IsRunning(running)
    ensures DecodeEvent(BodyOf(timed) + rest, running) ==
            Some(Decoded(EventOf(timed.message), rest, RunningAfter(timed, running)))
  {
    hide DecodeEvent, IsNumber, Number;
    var body := BodyOf(timed);
    match timed.message
    case Voice(status, data) =>
      assert body == (if timed.bare then [] else [status]) + data;
      VoiceSpelled(status, data, timed.bare, running, rest);
    case MetaEvent(kind, length, data) =>
      assert body == [0xff, kind] + length + data;
      MetaSpelled(kind, length, data, running, rest);
    case Exclusive(continued, length, data) =>
      assert body == [if continued then 0xf7 else 0xf0] + length + data;
      ExclusiveSpelled(if continued then 0xf7 else 0xf0, length, data, running, rest);
  }

  lemma {:induction false} PayloadRead(input: bytes) returns (length: bytes)
    requires Payload(input).Some?
    ensures IsNumber(length) && Number(length) == |Payload(input).value.0|
    ensures input == length + Payload(input).value.0 + Payload(input).value.1
  {
    length := NumberRead(input);
    var (n, tail) := VariableLength.Read(input).value;
    assert tail == tail[..n] + tail[n..];
  }

  lemma {:induction false} VoiceRead(status: byte, data: bytes, bare: bool, running: nat)
    requires 0x80 <= status && status !in [0xf0, 0xf7, 0xff] && IsRunning(running)
    requires bare ==> status == running && data != [] && data[0] < 0x80
    requires DecodeEvent((if bare then [] else [status]) + data, running).Some?
    ensures |data| >= DataBytes(status)
    ensures DecodeEvent((if bare then [] else [status]) + data, running).value.rest == data[DataBytes(status)..]
  {
    var input := (if bare then [] else [status]) + data;
    assert bare ==> input == data;
    assert !bare ==> input[0] == status && input[1..] == data;
  }

  lemma {:induction false} MetaRest(body: bytes, running: nat)
    requires body != [] && body[0] == 0xff && DecodeEvent(body, running).Some?
    ensures |body| >= 2 && Payload(body[1..][1..]).Some?
    ensures DecodeEvent(body, running).value.rest == Payload(body[1..][1..]).value.1
  {
  }

  lemma {:induction false} ExclusiveRest(body: bytes, running: nat)
    requires body != [] && (body[0] == 0xf0 || body[0] == 0xf7) && DecodeEvent(body, running).Some?
    ensures Payload(body[1..]).Some? && DecodeEvent(body, running).value.rest == Payload(body[1..]).value.1
  {
  }

  lemma {:induction false} SomeMeta(delta: bytes, body: bytes, running: nat) returns (timed: Timed)
    requires IsNumber(delta) && body != [] && body[0] == 0xff && DecodeEvent(body, running).Some?
    ensures WellSpelled(timed, running) && timed.delta == delta
    ensures delta + body == Spelling(timed) + DecodeEvent(body, running).value.rest
  {
    hide IsNumber, Number, DecodeEvent, Payload;
    MetaRest(body, running);
    var data := body[1..];
    var length := PayloadRead(data[1..]);
    timed := Timed(delta, MetaEvent(data[0], length, Payload(data[1..]).value.0), false);
    assert body == [0xff, data[0]] + data[1..];
  }

  lemma {:induction false} SomeExclusive(delta: bytes, body: bytes, running: nat) returns (timed: Timed)
    requires IsNumber(delta) && body != [] && (body[0] == 0xf0 || body[0] == 0xf7) && DecodeEvent(body, running).Some?
    ensures WellSpelled(timed, running) && timed.delta == delta
    ensures delta + body == Spelling(timed) + DecodeEvent(body, running).value.rest
  {
    hide IsNumber, Number, DecodeEvent, Payload;
    ExclusiveRest(body, running);
    var length := PayloadRead(body[1..]);
    timed := Timed(delta, Exclusive(body[0] == 0xf7, length, Payload(body[1..]).value.0), false);
    assert body == [body[0]] + body[1..];
  }

  lemma {:induction false} HasStatus(body: bytes, running: nat)
    requires IsRunning(running) && DecodeEvent(body, running).Some?
    ensures body != [] && (body[0] < 0x80 ==> running != 0)
  {
  }

  // Whatever is decoded as an event is spelled as one.
  lemma {:induction false} MessageRead(delta: bytes, body: bytes, running: nat) returns (timed: Timed)
    requires IsNumber(delta) && IsRunning(running) && DecodeEvent(body, running).Some?
    ensures WellSpelled(timed, running) && timed.delta == delta
    ensures delta + body == Spelling(timed) + DecodeEvent(body, running).value.rest
  {
    hide DecodeEvent, IsNumber, WellSpelled, Spelling;
    HasStatus(body, running);
    if body[0] == 0xff {
      timed := SomeMeta(delta, body, running);
    } else if body[0] == 0xf0 || body[0] == 0xf7 {
      timed := SomeExclusive(delta, body, running);
    } else {
      var bare := body[0] < 0x80;
      var data := if bare then body else body[1..];
      assert body == (if bare then [] else [body[0]]) + data;
      timed := SomeVoice(delta, if bare then running else body[0], data, bare, running);
    }
  }

  lemma {:induction false} SomeVoice(delta: bytes, status: byte, data: bytes, bare: bool, running: nat)
      returns (timed: Timed)
    requires IsNumber(delta) && 0x80 <= status && status !in [0xf0, 0xf7, 0xff] && IsRunning(running)
    requires bare ==> status == running && data != [] && data[0] < 0x80
    requires DecodeEvent((if bare then [] else [status]) + data, running).Some?
    ensures WellSpelled(timed, running) && timed.delta == delta
    ensures delta + ((if bare then [] else [status]) + data) ==
            Spelling(timed) + DecodeEvent((if bare then [] else [status]) + data, running).value.rest
  {
    hide DecodeEvent, IsNumber;
    VoiceRead(status, data, bare, running);
    var n := DataBytes(status);
    timed := Timed(delta, Voice(status, data[..n]), bare);
    assert data == data[..n] + data[n..];
  }

  lemma {:induction false} DecodesNext(delta: bytes, body: bytes, running: nat)
    requires IsNumber(delta) && DecodeEvent(body, running).Some?
    ensures var decoded := DecodeEvent(body, running).value;
      Decode(delta + body, running) ==
      match Decode(decoded.rest, decoded.running)
      case None => None
      case Some(steps) => Some([Step(Number(delta), decoded.event)] + steps)
  {
    hide DecodeEvent, VariableLength.Read;
    ReadNumber(delta, body);
  }

  lemma {:induction false} TrackSpelled(track: seq<Timed>, running: nat)
    requires AllWellSpelled(track, running) && IsRunning(running)
    ensures Decode(SpellingOf(track), running) == Some(StepsOf(track))
    decreases |track|
  {
    hide Decode, DecodeEvent, EventOf, IsNumber, Number;
    if track == [] {
      NothingSpelled(running);
    } else {
      var first, rest := track[0], SpellingOf(track[1..]);
      var body := BodyOf(first) + rest;
      assert SpellingOf(track) == first.delta + body;
      MessageSpelled(first, running, rest);
      DecodesNext(first.delta, body, running);
      TrackSpelled(track[1..], RunningAfter(first, running));
      assert StepOf(first) == Step(Number(first.delta), EventOf(first.message)) by { AtMostFour(first.delta); }
    }
  }

  lemma {:induction false} AtMostFour(digits: bytes)
    requires IsNumber(digits)
    ensures |digits| <= 4
  {
  }

  lemma {:induction false} NothingSpelled(running: nat)
    ensures Decode([], running) == Some([])
  {
  }

  lemma {:induction false} TrackRead(input: bytes, running: nat) returns (track: seq<Timed>)
    requires IsRunning(running) && Decode(input, running).Some?
    ensures AllWellSpelled(track, running) && SpellingOf(track) == input
    decreases |input|
  {
    hide DecodeEvent, WellSpelled;
    if input == [] {
      track := [];
    } else {
      var delta := NumberRead(input);
      var body := VariableLength.Read(input).value.1;
      var first := MessageRead(delta, body, running);
      MessageIsRead(first, running, body);
      var decoded := DecodeEvent(body, running).value;
      var rest := TrackRead(decoded.rest, decoded.running);
      track := [first] + rest;
      assert track[1..] == rest;
    }
  }

  lemma {:induction false} MessageIsRead(timed: Timed, running: nat, body: bytes)
    requires WellSpelled(timed, running) && IsRunning(running) && DecodeEvent(body, running).Some?
    requires timed.delta + body == Spelling(timed) + DecodeEvent(body, running).value.rest
    ensures DecodeEvent(body, running).value.running == RunningAfter(timed, running)
    ensures IsRunning(RunningAfter(timed, running))
  {
    var rest := DecodeEvent(body, running).value.rest;
    assert Spelling(timed) == timed.delta + BodyOf(timed);
    assert body == (timed.delta + body)[|timed.delta|..] == BodyOf(timed) + rest;
    MessageSpelled(timed, running, rest);
  }

  /** The bytes of a track decode to some events if and only if they spell them: with any choice of leaving out a status
      that is the running one, with system and meta events in between that leave the running status alone, with one data
      byte for program changes and channel pressures and two for everything else. */
  lemma {:induction false} DecodesWhatIsSpelled(input: bytes, steps: seq<Step>)
    ensures Decode(input, 0) == Some(steps) <==>
      exists track :: AllWellSpelled(track, 0) && SpellingOf(track) == input && StepsOf(track) == steps
  {
    if Decode(input, 0) == Some(steps) {
      var track := TrackRead(input, 0);
      TrackSpelled(track, 0);
    }
    forall track | AllWellSpelled(track, 0) && SpellingOf(track) == input && StepsOf(track) == steps
      ensures Decode(input, 0) == Some(steps)
    {
      TrackSpelled(track, 0);
    }
  }
}
