/** The frames kept for a Host that is not active yet. */
module EventBuffer {
  import opened Wrappers

  const EVENT_BUFFER_LIMIT: nat := 512

  datatype Frame<P> = Frame(event: string, payload: P)

  predicate IsTelemetry(event: string) {
    event == "audio-meters" || event == "transport-status"
  }

  // The last queued frame of an event gives way to a newer one.
  function Replaced<P>(queue: seq<Frame<P>>, frame: Frame<P>): (r: seq<Frame<P>>)
    ensures |r| == |queue|
  {
    if queue == [] then []
    else
      var n := |queue| - 1;
      if queue[n].event == frame.event then queue[n := frame] else Replaced(queue[..n], frame) + [queue[n]]
  }

  function Buffer<P>(queue: seq<Frame<P>>, frame: Frame<P>): seq<Frame<P>> {
    if |queue| < EVENT_BUFFER_LIMIT || !IsTelemetry(frame.event) then queue + [frame] else Replaced(queue, frame)
  }

  // The queue after these frames have arrived.
  function Buffered<P>(frames: seq<Frame<P>>): seq<Frame<P>> {
    if frames == [] then [] else Buffer(Buffered(frames[..|frames| - 1]), frames[|frames| - 1])
  }

  // Meter readings and transport positions: a later frame makes an earlier one worthless.
  predicate Passing(event: string) {
    event in ["audio-meters", "transport-status"]
  }

  // The frames of every event that is not telemetry, in order.
  function Lasting<P>(frames: seq<Frame<P>>): seq<Frame<P>> {
    if frames == [] then []
    else
      var n := |frames| - 1;
      Lasting(frames[..n]) + if Passing(frames[n].event) then [] else [frames[n]]
  }

  function TelemetryCount<P>(frames: seq<Frame<P>>): nat {
    if frames == [] then 0
    else TelemetryCount(frames[..|frames| - 1]) + if Passing(frames[|frames| - 1].event) then 1 else 0
  }

  // The latest frame of one event.
  function Latest<P>(frames: seq<Frame<P>>, event: string): Option<Frame<P>> {
    if frames == [] then None
    else if frames[|frames| - 1].event == event then Some(frames[|frames| - 1])
    else Latest(frames[..|frames| - 1], event)
  }

  lemma {:induction false} Pushed<P>(queue: seq<Frame<P>>, frame: Frame<P>)
    ensures Lasting(queue + [frame]) == Lasting(queue) + if Passing(frame.event) then [] else [frame]
    ensures TelemetryCount(queue + [frame]) == TelemetryCount(queue) + if Passing(frame.event) then 1 else 0
    ensures forall event ::
              Latest(queue + [frame], event) == if event == frame.event then Some(frame) else Latest(queue, event)
  {
    assert (queue + [frame])[..|queue|] == queue;
  }

  lemma {:induction false} ReplacedKeeps<P>(queue: seq<Frame<P>>, frame: Frame<P>)
    requires Passing(frame.event)
    ensures Lasting(Replaced(queue, frame)) == Lasting(queue)
    ensures TelemetryCount(Replaced(queue, frame)) == TelemetryCount(queue)
  {
    if queue != [] {
      var n := |queue| - 1;
      if queue[n].event == frame.event {
        assert queue[n := frame][..n] == queue[..n];
      } else {
        ReplacedKeeps(queue[..n], frame);
        Pushed(Replaced(queue[..n], frame), queue[n]);
      }
    }
  }

  /** No frame but telemetry is lost or moved, and at most 512 frames of telemetry are held. */
  lemma {:induction false} BufferLosesTelemetryOnly<P>(frames: seq<Frame<P>>)
    ensures Lasting(Buffered(frames)) == Lasting(frames)
    ensures TelemetryCount(Buffered(frames)) <= 512
  {
    if frames != [] {
      var before, frame := Buffered(frames[..|frames| - 1]), frames[|frames| - 1];
      BufferLosesTelemetryOnly(frames[..|frames| - 1]);
      TelemetryFits(before);
      Pushed(before, frame);
      if Passing(frame.event) {
        ReplacedKeeps(before, frame);
      }
    }
  }

  lemma {:induction false} TelemetryFits<P>(frames: seq<Frame<P>>)
    ensures TelemetryCount(frames) <= |frames|
  {
    if frames != [] {
      TelemetryFits(frames[..|frames| - 1]);
    }
  }

  /** Up to the limit, the buffer is what was received. */
  lemma {:induction false} SmallBufferIsExact<P>(frames: seq<Frame<P>>)
    requires |frames| <= 512
    ensures Buffered(frames) == frames
  {
    if frames != [] {
      SmallBufferIsExact(frames[..|frames| - 1]);
    }
  }

  // No later one of these frames is of the same event.
  ghost predicate IsLastOfEvent<P>(frames: seq<Frame<P>>, k: nat)
    requires k < |frames|
  {
    forall j :: k < j < |frames| ==> frames[j].event != frames[k].event
  }

  lemma {:induction false} ReplacedAt<P>(queue: seq<Frame<P>>, frame: Frame<P>, k: nat)
    requires k < |queue|
    ensures Replaced(queue, frame)[k] ==
            if queue[k].event == frame.event && IsLastOfEvent(queue, k) then frame else queue[k]
    decreases |queue|
  {
    var n := |queue| - 1;
    if k < n && queue[n].event != frame.event {
      ReplacedAt(queue[..n], frame, k);
      assert IsLastOfEvent(queue[..n], k) && queue[k].event == frame.event ==> IsLastOfEvent(queue, k);
    }
  }

  lemma {:induction false} ReplacedBefore<P>(queue: seq<Frame<P>>, more: seq<Frame<P>>, frame: Frame<P>)
    requires forall other :: other in more ==> other.event != frame.event
    ensures Replaced(queue + more, frame) == Replaced(queue, frame) + more
  {
    var n := |more| - 1;
    if more == [] {
      assert queue + more == queue;
    } else {
      assert (queue + more)[..|queue| + n] == queue + more[..n];
      ReplacedBefore(queue, more[..n], frame);
    }
  }

  lemma {:induction false} LastingStays<P>(frames: seq<Frame<P>>)
    ensures forall frame :: frame in Lasting(frames) ==> !Passing(frame.event)
  {
    if frames != [] {
      LastingStays(frames[..|frames| - 1]);
    }
  }

  // A frame of these: the last of each telemetry event is held in its latest form, any other as it came.
  ghost predicate IsRenewed<P>(held: Frame<P>, first: seq<Frame<P>>, k: nat, frames: seq<Frame<P>>)
    requires k < |first|
  {
    if Passing(first[k].event) && IsLastOfEvent(first, k) then Some(held) == Latest(frames, first[k].event)
    else held == first[k]
  }

  // The first frames in their places.
  ghost predicate Renews<P>(held: seq<Frame<P>>, first: seq<Frame<P>>, frames: seq<Frame<P>>) {
    && |held| == |first|
    && forall k :: 0 <= k < |first| ==> held[k].event == first[k].event && IsRenewed(held[k], first, k, frames)
  }

  lemma {:induction false} RenewsAll<P>(frames: seq<Frame<P>>)
    ensures Renews(frames, frames, frames)
  {
    forall k: nat | k < |frames| && IsLastOfEvent(frames, k)
      ensures Latest(frames, frames[k].event) == Some(frames[k])
    {
      LatestOfLast(frames, k);
    }
  }

  lemma {:induction false} LatestOfLast<P>(frames: seq<Frame<P>>, k: nat)
    requires k < |frames| && IsLastOfEvent(frames, k)
    ensures Latest(frames, frames[k].event) == Some(frames[k])
  {
    var n := |frames| - 1;
    if k < n {
      assert IsLastOfEvent(frames[..n], k);
      LatestOfLast(frames[..n], k);
    }
  }

  lemma {:induction false} RenewsNext<P>(held: seq<Frame<P>>, first: seq<Frame<P>>, frames: seq<Frame<P>>,
                                         frame: Frame<P>)
    requires Renews(held, first, frames)
    ensures Renews(if Passing(frame.event) then Replaced(held, frame) else held, first, frames + [frame])
  {
    hide IsRenewed, Passing, IsLastOfEvent;
    var after := if Passing(frame.event) then Replaced(held, frame) else held;
    forall k: nat | k < |first|
      ensures after[k].event == first[k].event && IsRenewed(after[k], first, k, frames + [frame])
    {
      RenewsAt(held, first, frames, frame, k);
    }
  }

  lemma {:induction false} RenewsAt<P>(held: seq<Frame<P>>, first: seq<Frame<P>>, frames: seq<Frame<P>>,
                                       frame: Frame<P>, k: nat)
    requires k < |first| && |held| == |first| && forall j :: 0 <= j < |first| ==> held[j].event == first[j].event
    requires IsRenewed(held[k], first, k, frames)
    ensures var after := if Passing(frame.event) then Replaced(held, frame) else held;
      after[k].event == first[k].event && IsRenewed(after[k], first, k, frames + [frame])
  {
    hide Latest, Passing, Replaced;
    Pushed(frames, frame);
    ReplacedAt(held, frame, k);
    assert IsLastOfEvent(held, k) <==> IsLastOfEvent(first, k);
  }

  /** What is held: everything up to the first 512 frames; of more, the first 512 in their places, the last of each
      telemetry event among them in its latest form, and after them every later frame that is not telemetry. */
  lemma {:induction false} BufferIsExact<P>(frames: seq<Frame<P>>) returns (renewed: seq<Frame<P>>)
    ensures |frames| <= 512 ==> Buffered(frames) == frames
    ensures |frames| >= 512 ==>
      Renews(renewed, frames[..512], frames) && Buffered(frames) == renewed + Lasting(frames[512..])
  {
    hide Renews, IsRenewed, Latest, Passing, Lasting, Replaced, Buffer;
    renewed := [];
    if |frames| <= 512 {
      SmallBufferIsExact(frames);
      if |frames| == 512 {
        renewed := frames;
        RenewsAll(frames);
        assert frames[..512] == frames && frames[512..] == [];
        NothingLasts<P>();
      }
    } else {
      var n := |frames| - 1;
      var before, frame := frames[..n], frames[n];
      var held := BufferIsExact(before);
      assert frames == before + [frame];
      CutAt(before, frame, 512);
      RenewsSize(held, frames[..512], before);
      Pushed(before[512..], frame);
      RenewsNext(held, frames[..512], before, frame);
      renewed := if Passing(frame.event) then Replaced(held, frame) else held;
      BufferOneMore(held, before[512..], frame);
    }
  }

  lemma {:induction false} CutAt<P>(frames: seq<Frame<P>>, next: Frame<P>, n: nat)
    requires n <= |frames|
    ensures (frames + [next])[..n] == frames[..n] && (frames + [next])[n..] == frames[n..] + [next]
  {
  }

  lemma {:induction false} BufferOneMore<P>(held: seq<Frame<P>>, later: seq<Frame<P>>, frame: Frame<P>)
    requires |held| == 512
    ensures Buffer(held + Lasting(later), frame) ==
            if Passing(frame.event) then Replaced(held, frame) + Lasting(later) else held + (Lasting(later) + [frame])
  {
    hide Lasting, Replaced;
    LastingStays(later);
    if Passing(frame.event) {
      ReplacedBefore(held, Lasting(later), frame);
    } else {
      assert held + Lasting(later) + [frame] == held + (Lasting(later) + [frame]);
    }
  }

  lemma {:induction false} NothingLasts<P>()
    ensures Lasting<P>([]) == []
  {
  }

  lemma {:induction false} RenewsSize<P>(renewed: seq<Frame<P>>, first: seq<Frame<P>>, frames: seq<Frame<P>>)
    requires Renews(renewed, first, frames)
    ensures |renewed| == |first|
  {
  }
}
