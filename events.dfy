/** Progress events, their server-sent-events framing, the broadcast channel
    they are published on, and the per-subscriber `/events` stream. */
module Events {
  import opened Base

  /** One pipeline-state report; `progress` is a percentage. */
  datatype ProgressEvent = ProgressEvent(eventType: string, message: string, progress: Option<real>)

  /** `ProgressEvent::new`. */
  function New(eventType: string, message: string, progress: Option<real>): (e: ProgressEvent)
    ensures e.eventType == eventType && e.message == message && e.progress == progress
  {
    ProgressEvent(eventType, message, progress)
  }

  /** An `error` event: it never carries a progress value. */
  function ErrorEvent(message: string): (e: ProgressEvent)
    ensures e.eventType == "error" && e.progress.None?
  {
    New("error", message, None)
  }

  /** Number of events of the given type in a log. */
  function CountType(events: seq<ProgressEvent>, eventType: string): nat
  {
    if events == [] then 0
    else CountType(events[..|events| - 1], eventType) + (if events[|events| - 1].eventType == eventType then 1 else 0)
  }

  lemma {:induction false} CountTypeAppend(a: seq<ProgressEvent>, b: seq<ProgressEvent>, eventType: string)
    ensures CountType(a + b, eventType) == CountType(a, eventType) + CountType(b, eventType)
    decreases |b|
  {
    if b != [] {
      assert (a + b)[..|a + b| - 1] == a + b[..|b| - 1];
      CountTypeAppend(a, b[..|b| - 1], eventType);
    } else {
      assert a + b == a;
    }
  }

  lemma {:induction false} CountTypeSingle(e: ProgressEvent, eventType: string)
    ensures CountType([e], eventType) == if e.eventType == eventType then 1 else 0
  {
    assert [e][..0] == [];
  }

  /** A log none of whose events has the type counts none of it. */
  lemma {:induction false} CountTypeAbsent(events: seq<ProgressEvent>, eventType: string)
    requires forall i :: 0 <= i < |events| ==> events[i].eventType != eventType
    ensures CountType(events, eventType) == 0
  {
    if events != [] {
      CountTypeAbsent(events[..|events| - 1], eventType);
    }
  }

  /** Appending logs is associative; stated once so that proofs about logs
      built in steps do not have to rediscover it. */
  lemma {:induction false} AppendAssoc(a: seq<ProgressEvent>, b: seq<ProgressEvent>, c: seq<ProgressEvent>)
    ensures a + b + c == a + (b + c)
  {
  }

  /** The progress values of a log, in order, skipping events without one. */
  function Progresses(events: seq<ProgressEvent>): seq<real>
  {
    if events == [] then []
    else
      var last := events[|events| - 1];
      Progresses(events[..|events| - 1]) + (if last.progress.Some? then [last.progress.value] else [])
  }

  lemma {:induction false} ProgressesSingle(e: ProgressEvent)
    ensures Progresses([e]) == if e.progress.Some? then [e.progress.value] else []
  {
    assert [e][..0] == [];
  }

  lemma {:induction false} ProgressesAppend(a: seq<ProgressEvent>, b: seq<ProgressEvent>)
    ensures Progresses(a + b) == Progresses(a) + Progresses(b)
    decreases |b|
  {
    if b != [] {
      assert (a + b)[..|a + b| - 1] == a + b[..|b| - 1];
      ProgressesAppend(a, b[..|b| - 1]);
    } else {
      assert a + b == a;
    }
  }

  // ---------------------------------------------------------------------
  // SSE framing

  const DataPrefix: string := "data: "
  const FrameEnd: string := "\n\n"

  /** The comment-only frame sent on every keepalive tick. */
  const Keepalive: string := ":\n\n"

  /** The JSON that goes into a frame: what `serde_json::to_string`
      produced, or `{}` when it failed. */
  function JsonOrEmpty(serialized: Option<string>): string
  {
    serialized.GetOr("{}")
  }

  /** `to_sse_format`: `serialize` stands for `serde_json::to_string`,
      `None` being a serialisation failure. */
  function ToSseFormat(e: ProgressEvent, serialize: ProgressEvent -> Option<string>): (frame: string)
    ensures SsePayload(frame) == Some(JsonOrEmpty(serialize(e)))
  {
    var json := JsonOrEmpty(serialize(e));
    var frame := DataPrefix + json + FrameEnd;
    assert frame[..|DataPrefix|] == DataPrefix;
    assert frame[|frame| - |FrameEnd|..] == FrameEnd;
    assert frame[|DataPrefix|..|frame| - |FrameEnd|] == json;
    frame
  }

  /** What a client reads out of a frame: the text between `data: ` and the
      blank line, or nothing for a frame that is not a data frame. */
  function SsePayload(frame: string): Option<string>
  {
    if |frame| >= |DataPrefix| + |FrameEnd|
      && frame[..|DataPrefix|] == DataPrefix
      && frame[|frame| - |FrameEnd|..] == FrameEnd
    then Some(frame[|DataPrefix|..|frame| - |FrameEnd|])
    else None
  }

  /** A keepalive is a comment, never mistaken for a data frame. */
  lemma {:induction false} KeepaliveIsNotData()
    ensures SsePayload(Keepalive).None?
  {
    assert |Keepalive| < |DataPrefix| + |FrameEnd|;
  }

  // ---------------------------------------------------------------------
  // The broadcast channel

  /** The sending side of the broadcast channel; `sent` is every event
      published so far, in order. Sending never fails the caller. */
  class EventChannel {
    var sent: seq<ProgressEvent>

    constructor ()
      ensures sent == []
    {
      sent := [];
    }

    method Send(e: ProgressEvent)
      modifies this
      ensures sent == old(sent) + [e]
    {
      sent := sent + [e];
    }
  }

  // ---------------------------------------------------------------------
  // The per-subscriber stream

  /** Why `recv` failed: the subscriber fell behind, or every sender is gone. */
  datatype RecvError = Lagged(skipped: nat) | Closed

  /** What the `select!` in one unfold step observed first: the keepalive
      timer, or the receiver with an event or an error. */
  datatype Wake = Tick | Received(result: Result<ProgressEvent, RecvError>)

  /** One unfold step: the frame it yields, or `None` when the stream ends. */
  function StreamStep(w: Wake, serialize: ProgressEvent -> Option<string>): (item: Option<string>)
    ensures w.Tick? ==> item == Some(Keepalive)
    ensures w.Received? ==> (item.Some? <==> w.result.Ok?)
    ensures w.Received? && w.result.Ok? ==> SsePayload(item.value) == Some(JsonOrEmpty(serialize(w.result.value)))
  {
    match w
    case Tick => Some(Keepalive)
    case Received(Ok(e)) => Some(ToSseFormat(e, serialize))
    case Received(Err(_)) => None
  }

  /** A wake-up that ends the stream. */
  predicate Ends(w: Wake) { w.Received? && w.result.Err? }

  /** Everything the client receives when the steps observe `wakes` in turn:
      frames up to (not including) the first receive error. */
  function StreamOutput(wakes: seq<Wake>, serialize: ProgressEvent -> Option<string>): seq<string>
  {
    if wakes == [] then []
    else if Ends(wakes[0]) then []
    else [StreamStep(wakes[0], serialize).value] + StreamOutput(wakes[1..], serialize)
  }

  /** The events received before the first receive error, in receive order. */
  function ReceivedEvents(wakes: seq<Wake>): seq<ProgressEvent>
  {
    if wakes == [] then []
    else if Ends(wakes[0]) then []
    else (if wakes[0].Received? then [wakes[0].result.value] else []) + ReceivedEvents(wakes[1..])
  }

  /** The data frames of an output, dropping keepalives. */
  function DataFrames(frames: seq<string>): seq<string>
  {
    if frames == [] then []
    else (if frames[0] == Keepalive then [] else [frames[0]]) + DataFrames(frames[1..])
  }

  function Frames(events: seq<ProgressEvent>, serialize: ProgressEvent -> Option<string>): (r: seq<string>)
    ensures |r| == |events|
  {
    if events == [] then [] else [ToSseFormat(events[0], serialize)] + Frames(events[1..], serialize)
  }

  /** Received events reach the client as their frames, in receive order and
      none missing, interleaved only with keepalives. */
  lemma {:induction false} StreamCarriesEventsInOrder(wakes: seq<Wake>, serialize: ProgressEvent -> Option<string>)
    ensures DataFrames(StreamOutput(wakes, serialize)) == Frames(ReceivedEvents(wakes), serialize)
  {
    if wakes != [] && !Ends(wakes[0]) {
      var f := StreamStep(wakes[0], serialize).value;
      var rest := StreamOutput(wakes[1..], serialize);
      StreamCarriesEventsInOrder(wakes[1..], serialize);
      assert StreamOutput(wakes, serialize) == [f] + rest;
      assert ([f] + rest)[0] == f && ([f] + rest)[1..] == rest;
      if wakes[0].Received? {
        KeepaliveIsNotData();
        assert f != Keepalive;
        assert DataFrames([f] + rest) == [f] + DataFrames(rest);
      } else {
        assert f == Keepalive;
        assert DataFrames([f] + rest) == DataFrames(rest);
        assert ReceivedEvents(wakes) == ReceivedEvents(wakes[1..]);
      }
    }
  }

  /** Once a receive error (lag or a closed channel) is observed, nothing
      that happens afterwards reaches the client. */
  lemma {:induction false} ErrorEndsStream(before: seq<Wake>, e: RecvError, after: seq<Wake>, serialize: ProgressEvent -> Option<string>)
    ensures StreamOutput(before + [Received(Err(e))] + after, serialize) == StreamOutput(before, serialize)
  {
    if before == [] {
      assert before + [Received(Err(e))] + after == [Received(Err(e))] + after;
    } else {
      assert (before + [Received(Err(e))] + after)[1..] == before[1..] + [Received(Err(e))] + after;
      ErrorEndsStream(before[1..], e, after, serialize);
    }
  }

  /** A tick yields one keepalive and the stream goes on. */
  lemma {:induction false} TickContinues(rest: seq<Wake>, serialize: ProgressEvent -> Option<string>)
    ensures StreamOutput([Tick] + rest, serialize) == [Keepalive] + StreamOutput(rest, serialize)
  {
    assert ([Tick] + rest)[1..] == rest;
  }

  /** The subscriber's stream state (`stream::unfold` over the receiver and
      the keepalive timer). `pending` is what the two will deliver, in the
      order `select!` observes it; `frames` is what the client has received. */
  class SseStream {
    const serialize: ProgressEvent -> Option<string>
    var pending: seq<Wake>
    var frames: seq<string>
    var finished: bool
    ghost var observed: seq<Wake>

    ghost predicate Valid()
      reads this
    {
      && frames == StreamOutput(observed, serialize)
      && finished == (exists i :: 0 <= i < |observed| && Ends(observed[i]))
    }

    /** `sse_events`: a fresh subscription. */
    constructor (serialize: ProgressEvent -> Option<string>, pending: seq<Wake>)
      ensures Valid() && this.serialize == serialize && this.pending == pending
      ensures frames == [] && !finished && observed == []
    {
      this.serialize := serialize;
      this.pending := pending;
      frames := [];
      finished := false;
      observed := [];
    }

    /** One poll of the stream: the unfold closure runs once. */
    method Next() returns (item: Option<string>)
      requires Valid() && !finished && pending != []
      modifies this
      ensures Valid()
      ensures observed == old(observed) + [old(pending)[0]] && pending == old(pending)[1..]
      ensures item == StreamStep(old(pending)[0], serialize)
      ensures finished == item.None?
      ensures frames == old(frames) + (if item.Some? then [item.value] else [])
    {
      var w := pending[0];
      pending := pending[1..];
      item := StreamStep(w, serialize);
      OutputExtends(observed, w);
      observed := observed + [w];
      if item.Some? {
        frames := frames + [item.value];
        assert !Ends(w);
        forall i | 0 <= i < |observed| ensures !Ends(observed[i]) {
          if i < |observed| - 1 {
            assert observed[i] == old(observed)[i];
          }
        }
      } else {
        finished := true;
        assert Ends(observed[|observed| - 1]);
      }
    }

    lemma {:induction false} OutputExtends(ws: seq<Wake>, w: Wake)
      requires forall i :: 0 <= i < |ws| ==> !Ends(ws[i])
      ensures StreamOutput(ws + [w], serialize)
        == StreamOutput(ws, serialize) + (if Ends(w) then [] else [StreamStep(w, serialize).value])
    {
      if ws == [] {
        assert ([w])[1..] == [];
      } else {
        assert (ws + [w])[1..] == ws[1..] + [w];
        OutputExtends(ws[1..], w);
      }
    }
  }
}
