/**
  What a whole segment of raw PCM comes out as, pushes and flushes in any order
  between its start and its end.
 */
module AudioSegments {
  import opened Wrappers
  import opened Sequences
  import opened AudioStream
  import opened AudioEmission

  function FramesOf(dst: seq<Output>): seq<AudioFrame> {
    seq(|dst|, k requires 0 <= k < |dst| => dst[k].frame)
  }

  function Held(s: State): seq<AudioFrame> {
    if s.lastFrame.Some? then [s.lastFrame.value] else []
  }

  /** No silence was made up from output k on. */
  ghost predicate RealFrom(dst: seq<Output>, k: nat) {
    forall l :: k <= l < |dst| ==> !dst[l].synthetic
  }

  /** Emitting loses and reorders nothing: what was sent, then what is held, grows by the frames. */
  lemma {:induction false} EmittingKeepsOrder(s: State, fs: seq<AudioFrame>, k: nat)
    requires Sound(s) && s.ctx.Some? && forall f :: f in fs ==> Positive(f)
    requires RealFrom(s.dst, k)
    ensures var s' := EmittedAll(s, fs);
      && FramesOf(s'.dst) + Held(s') == FramesOf(s.dst) + Held(s) + fs
      && s'.lastFrame.Some? == (s.lastFrame.Some? || fs != [])
      && RealFrom(s'.dst, k)
      && s'.ctx.value.id == s.ctx.value.id
    decreases |fs|
  {
    if fs == [] {
      assert FramesOf(s.dst) + Held(s) + [] == FramesOf(s.dst) + Held(s);
    } else {
      var s1 := Emitted(s, fs[0]);
      EmittingKeepsOrder(s1, fs[1..], k);
      assert FramesOf(s1.dst) + Held(s1) == FramesOf(s.dst) + Held(s) + [fs[0]];
      Regroup3(FramesOf(s.dst) + Held(s), fs);
    }
  }

  lemma Regroup3(a: seq<AudioFrame>, fs: seq<AudioFrame>)
    requires fs != []
    ensures a + [fs[0]] + fs[1..] == a + fs
  {
  }

  /** The calls inside a segment, as events of the write channel. */
  function EventOf(call: Call): Event {
    match call
    case PushCall(data) => Data(data)
    case FlushCall => FlushSegment
  }

  function EventsOf(calls: seq<Call>): seq<Event> {
    seq(|calls|, k requires 0 <= k < |calls| => EventOf(calls[k]))
  }

  predicate HasPush(calls: seq<Call>) {
    exists k :: 0 <= k < |calls| && calls[k].PushCall?
  }

  /** The frames one more call gives. */
  ghost function FramesOfCall(c: Config, front: seq<Call>, call: Call): seq<AudioFrame>
    requires IsConfig(c)
  {
    var buf := Kept(c, PushedBytes(front));
    if call.PushCall? then PushedFrames(c, buf + call.data) else FlushedFrames(c, buf)
  }

  /** The frames of all calls, in order. */
  ghost function CallFrames(c: Config, calls: seq<Call>): (fs: seq<AudioFrame>)
    requires IsConfig(c)
    ensures forall f :: f in fs ==> Positive(f)
    decreases |calls|
  {
    if calls == [] then []
    else
      var front := calls[..|calls| - 1];
      CallFrames(c, front) + FramesOfCall(c, front, calls[|calls| - 1])
  }

  /** Whether the last frame is still held back: none came, or a flush let it go. */
  ghost predicate Holding(c: Config, calls: seq<Call>)
    requires IsConfig(c)
    decreases |calls|
  {
    calls != [] &&
    var front, last := calls[..|calls| - 1], calls[|calls| - 1];
    last.PushCall? && (Holding(c, front) || FramesOfCall(c, front, last) != [])
  }

  lemma CallFramesSnoc(c: Config, front: seq<Call>, call: Call)
    requires IsConfig(c)
    ensures var calls := front + [call];
      && CallFrames(c, calls) == CallFrames(c, front) + FramesOfCall(c, front, call)
      && (Holding(c, calls) <==> call.PushCall? && (Holding(c, front) || FramesOfCall(c, front, call) != []))
      && PushedBytes(calls) == PushedBytes(front) + (if call.PushCall? then call.data else [])
      && Kept(c, PushedBytes(calls)) ==
           (if call.PushCall? then Kept(c, Kept(c, PushedBytes(front)) + call.data) else Kept(c, PushedBytes(front)))
      && (HasPush(calls) <==> HasPush(front) || call.PushCall?)
  {
    FrameBytesPositive(c);
    CallsSnoc(front, call, FrameBytes(c), c.numChannels);
    assert (front + [call])[..|front|] == front && (front + [call])[|front|] == call;
    assert forall k :: 0 <= k < |front| ==> (front + [call])[k] == front[k];
  }

  lemma FramesOfCallData(c: Config, front: seq<Call>, call: Call)
    requires IsConfig(c)
    ensures FrameBytes(c) > 0
    ensures var buf := Left(PushedBytes(front), FrameBytes(c));
      DataOf(FramesOfCall(c, front, call)) ==
        if call.PushCall? then Chunks(buf + call.data, FrameBytes(c)) else Flushed(buf, c.numChannels)
  {
    FrameBytesPositive(c);
    hide PushedFrames, FlushedFrames, Left, Chunks, Flushed, PushedBytes;
  }

  /** The data of these frames is what the byte stream returns. */
  lemma {:induction false} CallFramesData(c: Config, calls: seq<Call>)
    requires IsConfig(c)
    ensures FrameBytes(c) > 0 && DataOf(CallFrames(c, calls)) == Returned(calls, FrameBytes(c), c.numChannels)
    decreases |calls|
  {
    hide CallFrames, Returned, Chunks, PushedBytes, PushedFrames, FlushedFrames, Left, Flushed, FramesOfCall, DataOf;
    FrameBytesPositive(c);
    if calls == [] {
      NoFramesYet(c);
      NoCalls(FrameBytes(c), c.numChannels);
      NoData();
    } else {
      var front, last := calls[..|calls| - 1], calls[|calls| - 1];
      CallFramesData(c, front);
      assert calls == front + [last];
      CallFramesSnoc(c, front, last);
      CallsSnoc(front, last, FrameBytes(c), c.numChannels);
      FramesOfCallData(c, front, last);
      DataAppend(CallFrames(c, front), FramesOfCall(c, front, last));
    }
  }

  lemma DataAppend(a: seq<AudioFrame>, b: seq<AudioFrame>)
    ensures DataOf(a + b) == DataOf(a) + DataOf(b)
  {
  }

  lemma NoData()
    ensures DataOf([]) == []
  {
  }

  lemma NoFramesYet(c: Config)
    requires IsConfig(c)
    ensures CallFrames(c, []) == PushedFrames(c, []) == [] && !Holding(c, []) && !HasPush([])
    ensures Kept(c, []) == [] && PushedBytes([]) == []
    ensures FlushedFrames(c, []) == []
  {
    FrameBytesPositive(c);
  }

  /** Between segments: nothing open, nothing buffered. */
  predicate Between(s: State) {
    !s.stopped && s.ctx.None? && s.buf.None? && s.lastFrame.None?
  }

  /** A started segment after some calls: what was sent and what is held are their frames. */
  ghost predicate Filling(c: Config, s0: State, s: State, id: string, calls: seq<Call>)
    requires IsConfig(c)
  {
    && !s.stopped && s.ctx.Some? && s.ctx.value.id == id && |s.durations| == |s0.durations| + 1
    && s.buf == (if HasPush(calls) then Some(Kept(c, PushedBytes(calls))) else None)
    && FramesOf(s.dst) + Held(s) == FramesOf(s0.dst) + CallFrames(c, calls)
    && s.lastFrame.Some? == Holding(c, calls)
    && RealFrom(s.dst, |s0.dst|) && s0.dst <= s.dst
    && BelongFrom(s.dst, |s0.dst|, |s0.durations|, id)
  }

  lemma FillingStarts(c: Config, s0: State, id: string)
    requires IsConfig(c) && Sound(s0) && Between(s0)
    ensures Filling(c, s0, Handled(c, s0, StartSegment(id)), id, [])
  {
    assert FramesOf(s0.dst) + [] == FramesOf(s0.dst) + CallFrames(c, []);
  }

  /** Nothing was pushed, nothing is kept. */
  lemma {:induction false} NothingKept(c: Config, calls: seq<Call>)
    requires IsConfig(c) && !HasPush(calls)
    ensures PushedBytes(calls) == [] && Kept(c, []) == [] && CallFrames(c, calls) == [] && !Holding(c, calls)
    decreases |calls|
  {
    hide CallFrames, PushedBytes, PushedFrames, FlushedFrames, Holding, HasPush, Kept;
    NoFramesYet(c);
    if calls != [] {
      var front, last := calls[..|calls| - 1], calls[|calls| - 1];
      assert calls == front + [last];
      CallFramesSnoc(c, front, last);
      NothingKept(c, front);
    }
  }

  lemma BufferOfFilling(c: Config, s0: State, s: State, id: string, calls: seq<Call>)
    requires IsConfig(c) && Filling(c, s0, s, id, calls)
    ensures Buffered(s) == Kept(c, PushedBytes(calls))
  {
    hide PushedBytes, CallFrames, Kept;
    if !HasPush(calls) {
      NothingKept(c, calls);
    }
  }

  lemma PushFills(c: Config, s0: State, s: State, id: string, calls: seq<Call>, data: Bytes)
    requires IsConfig(c) && Sound(s) && Filling(c, s0, s, id, calls)
    ensures Filling(c, s0, Handled(c, s, Data(data)), id, calls + [PushCall(data)])
  {
    BufferOfFilling(c, s0, s, id, calls);
    CallFramesSnoc(c, calls, PushCall(data));
    var all := Buffered(s) + data;
    var s1, fs := s.(buf := Some(Kept(c, all))), PushedFrames(c, all);
    HandledData(c, s, data);
    hide PushedFrames, Kept, Duration, Handled, EmittedAll, PushedBytes, CallFrames, Holding, HasPush;
    assert HasPush(calls + [PushCall(data)]);
    EmittingKeepsOrder(s1, fs, |s0.dst|);
    EmitsForTheOpenSegment(s1, fs);
    SameSegments(s1, fs);
    Regroup4(FramesOf(s0.dst), CallFrames(c, calls), fs);
    hide FramesOf, BelongFrom, RealFrom;
  }

  lemma HandledData(c: Config, s: State, more: Bytes)
    requires IsConfig(c) && Sound(s) && !s.stopped && s.ctx.Some?
    ensures var all := Buffered(s) + more;
      Handled(c, s, Data(more)) == EmittedAll(s.(buf := Some(Kept(c, all))), PushedFrames(c, all))
  {
  }

  lemma Regroup4(a: seq<AudioFrame>, b: seq<AudioFrame>, fs: seq<AudioFrame>)
    ensures a + b + fs == a + (b + fs)
  {
  }

  /** Letting the held frame go, not final. */
  lemma FlushedInOrder(s: State, k: nat)
    requires Sound(s) && s.ctx.Some? && RealFrom(s.dst, k)
    ensures var s' := FlushedFrame(s);
      && FramesOf(s'.dst) + Held(s') == FramesOf(s.dst) + Held(s) && s'.lastFrame.None?
      && RealFrom(s'.dst, k) && s.dst <= s'.dst && s'.ctx.Some? && s'.ctx.value.id == s.ctx.value.id
      && BelongFrom(s'.dst, |s.dst|, Open(s), s.ctx.value.id)
      && |s'.durations| == |s.durations| && s'.buf == s.buf && s'.stopped == s.stopped
  {
    if s.lastFrame.Some? {
      assert FramesOf(FlushedFrame(s).dst) == FramesOf(s.dst) + [s.lastFrame.value];
      assert FramesOf(FlushedFrame(s).dst) + [] == FramesOf(FlushedFrame(s).dst);
    }
  }

  lemma FlushFills(c: Config, s0: State, s: State, id: string, calls: seq<Call>)
    requires IsConfig(c) && Sound(s) && Filling(c, s0, s, id, calls)
    ensures Filling(c, s0, Handled(c, s, FlushSegment), id, calls + [FlushCall])
  {
    hide Kept, Duration, EmittedAll, PushedBytes, CallFrames, Holding, HasPush, FlushedFrames, PushedFrames;
    CallFramesSnoc(c, calls, FlushCall);
    if s.buf.None? {
      NothingKept(c, calls);
      NoFramesYet(c);
      Assoc(CallFrames(c, calls), [], []);
    } else {
      FlushedFills(c, s0, s, id, calls);
      HandledFlush(c, s);
    }
  }

  lemma HandledFlush(c: Config, s: State)
    requires IsConfig(c) && Sound(s) && !s.stopped && s.ctx.Some? && s.buf.Some?
    ensures Handled(c, s, FlushSegment) == FlushedFrame(EmittedAll(s, FlushedFrames(c, s.buf.value)))
  {
  }

  lemma FlushedFills(c: Config, s0: State, s: State, id: string, calls: seq<Call>)
    requires IsConfig(c) && Sound(s) && Filling(c, s0, s, id, calls) && HasPush(calls)
    ensures Filling(c, s0, FlushedFrame(EmittedAll(s, FlushedFrames(c, s.buf.value))), id, calls + [FlushCall])
  {
    hide Kept, Duration, EmittedAll, PushedBytes, CallFrames, Holding, HasPush;
    hide FlushedFrames, FlushedFrame, PushedFrames;
    CallFramesSnoc(c, calls, FlushCall);
    var fs := FlushedFrames(c, s.buf.value);
    EmittingKeepsOrder(s, fs, |s0.dst|);
    EmitsForTheOpenSegment(s, fs);
    SameSegments(s, fs);
    Regroup4(FramesOf(s0.dst), CallFrames(c, calls), fs);
    FlushedInOrder(EmittedAll(s, fs), |s0.dst|);
  }

  lemma {:induction false} RunFills(c: Config, evs: seq<Event>, id: string, calls: seq<Call>)
    requires IsConfig(c) && Between(Run(c, evs))
    ensures Filling(c, Run(c, evs), Run(c, evs + [StartSegment(id)] + EventsOf(calls)), id, calls)
    decreases |calls|
  {
    hide Filling, Run, Handled;
    var started, s0 := evs + [StartSegment(id)], Run(c, evs);
    if calls == [] {
      RunSnoc(c, evs, StartSegment(id));
      FillingStarts(c, s0, id);
      assert started + EventsOf(calls) == started;
    } else {
      var front, last := calls[..|calls| - 1], calls[|calls| - 1];
      var s := Run(c, started + EventsOf(front));
      RunFills(c, evs, id, front);
      RunSnoc(c, started + EventsOf(front), EventOf(last));
      assert started + EventsOf(front) + [EventOf(last)] == started + EventsOf(calls);
      assert front + [last] == calls;
      match last
      case PushCall(data) => PushFills(c, s0, s, id, front, data);
      case FlushCall => FlushFills(c, s0, s, id, front);
    }
  }

  /** The frames a segment should give: those of its calls, then what is left if it is whole samples. */
  ghost function SegmentFrames(c: Config, calls: seq<Call>): seq<AudioFrame>
    requires IsConfig(c)
  {
    CallFrames(c, calls) + FlushedFrames(c, Kept(c, PushedBytes(calls)))
  }

  /** A flush let the last frame go and nothing came after it: the end has no frame to mark final. */
  ghost predicate EndsEmptyHanded(c: Config, calls: seq<Call>)
    requires IsConfig(c)
  {
    !Holding(c, calls) && FlushedFrames(c, Kept(c, PushedBytes(calls))) == [] && CallFrames(c, calls) != []
  }

  function SegmentEvents(id: string, calls: seq<Call>): seq<Event> {
    [StartSegment(id)] + EventsOf(calls) + [EndSegment]
  }

  /** From output k on: the last, and only it, is final; it, if anything, is made up. */
  ghost predicate FinishedFrom(dst: seq<Output>, k: nat, madeUp: bool) {
    forall l :: k <= l < |dst| ==>
      && (dst[l].isFinal <==> l == |dst| - 1)
      && (dst[l].synthetic <==> madeUp && l == |dst| - 1)
  }

  /** After `_emit_frame(is_final=True)` the frames are all out, with silence behind them if none was held. */
  lemma EndedInOrder(c: Config, s: State, k: nat, segment: int, id: string)
    requires Sound(s) && s.ctx.Some? && s.ctx.value.id == id && Open(s) == segment
    requires k <= |s.dst| && RealFrom(s.dst, k) && BelongFrom(s.dst, k, segment, id)
    requires s.ctx.value.audioDuration > 0.0 <==> |s.dst| > k
    ensures var s', madeUp := Ended(s, c), s.lastFrame.None? && |s.dst| > k;
      && FramesOf(s'.dst) == FramesOf(s.dst) + Held(s) + (if madeUp then [Silence(c)] else [])
      && s.dst <= s'.dst && BelongFrom(s'.dst, k, segment, id)
      && (forall l :: k <= l < |s'.dst| ==> (s'.dst[l].synthetic <==> madeUp && l == |s'.dst| - 1))
      && |s'.durations| == |s.durations| && s'.stopped == s.stopped
  {
    hide Duration, Silence;
    var s' := Ended(s, c);
    if s.lastFrame.Some? {
      assert FramesOf(s'.dst) == FramesOf(s.dst) + [s.lastFrame.value];
      Assoc(FramesOf(s.dst) + Held(s), [], []);
    } else {
      Assoc(FramesOf(s.dst), [], []);
      Assoc(FramesOf(s.dst), [], []);
      if |s.dst| > k {
        assert FramesOf(s'.dst) == FramesOf(s.dst) + [Silence(c)];
      }
    }
  }

  /** The open segment's record is positive exactly once something was sent for it. */
  lemma AudibleOnceSent(c: Config, s0: State, s: State, id: string, calls: seq<Call>,
                        ids0: seq<string>, ids: seq<string>)
    requires IsConfig(c) && Inv(s0, ids0) && Inv(s, ids) && Filling(c, s0, s, id, calls)
    ensures s.ctx.value.audioDuration > 0.0 <==> |s.dst| > |s0.dst|
    ensures s.durations != [] && s.durations[|s.durations| - 1] == s.ctx.value.audioDuration
    ensures |s.dst| - |s0.dst| == |CallFrames(c, calls)| - |Held(s)|
  {
    hide FinalsRight, DurationsRight, IdsRight, CallFrames, Kept, PushedBytes, RealFrom, Holding;
    assert |FramesOf(s.dst) + Held(s)| == |FramesOf(s0.dst)| + |CallFrames(c, calls)|;
    if |s.dst| > |s0.dst| {
      assert s.dst[|s.dst| - 1].segment == |s0.durations|;
    } else {
      assert s.dst == s0.dst;
    }
  }

  /** One more emission of the frames left, before the end. */
  lemma FlushBeforeEnd(c: Config, s0: State, s: State, id: string, calls: seq<Call>)
    requires IsConfig(c) && Sound(s) && Filling(c, s0, s, id, calls) && HasPush(calls)
    requires s.ctx.value.audioDuration > 0.0 <==> |s.dst| > |s0.dst|
    ensures var fs := FlushedFrames(c, Kept(c, PushedBytes(calls)));
      var s1 := EmittedAll(s, fs);
      && FramesOf(s1.dst) + Held(s1) == FramesOf(s0.dst) + SegmentFrames(c, calls)
      && (s1.lastFrame.None? <==> !Holding(c, calls) && fs == [])
      && (s1.lastFrame.None? ==> s1 == s && |s.dst| - |s0.dst| == |CallFrames(c, calls)|)
      && s1.ctx.Some? && s1.ctx.value.id == id && |s1.durations| == |s0.durations| + 1 && !s1.stopped
      && s0.dst <= s1.dst && RealFrom(s1.dst, |s0.dst|) && BelongFrom(s1.dst, |s0.dst|, |s0.durations|, id)
  {
    hide Kept, Duration, EmittedAll, PushedBytes, CallFrames, Holding, HasPush, FlushedFrames;
    var fs := FlushedFrames(c, Kept(c, PushedBytes(calls)));
    EmittingKeepsOrder(s, fs, |s0.dst|);
    EmitsForTheOpenSegment(s, fs);
    SameSegments(s, fs);
    Regroup4(FramesOf(s0.dst), CallFrames(c, calls), fs);
    if fs == [] && s.lastFrame.None? {
      NoneEmitted(s);
      assert |FramesOf(s.dst) + Held(s)| == |FramesOf(s0.dst)| + |CallFrames(c, calls)|;
    }
  }

  lemma NoneEmitted(s: State)
    requires Sound(s) && s.ctx.Some?
    ensures EmittedAll(s, []) == s
  {
  }

  lemma HandledEnd(c: Config, s: State)
    requires IsConfig(c) && Sound(s) && !s.stopped && s.ctx.Some? && s.buf.Some?
    ensures Handled(c, s, EndSegment) == Ended(EmittedAll(s, FlushedFrames(c, s.buf.value)), c)
  {
  }

  /** The end, once what was left has been emitted. */
  lemma EndAfterFlush(c: Config, s0: State, s: State, id: string, frames: seq<AudioFrame>)
    requires Sound(s) && s.ctx.Some? && s.ctx.value.id == id && |s.durations| == |s0.durations| + 1 && !s.stopped
    requires s0.dst <= s.dst && RealFrom(s.dst, |s0.dst|) && BelongFrom(s.dst, |s0.dst|, |s0.durations|, id)
    requires FramesOf(s.dst) + Held(s) == FramesOf(s0.dst) + frames
    requires s.ctx.value.audioDuration > 0.0 <==> |s.dst| > |s0.dst|
    ensures var s', madeUp := Ended(s, c), s.lastFrame.None? && |s.dst| > |s0.dst|;
      && Between(s') && s0.dst <= s'.dst && |s'.durations| == |s0.durations| + 1
      && BelongFrom(s'.dst, |s0.dst|, |s0.durations|, id)
      && FramesOf(s'.dst) == FramesOf(s0.dst) + frames + (if madeUp then [Silence(c)] else [])
      && (forall l :: |s0.dst| <= l < |s'.dst| ==> (s'.dst[l].synthetic <==> madeUp && l == |s'.dst| - 1))
  {
    hide Duration, Silence, FramesOf;
    EndedInOrder(c, s, |s0.dst|, |s0.durations|, id);
    hide EmittedFinal, Sent, BelongFrom, RealFrom;
  }

  lemma EndOfFilling(c: Config, s0: State, s: State, id: string, calls: seq<Call>,
                     ids0: seq<string>, ids: seq<string>)
    requires IsConfig(c) && Inv(s0, ids0) && Inv(s, ids) && Filling(c, s0, s, id, calls) && HasPush(calls)
    requires Inv(EmittedAll(s, FlushedFrames(c, Kept(c, PushedBytes(calls)))), ids)
    ensures var s', madeUp := Handled(c, s, EndSegment), EndsEmptyHanded(c, calls);
      && Between(s') && s0.dst <= s'.dst && |s'.durations| == |s0.durations| + 1
      && BelongFrom(s'.dst, |s0.dst|, |s0.durations|, id)
      && FramesOf(s'.dst) == FramesOf(s0.dst) + SegmentFrames(c, calls) + (if madeUp then [Silence(c)] else [])
      && (forall l :: |s0.dst| <= l < |s'.dst| ==> (s'.dst[l].synthetic <==> madeUp && l == |s'.dst| - 1))
  {
    hide Kept, Duration, EmittedAll, PushedBytes, CallFrames, Holding, HasPush, FlushedFrames, SegmentFrames, Silence;
    hide FinalsRight, DurationsRight, IdsRight, Handled, Ended, Between, BelongFrom, RealFrom, FramesOf, Held;
    AudibleOnceSent(c, s0, s, id, calls, ids0, ids);
    HandledEnd(c, s);
    FlushBeforeEnd(c, s0, s, id, calls);
    var s1 := EmittedAll(s, FlushedFrames(c, Kept(c, PushedBytes(calls))));
    AudibleBeforeEnd(s0, s1, id, ids0, ids);
    EndAfterFlush(c, s0, s1, id, SegmentFrames(c, calls));
  }

  lemma AudibleBeforeEnd(s0: State, s: State, id: string, ids0: seq<string>, ids: seq<string>)
    requires Inv(s0, ids0) && Inv(s, ids) && s.ctx.Some? && |s.durations| == |s0.durations| + 1
    requires s0.dst <= s.dst && BelongFrom(s.dst, |s0.dst|, |s0.durations|, id)
    ensures s.ctx.value.audioDuration > 0.0 <==> |s.dst| > |s0.dst|
  {
    hide FinalsRight, DurationsRight, IdsRight;
    if |s.dst| > |s0.dst| {
      assert s.dst[|s.dst| - 1].segment == |s0.durations|;
    } else {
      assert s.dst == s0.dst;
    }
  }

  /** Outputs of one closed segment at the end: the last, and only it, is final. */
  lemma OnlyTheLastIsFinal(dst: seq<Output>, k: nat, segment: int, id: string, madeUp: bool)
    requires FinalsRight(dst, -1) && BelongFrom(dst, k, segment, id)
    requires forall l :: k <= l < |dst| ==> (dst[l].synthetic <==> madeUp && l == |dst| - 1)
    ensures FinishedFrom(dst, k, madeUp)
  {
  }

  /**
    A whole segment with something pushed in it, pushes and flushes in any
    order, started between segments: it sends exactly the frames of its calls,
    in order, under its own number and id; only the last output is final, and
    it is silence made up exactly if a flush has left the end empty-handed.
   */
  lemma SegmentSends(c: Config, evs: seq<Event>, id: string, calls: seq<Call>)
    requires IsConfig(c) && Between(Run(c, evs)) && HasPush(calls)
    ensures var s0, s, madeUp := Run(c, evs), Run(c, evs + SegmentEvents(id, calls)), EndsEmptyHanded(c, calls);
      && Between(s) && s0.dst <= s.dst && |s.durations| == |s0.durations| + 1
      && FramesOf(s.dst) == FramesOf(s0.dst) + SegmentFrames(c, calls) + (if madeUp then [Silence(c)] else [])
      && BelongFrom(s.dst, |s0.dst|, |s0.durations|, id) && FinishedFrom(s.dst, |s0.dst|, madeUp)
  {
    hide Run, Handled, FramesOf, SegmentFrames, BelongFrom, RealFrom, FinalsRight, Starts, FinishedFrom;
    hide Ordered, DurationsRight, IdsRight, ContextRight, EndsEmptyHanded, HasPush, CallFrames, Kept, PushedBytes;
    var filled := evs + [StartSegment(id)] + EventsOf(calls);
    var s0, s1, s := Run(c, evs), Run(c, filled), Run(c, filled + [EndSegment]);
    assert filled + [EndSegment] == evs + SegmentEvents(id, calls);
    RunFills(c, evs, id, calls);
    RunKeeps(c, evs);
    RunKeeps(c, filled);
    RunKeeps(c, filled + [EndSegment]);
    var ids0, ids := Starts(evs)[..|s0.durations|], Starts(filled)[..|s1.durations|];
    EmitRestKeeps(c, s1, ids, PushedBytes(calls));
    hide Inv;
    InvParts(s, Starts(filled + [EndSegment])[..|s.durations|]);
    EndOfFilling(c, s0, s1, id, calls, ids0, ids);
    RunSnoc(c, filled, EndSegment);
    hide Filling;
    OnlyTheLastIsFinal(s.dst, |s0.dst|, |s0.durations|, id, EndsEmptyHanded(c, calls));
  }

  lemma EmitRestKeeps(c: Config, s: State, ids: seq<string>, all: Bytes)
    requires IsConfig(c) && Inv(s, ids) && s.ctx.Some? && s.buf.Some?
    ensures Inv(EmittedAll(s, FlushedFrames(c, Kept(c, all))), ids)
  {
    EmitAllKeeps(s, ids, FlushedFrames(c, Kept(c, all)));
  }

  lemma InvParts(s: State, ids: seq<string>)
    requires Inv(s, ids)
    ensures FinalsRight(s.dst, Open(s))
  {
  }

  /**
    The end of a segment closes it exactly if some bytes were pushed, even
    empty ones. Otherwise it is still open, and starting the next segment raises.
   */
  lemma EndClosesIffPushed(c: Config, evs: seq<Event>, id: string, calls: seq<Call>, next: string)
    requires IsConfig(c) && Between(Run(c, evs))
    ensures var ended := evs + SegmentEvents(id, calls);
      && (Between(Run(c, ended)) <==> HasPush(calls))
      && (Run(c, ended + [StartSegment(next)]).stopped <==> !HasPush(calls))
  {
    var ended, filled := evs + SegmentEvents(id, calls), evs + [StartSegment(id)] + EventsOf(calls);
    RunSnoc(c, ended, StartSegment(next));
    if HasPush(calls) {
      SegmentSends(c, evs, id, calls);
      hide Run, PushedFrames, Kept, CallFrames;
    } else {
      assert ended == filled + [EndSegment];
      RunFills(c, evs, id, calls);
      RunSnoc(c, filled, EndSegment);
      hide Run, PushedFrames, Kept, CallFrames;
    }
  }

  // ------------------------------------------------------------- the bytes

  /**
    The frames of a segment carry its bytes exactly if these are whole samples
    and every flush on the way had nothing to return.
   */
  lemma SegmentConservesIff(c: Config, calls: seq<Call>)
    requires IsConfig(c)
    ensures FrameBytes(c) > 0
    ensures Concat(DataOf(SegmentFrames(c, calls))) == PushedBytes(calls)
      <==> |PushedBytes(calls)| % (2 * c.numChannels) == 0 && QuietFlushes(calls, FrameBytes(c), c.numChannels)
  {
    FrameBytesPositive(c);
    CallFramesData(c, calls);
    ConservedIffFlushesQuiet(calls, FrameBytes(c), c.numChannels);
    var a, b := CallFrames(c, calls), FlushedFrames(c, Kept(c, PushedBytes(calls)));
    assert DataOf(a + b) == DataOf(a) + DataOf(b);
  }

  // --------------------------------------------------------- pushes only

  function Pushes(pieces: seq<Bytes>): (calls: seq<Call>)
    ensures |calls| == |pieces| && forall k :: 0 <= k < |calls| ==> calls[k] == PushCall(pieces[k])
  {
    seq(|pieces|, k requires 0 <= k < |pieces| => PushCall(pieces[k]))
  }

  lemma {:induction false} PushesOnly(c: Config, pieces: seq<Bytes>)
    requires IsConfig(c)
    ensures var calls := Pushes(pieces);
      && PushedBytes(calls) == Concat(pieces) && CallFrames(c, calls) == PushedFrames(c, Concat(pieces))
      && (Holding(c, calls) <==> CallFrames(c, calls) != []) && (HasPush(calls) <==> pieces != [])
      && FrameBytes(c) > 0 && QuietFlushes(calls, FrameBytes(c), c.numChannels)
    decreases |pieces|
  {
    hide CallFrames, PushedBytes, Holding, QuietFlushes, HasPush, Concat, PushedFrames, Chunks, Left, Returned, Kept;
    FrameBytesPositive(c);
    if pieces == [] {
      NoFramesYet(c);
      NoCalls(FrameBytes(c), c.numChannels);
      assert Pushes(pieces) == [] && Concat(pieces) == [] by { NoPieces(); }
    } else {
      var front, last := pieces[..|pieces| - 1], pieces[|pieces| - 1];
      PushesOnly(c, front);
      assert Pushes(pieces) == Pushes(front) + [PushCall(last)] && pieces == front + [last];
      CallFramesSnoc(c, Pushes(front), PushCall(last));
      CallsSnoc(Pushes(front), PushCall(last), FrameBytes(c), c.numChannels);
      ConcatSnoc(front, last);
      PushedResume(c, Concat(front), last);
    }
  }

  lemma NoPieces()
    ensures Concat<Byte>([]) == []
  {
  }

  lemma PushedResume(c: Config, a: Bytes, b: Bytes)
    requires IsConfig(c)
    ensures PushedFrames(c, a + b) == PushedFrames(c, a) + PushedFrames(c, Kept(c, a) + b)
  {
    FrameBytesPositive(c);
    ChunksResume(a, b, FrameBytes(c));
  }

  lemma ChunkCount(bs: Bytes, n: nat)
    requires n > 0
    ensures |Chunks(bs, n)| >= 2 <==> |bs| >= 2 * n
  {
    if |bs| >= n {
      assert |Chunks(bs[n..], n)| > 0 <==> |bs[n..]| >= n;
    }
  }

  /** What `pushed_duration` reports of the last segment started. */
  ghost function PushedDuration(s: State): real {
    if s.durations == [] then 0.0 else s.durations[|s.durations| - 1]
  }

  /**
    With pushes only, the pushed duration of the open segment is positive
    exactly once two full frames of audio were taken from the channel, since
    one is held back: until then a fallback takes it for a segment without audio.
   */
  lemma AudibleFromTwoFrames(c: Config, evs: seq<Event>, id: string, pieces: seq<Bytes>)
    requires IsConfig(c) && Between(Run(c, evs))
    ensures var s := Run(c, evs + [StartSegment(id)] + EventsOf(Pushes(pieces)));
      PushedDuration(s) > 0.0 <==> |Concat(pieces)| >= 2 * FrameBytes(c)
  {
    var calls := Pushes(pieces);
    var filled := evs + [StartSegment(id)] + EventsOf(calls);
    var s0, s := Run(c, evs), Run(c, filled);
    RunFills(c, evs, id, calls);
    RunKeeps(c, evs);
    RunKeeps(c, filled);
    FrameBytesPositive(c);
    ChunkCount(Concat(pieces), FrameBytes(c));
    PushesOnly(c, pieces);
    AudibleOnceSent(c, s0, s, id, calls, Starts(evs)[..|s0.durations|], Starts(filled)[..|s.durations|]);
    hide Run, Inv, CallFrames, PushedBytes, Kept, Starts;
    assert |Held(s)| == if Holding(c, calls) then 1 else 0;
  }

  /**
    Mono audio pushed without streaming comes out byte for byte exactly if it
    is a whole number of samples, in frames of which the last is final.
   */
  lemma NonStreamingMonoConserves(c: Config, pieces: seq<Bytes>)
    requires IsConfig(c) && !c.streaming && c.numChannels == 1
    ensures var s := Run(c, SegmentEvents("", Pushes(pieces)));
      && !s.stopped
      && (Concat(DataOf(FramesOf(s.dst))) == Concat(pieces) <==> |Concat(pieces)| % 2 == 0)
      && FinishedFrom(s.dst, 0, false)
  {
    var calls := Pushes(pieces);
    var evs := SegmentEvents("", calls);
    assert [] + evs == evs;
    PushesOnly(c, pieces);
    SegmentConservesIff(c, calls);
    if pieces == [] {
      assert evs == [StartSegment("")] + [EndSegment];
      RunSnoc(c, [], StartSegment(""));
      RunSnoc(c, [StartSegment("")], EndSegment);
      assert [] + [StartSegment("")] == [StartSegment("")];
    } else {
      SegmentSends(c, [], "", calls);
      hide Run, SegmentFrames, Concat, CallFrames, PushedBytes, Kept, Holding;
      Assoc(FramesOf([]) + SegmentFrames(c, calls), [], []);
      assert FramesOf([]) + SegmentFrames(c, calls) == SegmentFrames(c, calls);
      EmptyRun(c);
    }
  }

  lemma EmptyRun(c: Config)
    ensures Run(c, []) == Initial
  {
  }
}
