/**
  The main task of `AudioEmitter` on raw PCM: a segment at a time, with one
  frame held back so that a segment's last frame can be marked final.
 */
module AudioEmission {
  import opened Wrappers
  import opened Sequences
  import opened Division
  import opened AudioStream

  datatype Event = StartSegment(id: string) | EndSegment | FlushSegment | Data(bytes: Bytes)

  /** `samples` per channel in a full frame. */
  datatype Config = Config(sampleRate: nat, numChannels: nat, samples: nat, streaming: bool)

  datatype Segment = Segment(id: string, audioDuration: real)

  /** What is sent on: the frame, its segment by number and id, and whether it is silence made up at the end. */
  datatype Output = Output(frame: AudioFrame, segment: nat, segmentId: string, isFinal: bool, synthetic: bool)

  /** `buf` is the byte stream's buffer, None when there is no byte stream. */
  datatype State = State(ctx: Option<Segment>, lastFrame: Option<AudioFrame>, buf: Option<Bytes>,
                         durations: seq<real>, dst: seq<Output>, stopped: bool)

  const Initial := State(None, None, None, [], [], false)

  predicate IsConfig(c: Config) {
    c.sampleRate > 0 && c.numChannels > 0 && c.samples > 0
  }

  function FrameBytes(c: Config): nat {
    c.samples * (2 * c.numChannels)
  }

  function Duration(f: AudioFrame): real
    requires f.sampleRate > 0
  {
    f.samplesPerChannel as real / f.sampleRate as real
  }

  predicate Positive(f: AudioFrame) {
    f.sampleRate > 0 && f.samplesPerChannel > 0
  }

  /** Ten milliseconds of silence. */
  function Silence(c: Config): AudioFrame {
    AudioFrame(seq(2 * (c.sampleRate / 100 * c.numChannels), _ => 0), c.sampleRate, c.numChannels, c.sampleRate / 100)
  }

  /** A frame lasts as many seconds as its samples fill at its rate. */
  lemma DurationFillsSamples(f: AudioFrame)
    requires f.sampleRate > 0
    ensures Duration(f) * f.sampleRate as real == f.samplesPerChannel as real
  {
  }

  /**
    The silence has samples for its length, all of them zero, and lasts ten
    milliseconds at rates divisible by a hundred.
   */
  lemma SilenceIsSilent(c: Config)
    requires c.sampleRate > 0
    ensures var f := Silence(c);
      && f.sampleRate == c.sampleRate && f.numChannels == c.numChannels
      && |f.data| == 2 * f.numChannels * f.samplesPerChannel
      && (forall b :: b in f.data ==> b == 0)
      && (Duration(f) == 0.01 <==> c.sampleRate % 100 == 0)
      && 0.0 <= Duration(f) <= 0.01
  {
    DurationFillsSamples(Silence(c));
    hide Duration;
    Hundredth(Duration(Silence(c)), c.sampleRate, c.sampleRate / 100);
    SilentSamples(c.sampleRate / 100, c.numChannels);
  }

  lemma SilentSamples(n: nat, channels: nat)
    ensures 2 * (n * channels) == 2 * channels * n
  {
  }

  lemma Hundredth(d: real, rate: nat, n: nat)
    requires rate > 0 && d * rate as real == n as real && n == rate / 100
    ensures 0.0 <= d <= 0.01 && (d == 0.01 <==> rate % 100 == 0)
  {
    var r := rate as real;
    assert 100.0 * n as real <= r && 0.0 * r == 0.0;
    if d < 0.0 {
      Larger(0.0, d, r);
      assert false;
    }
    if d > 0.01 {
      Larger(d, 0.01, r);
    }
    if d < 0.01 {
      Larger(0.01, d, r);
    }
  }

  lemma Larger(x: real, y: real, r: real)
    requires r > 0.0 && x > y
    ensures x * r > y * r
  {
  }

  // ----------------------------------------------------------------- emitting

  /** Durations can be taken, and an open segment has its entry in the list of durations. */
  predicate Sound(s: State) {
    && (s.lastFrame.Some? ==> Positive(s.lastFrame.value))
    && (s.ctx.Some? ==> s.durations != [])
  }

  /** Send a real frame for the open segment and count it. */
  function Sent(s: State, f: AudioFrame, isFinal: bool): (s': State)
    requires Sound(s) && s.ctx.Some? && Positive(f)
  {
    var last := |s.durations| - 1;
    s.(dst := s.dst + [Output(f, last, s.ctx.value.id, isFinal, false)],
       ctx := Some(s.ctx.value.(audioDuration := s.ctx.value.audioDuration + Duration(f))),
       durations := s.durations[last := s.durations[last] + Duration(f)])
  }

  /** `_emit_frame` of an ordinary frame: the one held back goes out, this one is held back. */
  function Emitted(s: State, f: AudioFrame): (s': State)
    requires Sound(s) && s.ctx.Some?
    ensures s'.ctx.Some? && s'.buf == s.buf && |s'.durations| == |s.durations|
  {
    if s.lastFrame.None? then s.(lastFrame := Some(f))
    else Sent(s, s.lastFrame.value, false).(lastFrame := Some(f))
  }

  function EmittedAll(s: State, fs: seq<AudioFrame>): (s': State)
    requires Sound(s) && s.ctx.Some? && forall f :: f in fs ==> Positive(f)
    ensures Sound(s') && s'.ctx.Some?
    decreases |fs|
  {
    if fs == [] then s else EmittedAll(Emitted(s, fs[0]), fs[1..])
  }

  /** `_emit_frame(is_final=True)`: the held frame, or silence if the segment has had audio, or nothing. */
  function EmittedFinal(s: State, c: Config): State
    requires Sound(s) && s.ctx.Some?
  {
    if s.lastFrame.Some? then Sent(s, s.lastFrame.value, true).(lastFrame := None)
    else if s.ctx.value.audioDuration > 0.0 then
      s.(dst := s.dst + [Output(Silence(c), |s.durations| - 1, s.ctx.value.id, true, true)])
    else s
  }

  /** The segment's end: everything of the segment is dropped. */
  function Ended(s: State, c: Config): State
    requires Sound(s) && s.ctx.Some?
  {
    EmittedFinal(s, c).(ctx := None, buf := None, lastFrame := None)
  }

  /** `_flush_frame`: the held frame goes out, not final. */
  function FlushedFrame(s: State): State
    requires Sound(s) && s.ctx.Some?
  {
    if s.lastFrame.None? then s else Sent(s, s.lastFrame.value, false).(lastFrame := None)
  }

  // --------------------------------------------------------------- the frames

  /** The full frames `push` cuts from some bytes. */
  ghost function PushedFrames(c: Config, bs: Bytes): (fs: seq<AudioFrame>)
    requires IsConfig(c)
    ensures forall f :: f in fs ==> Positive(f)
    ensures DataOf(fs) == Chunks(bs, (FrameBytesPositive(c); FrameBytes(c)))
  {
    FrameBytesPositive(c);
    var cs := Chunks(bs, FrameBytes(c));
    seq(|cs|, k requires 0 <= k < |cs| => AudioFrame(cs[k], c.sampleRate, c.numChannels, c.samples))
  }

  /** The one frame, or none, that `flush` makes of its buffer. */
  ghost function FlushedFrames(c: Config, buf: Bytes): (fs: seq<AudioFrame>)
    requires IsConfig(c)
    ensures forall f :: f in fs ==> Positive(f)
    ensures DataOf(fs) == Flushed(buf, c.numChannels)
  {
    if Flushed(buf, c.numChannels) == [] then []
    else
      AtLeastOneSample(|buf|, 2 * c.numChannels);
      [AudioFrame(buf, c.sampleRate, c.numChannels, |buf| / 2)]
  }

  ghost function Kept(c: Config, bs: Bytes): Bytes
    requires IsConfig(c)
  {
    FrameBytesPositive(c);
    Left(bs, FrameBytes(c))
  }

  lemma FrameBytesPositive(c: Config)
    requires IsConfig(c)
    ensures FrameBytes(c) > 0 && FrameBytes(c) % (2 * c.numChannels) == 0
  {
    MultipleOf(c.samples, 2 * c.numChannels);
  }

  function Buffered(s: State): Bytes {
    if s.buf.Some? then s.buf.value else []
  }

  // --------------------------------------------------------- one event handled

  /** Audio bytes; outside a segment a full frame trips `_emit_frame`'s assertion. */
  ghost function OnData(c: Config, s: State, bytes: Bytes): State
    requires Sound(s)
  {
    if !IsConfig(c) then s.(stopped := true)
    else
      var all := Buffered(s) + bytes;
      var s1 := s.(buf := Some(Kept(c, all)));
      if s.ctx.Some? then EmittedAll(s1, PushedFrames(c, all))
      else if PushedFrames(c, all) == [] then s1
      else s1.(stopped := true)
  }

  ghost function OnFlush(c: Config, s: State): State
    requires Sound(s)
  {
    if s.buf.None? || !IsConfig(c) then s
    else if s.ctx.None? then s.(stopped := true)
    else FlushedFrame(EmittedAll(s, FlushedFrames(c, s.buf.value)))
  }

  ghost function OnEnd(c: Config, s: State): State
    requires Sound(s)
  {
    if s.buf.None? || !IsConfig(c) then s
    else if s.ctx.None? then s.(stopped := true)
    else Ended(EmittedAll(s, FlushedFrames(c, s.buf.value)), c)
  }

  /** One turn of the loop over the write channel; `raised` when the task dies of an exception. */
  ghost function Handled(c: Config, s: State, ev: Event): (s': State)
    requires Sound(s)
    ensures Sound(s')
  {
    if s.stopped then s
    else if ev.StartSegment? then
      if s.ctx.Some? then s.(stopped := true)
      else s.(ctx := Some(Segment(ev.id, 0.0)), durations := s.durations + [0.0])
    else if s.ctx.None? && c.streaming then
      if ev.Data? then s.(stopped := true) else s
    else
      match ev
      case Data(bytes) => OnData(c, s, bytes)
      case FlushSegment => OnFlush(c, s)
      case EndSegment => OnEnd(c, s)
  }

  ghost function Run(c: Config, evs: seq<Event>): (s: State)
    ensures Sound(s)
    decreases |evs|
  {
    if evs == [] then Initial else Handled(c, Run(c, evs[..|evs| - 1]), evs[|evs| - 1])
  }

  // -------------------------------------------------------------- invariants

  /** Recorded length of a segment: the durations of its frames, made-up silence apart. */
  ghost function Total(dst: seq<Output>, j: nat): real
    requires Durable(dst)
    decreases |dst|
  {
    if dst == [] then 0.0
    else
      var o := dst[|dst| - 1];
      Total(dst[..|dst| - 1], j) + (if o.segment == j && !o.synthetic then Duration(o.frame) else 0.0)
  }

  ghost predicate Durable(dst: seq<Output>) {
    forall k :: 0 <= k < |dst| ==> dst[k].synthetic || Positive(dst[k].frame)
  }

  /** Output k is the last of its segment. */
  predicate LastOfSegment(dst: seq<Output>, k: nat)
    requires k < |dst|
  {
    k + 1 == |dst| || dst[k + 1].segment != dst[k].segment
  }

  /** Outputs come segment by segment, within the n segments started. */
  ghost predicate Ordered(dst: seq<Output>, n: nat) {
    && (forall k :: 0 <= k < |dst| ==> dst[k].segment < n)
    && (forall k, l :: 0 <= k < l < |dst| ==> dst[k].segment <= dst[l].segment)
  }

  /** Final means last of a closed segment, and the last of a closed segment is final. */
  ghost predicate FinalsRight(dst: seq<Output>, open: int) {
    forall k :: 0 <= k < |dst| ==> (dst[k].isFinal <==> LastOfSegment(dst, k) && dst[k].segment != open)
  }

  ghost predicate DurationsRight(dst: seq<Output>, durations: seq<real>) {
    Durable(dst) && forall j :: 0 <= j < |durations| ==> durations[j] == Total(dst, j)
  }

  /** Outputs bear the ids their segments were started with. */
  ghost predicate IdsRight(dst: seq<Output>, ids: seq<string>) {
    forall k :: 0 <= k < |dst| ==> dst[k].segment < |ids| && dst[k].segmentId == ids[dst[k].segment]
  }

  /** The number of the open segment, or -1. */
  function Open(s: State): int {
    if s.ctx.Some? then |s.durations| - 1 else -1
  }

  /** The open segment's own record agrees; it has a positive length once anything was sent for it. */
  ghost predicate ContextRight(s: State, ids: seq<string>) {
    && Sound(s) && |ids| == |s.durations|
    && (s.ctx.Some? ==>
          && s.ctx.value.id == ids[Open(s)]
          && s.ctx.value.audioDuration == s.durations[Open(s)] >= 0.0
          && (s.ctx.value.audioDuration > 0.0 <==> s.dst != [] && s.dst[|s.dst| - 1].segment == Open(s)))
    && (s.ctx.None? ==> s.lastFrame.None?)
    && (s.buf.None? ==> s.lastFrame.None?)
  }

  /** `ids` are those of the segments started so far. */
  ghost predicate Inv(s: State, ids: seq<string>) {
    && Ordered(s.dst, |s.durations|)
    && FinalsRight(s.dst, Open(s))
    && DurationsRight(s.dst, s.durations)
    && IdsRight(s.dst, ids)
    && ContextRight(s, ids)
  }

  lemma DurationPositive(f: AudioFrame)
    requires Positive(f)
    ensures Duration(f) > 0.0
  {
  }

  lemma TotalSnoc(dst: seq<Output>, o: Output, j: nat)
    requires Durable(dst) && (o.synthetic || Positive(o.frame))
    ensures Durable(dst + [o])
    ensures Total(dst + [o], j) == Total(dst, j) + if o.segment == j && !o.synthetic then Duration(o.frame) else 0.0
  {
    assert (dst + [o])[..|dst|] == dst;
  }

  lemma {:induction false} NothingYet(dst: seq<Output>, j: nat)
    requires Durable(dst) && Ordered(dst, j)
    ensures Total(dst, j) == 0.0
    decreases |dst|
  {
    if dst != [] {
      assert dst[|dst| - 1].segment < j;
      NothingYet(dst[..|dst| - 1], j);
    }
  }

  lemma OrderedSnoc(dst: seq<Output>, o: Output, n: nat)
    requires Ordered(dst, n) && o.segment + 1 == n
    ensures Ordered(dst + [o], n)
  {
  }

  /** Another output for the open segment, not final. */
  lemma FinalsGoOn(dst: seq<Output>, o: Output, n: nat)
    requires Ordered(dst, n) && FinalsRight(dst, n - 1) && o.segment + 1 == n && !o.isFinal
    ensures FinalsRight(dst + [o], n - 1)
  {
    var dst' := dst + [o];
    forall k | 0 <= k < |dst'|
      ensures dst'[k].isFinal <==> LastOfSegment(dst', k) && dst'[k].segment != n - 1
    {
      if k < |dst| {
        assert dst'[k] == dst[k];
        assert dst[k].isFinal <==> LastOfSegment(dst, k) && dst[k].segment != n - 1;
      }
    }
  }

  /** A final output, and the segment is closed. */
  lemma FinalsClose(dst: seq<Output>, o: Output, n: nat)
    requires Ordered(dst, n) && FinalsRight(dst, n - 1) && o.segment + 1 == n && o.isFinal
    ensures FinalsRight(dst + [o], -1)
  {
    var dst' := dst + [o];
    forall k | 0 <= k < |dst'|
      ensures dst'[k].isFinal <==> LastOfSegment(dst', k)
    {
      if k < |dst| {
        assert dst'[k] == dst[k];
        assert dst[k].isFinal <==> LastOfSegment(dst, k) && dst[k].segment != n - 1;
        assert k + 1 < |dst| ==> dst[k].segment <= dst[k + 1].segment < n;
      }
    }
  }

  /** A segment without output can be opened or closed without a final. */
  lemma FinalsUntouched(dst: seq<Output>, open: int, open': int)
    requires FinalsRight(dst, open)
    requires forall k :: 0 <= k < |dst| ==> dst[k].segment != open && dst[k].segment != open'
    ensures FinalsRight(dst, open')
  {
  }

  lemma DurationsSnoc(dst: seq<Output>, durations: seq<real>, o: Output)
    requires DurationsRight(dst, durations) && o.segment < |durations| && (o.synthetic || Positive(o.frame))
    ensures DurationsRight(dst + [o], if o.synthetic then durations else
      durations[o.segment := durations[o.segment] + Duration(o.frame)])
  {
    hide Total;
    TotalSnoc(dst, o, 0);
    forall j | 0 <= j < |durations|
      ensures Total(dst + [o], j) == Total(dst, j) + if o.segment == j && !o.synthetic then Duration(o.frame) else 0.0
    {
      TotalSnoc(dst, o, j);
    }
  }

  // --------------------------------------------------- the steps keep them

  /** A frame sent, not final. */
  lemma SendKeeps(s: State, ids: seq<string>, f: AudioFrame)
    requires Inv(s, ids) && s.ctx.Some? && Positive(f)
    ensures Inv(Sent(s, f, false), ids)
  {
    hide Ordered, FinalsRight, DurationsRight, Duration;
    var o := Output(f, Open(s), s.ctx.value.id, false, false);
    DurationPositive(f);
    OrderedSnoc(s.dst, o, |s.durations|);
    FinalsGoOn(s.dst, o, |s.durations|);
    DurationsSnoc(s.dst, s.durations, o);
  }

  lemma EmitKeeps(s: State, ids: seq<string>, f: AudioFrame)
    requires Inv(s, ids) && s.ctx.Some? && s.buf.Some? && Positive(f)
    ensures Inv(Emitted(s, f), ids) && Emitted(s, f).buf == s.buf
  {
    hide Ordered, FinalsRight, DurationsRight, IdsRight, Duration;
    if s.lastFrame.Some? {
      SendKeeps(s, ids, s.lastFrame.value);
    }
  }

  lemma {:induction false} EmitAllKeeps(s: State, ids: seq<string>, fs: seq<AudioFrame>)
    requires Inv(s, ids) && s.ctx.Some? && s.buf.Some? && forall f :: f in fs ==> Positive(f)
    ensures Inv(EmittedAll(s, fs), ids) && EmittedAll(s, fs).buf == s.buf
    decreases |fs|
  {
    hide Ordered, FinalsRight, DurationsRight, IdsRight, Duration;
    if fs != [] {
      EmitKeeps(s, ids, fs[0]);
      EmitAllKeeps(Emitted(s, fs[0]), ids, fs[1..]);
    }
  }

  lemma FlushKeeps(s: State, ids: seq<string>)
    requires Inv(s, ids) && s.ctx.Some?
    ensures Inv(FlushedFrame(s), ids)
  {
    hide Ordered, FinalsRight, DurationsRight, IdsRight, Duration;
    if s.lastFrame.Some? {
      SendKeeps(s, ids, s.lastFrame.value);
    }
  }

  lemma EndKeeps(s: State, ids: seq<string>, c: Config)
    requires Inv(s, ids) && s.ctx.Some?
    ensures Inv(Ended(s, c), ids)
  {
    hide DurationsRight, Duration;
    var n := |s.durations|;
    var real' := s.lastFrame.Some?;
    var o := Output(if real' then s.lastFrame.value else Silence(c), n - 1, s.ctx.value.id, true, !real');
    if real' || s.ctx.value.audioDuration > 0.0 {
      hide Ordered, FinalsRight;
      OrderedSnoc(s.dst, o, n);
      FinalsClose(s.dst, o, n);
      DurationsSnoc(s.dst, s.durations, o);
    } else {
      FinalsUntouched(s.dst, n - 1, -1);
    }
  }

  /** The ids of the segments started by some events, as long as nothing has stopped. */
  function Starts(evs: seq<Event>): seq<string>
    decreases |evs|
  {
    if evs == [] then []
    else
      Starts(evs[..|evs| - 1]) + if evs[|evs| - 1].StartSegment? then [evs[|evs| - 1].id] else []
  }

  lemma StartKeeps(s: State, ids: seq<string>, id: string)
    requires Inv(s, ids) && s.ctx.None?
    ensures Inv(s.(ctx := Some(Segment(id, 0.0)), durations := s.durations + [0.0]), ids + [id])
  {
    hide Total, Durable;
    NothingYet(s.dst, |s.durations|);
    FinalsUntouched(s.dst, -1, |s.durations|);
  }

  lemma BufferKeeps(s: State, ids: seq<string>, buf: Bytes)
    requires Inv(s, ids)
    ensures Inv(s.(buf := Some(buf)), ids)
  {
  }

  lemma HandleKeeps(c: Config, s: State, ids: seq<string>, ev: Event)
    requires Inv(s, ids)
    ensures Inv(Handled(c, s, ev), if ev.StartSegment? && !Handled(c, s, ev).stopped then ids + [ev.id] else ids)
  {
    hide Ordered, FinalsRight, DurationsRight, IdsRight, Duration, EmittedAll, PushedFrames, FlushedFrames, Kept;
    if s.stopped {
    } else if ev.StartSegment? && s.ctx.None? {
      StartKeeps(s, ids, ev.id);
    } else if !IsConfig(c) {
    } else if ev.Data? && s.ctx.Some? {
      var all := Buffered(s) + ev.bytes;
      BufferKeeps(s, ids, Kept(c, all));
      EmitAllKeeps(s.(buf := Some(Kept(c, all))), ids, PushedFrames(c, all));
    } else if s.ctx.Some? && s.buf.Some? && !ev.StartSegment? {
      var fs := FlushedFrames(c, s.buf.value);
      EmitAllKeeps(s, ids, fs);
      FlushKeeps(EmittedAll(s, fs), ids);
      EndKeeps(EmittedAll(s, fs), ids, c);
    }
  }

  // ------------------------------------------------------------ over all runs

  /** Every run keeps the invariants; a run that has not stopped has started every segment asked for. */
  lemma {:induction false} RunKeeps(c: Config, evs: seq<Event>)
    ensures var s := Run(c, evs);
      && |s.durations| <= |Starts(evs)| && (!s.stopped ==> |s.durations| == |Starts(evs)|)
      && Inv(s, Starts(evs)[..|s.durations|])
    decreases |evs|
  {
    if evs != [] {
      var before, ev := evs[..|evs| - 1], evs[|evs| - 1];
      var s := Run(c, before);
      RunKeeps(c, before);
      HandleKeeps(c, s, Starts(before)[..|s.durations|], ev);
      HandleStarts(c, s, ev);
    }
  }

  /**
    The main task of a streaming emitter stops exactly at a start inside an open
    segment and at audio outside any; other events outside a segment are ignored.
   */
  lemma StopsIff(c: Config, s: State, ev: Event)
    requires IsConfig(c) && c.streaming && Sound(s) && !s.stopped
    ensures Handled(c, s, ev).stopped <==>
      (ev.StartSegment? && s.ctx.Some?) || (ev.Data? && s.ctx.None?)
    ensures s.ctx.None? && (ev.EndSegment? || ev.FlushSegment?) ==> Handled(c, s, ev) == s
  {
    hide PushedFrames, FlushedFrames, Sent;
    if s.ctx.Some? && !ev.StartSegment? {
      NeverStopsInside(c, s, ev);
    }
  }

  lemma NeverStopsInside(c: Config, s: State, ev: Event)
    requires IsConfig(c) && Sound(s) && !s.stopped && s.ctx.Some? && !ev.StartSegment?
    ensures !Handled(c, s, ev).stopped
  {
    match ev
    case Data(bytes) =>
      EmittingGoesOn(s.(buf := Some(Kept(c, Buffered(s) + bytes))), PushedFrames(c, Buffered(s) + bytes));
    case FlushSegment =>
      if s.buf.Some? { EmittingGoesOn(s, FlushedFrames(c, s.buf.value)); }
    case EndSegment =>
      if s.buf.Some? { EmittingGoesOn(s, FlushedFrames(c, s.buf.value)); }
  }

  lemma {:induction false} EmittingGoesOn(s: State, fs: seq<AudioFrame>)
    requires Sound(s) && s.ctx.Some? && forall f :: f in fs ==> Positive(f)
    ensures EmittedAll(s, fs).stopped == s.stopped
    decreases |fs|
  {
    if fs != [] {
      EmittingGoesOn(Emitted(s, fs[0]), fs[1..]);
    }
  }

  /** A start that does not raise adds a segment; nothing else does. */
  lemma HandleStarts(c: Config, s: State, ev: Event)
    requires Sound(s)
    ensures var s' := Handled(c, s, ev);
      && |s'.durations| == |s.durations| + (if ev.StartSegment? && !s'.stopped then 1 else 0)
      && (s.stopped ==> s' == s)
  {
    hide EmittedAll, PushedFrames, FlushedFrames, Kept, Duration;
    if IsConfig(c) && s.ctx.Some? && ev.Data? {
      SameSegments(s.(buf := Some(Kept(c, Buffered(s) + ev.bytes))), PushedFrames(c, Buffered(s) + ev.bytes));
    } else if IsConfig(c) && s.ctx.Some? && s.buf.Some? {
      SameSegments(s, FlushedFrames(c, s.buf.value));
    }
  }

  lemma {:induction false} SameSegments(s: State, fs: seq<AudioFrame>)
    requires Sound(s) && s.ctx.Some? && forall f :: f in fs ==> Positive(f)
    ensures |EmittedAll(s, fs).durations| == |s.durations| && EmittedAll(s, fs).stopped == s.stopped
    ensures EmittedAll(s, fs).buf == s.buf
    decreases |fs|
  {
    if fs != [] {
      SameSegments(Emitted(s, fs[0]), fs[1..]);
    }
  }

  ghost function Finals(s: State, j: nat): set<nat> {
    set k | 0 <= k < |s.dst| && s.dst[k].segment == j && s.dst[k].isFinal
  }

  function LastIndex(dst: seq<Output>, k: nat): (l: nat)
    requires k < |dst|
    ensures k <= l < |dst| && dst[l].segment == dst[k].segment && LastOfSegment(dst, l)
    decreases |dst| - k
  {
    if LastOfSegment(dst, k) then k else LastIndex(dst, k + 1)
  }

  /** After output l come only outputs of later segments. */
  predicate LaterAfter(dst: seq<Output>, l: nat)
    requires l < |dst|
  {
    forall m :: l < m < |dst| ==> dst[m].segment > dst[l].segment
  }

  /**
    In every run a closed segment that has any output has exactly one final
    one, its last; the open segment has none.
   */
  lemma OneFinalPerSegment(c: Config, evs: seq<Event>, k: nat)
    requires k < |Run(c, evs).dst|
    ensures var s, j := Run(c, evs), Run(c, evs).dst[k].segment;
      if j == Open(s) then Finals(s, j) == {}
      else exists l: nat :: l < |s.dst| && Finals(s, j) == {l} && s.dst[l].segment == j && LaterAfter(s.dst, l)
  {
    RunKeeps(c, evs);
    hide DurationsRight, IdsRight, ContextRight, Run, Starts;
    var s, j := Run(c, evs), Run(c, evs).dst[k].segment;
    assert Ordered(s.dst, |s.durations|) && FinalsRight(s.dst, Open(s));
    if j != Open(s) {
      var l := LastIndex(s.dst, k);
      AfterTheLast(s.dst, |s.durations|, l);
      assert s.dst[l].isFinal;
      forall m: nat | m in Finals(s, j)
        ensures m == l
      {
        AfterTheLast(s.dst, |s.durations|, m);
      }
      assert Finals(s, j) == {l};
    }
  }

  lemma AfterTheLast(dst: seq<Output>, n: nat, l: nat)
    requires l < |dst| && Ordered(dst, n) && LastOfSegment(dst, l)
    ensures LaterAfter(dst, l)
  {
  }

  /**
    In every run each output belongs to a started segment and bears its id,
    and each segment's recorded duration is that of its own frames, made-up silence apart.
   */
  lemma OutputsBelongToSegments(c: Config, evs: seq<Event>)
    ensures var s := Run(c, evs);
      && Durable(s.dst)
      && (forall o :: o in s.dst ==>
            o.segment < |s.durations| <= |Starts(evs)| && o.segmentId == Starts(evs)[o.segment])
      && (forall j :: 0 <= j < |s.durations| ==> s.durations[j] == Total(s.dst, j))
  {
    RunKeeps(c, evs);
    hide Total, Ordered, FinalsRight, Run, Starts;
  }

  /** From output k on everything is for one segment. */
  predicate BelongFrom(dst: seq<Output>, k: nat, segment: int, id: string) {
    forall l :: k <= l < |dst| ==> dst[l].segment == segment && dst[l].segmentId == id
  }

  /** Nothing already sent is changed, and whatever an event sends is for the segment open before it. */
  lemma SendsForTheOpenSegment(c: Config, s: State, ev: Event)
    requires Sound(s)
    ensures var s' := Handled(c, s, ev);
      && s.dst <= s'.dst
      && (s.ctx.None? ==> s'.dst == s.dst)
      && (s.ctx.Some? ==> BelongFrom(s'.dst, |s.dst|, Open(s), s.ctx.value.id))
  {
    hide EmittedAll, PushedFrames, FlushedFrames, Kept, Duration, Silence;
    if IsConfig(c) && s.ctx.Some? && ev.Data? {
      EmitsForTheOpenSegment(s.(buf := Some(Kept(c, Buffered(s) + ev.bytes))), PushedFrames(c, Buffered(s) + ev.bytes));
    } else if IsConfig(c) && s.ctx.Some? && s.buf.Some? {
      EmitsForTheOpenSegment(s, FlushedFrames(c, s.buf.value));
    }
  }

  lemma {:induction false} EmitsForTheOpenSegment(s: State, fs: seq<AudioFrame>)
    requires Sound(s) && s.ctx.Some? && forall f :: f in fs ==> Positive(f)
    ensures var s' := EmittedAll(s, fs);
      && s.dst <= s'.dst && |s'.durations| == |s.durations| && s'.ctx.value.id == s.ctx.value.id
      && BelongFrom(s'.dst, |s.dst|, Open(s), s.ctx.value.id)
    decreases |fs|
  {
    if fs != [] {
      EmitsForTheOpenSegment(Emitted(s, fs[0]), fs[1..]);
    }
  }

  lemma RunSnoc(c: Config, evs: seq<Event>, ev: Event)
    ensures Run(c, evs + [ev]) == Handled(c, Run(c, evs), ev)
  {
    assert (evs + [ev])[..|evs|] == evs;
  }
}
