/**
  The `AudioEmitter` object: the calls that fill its write channel, and its
  main task, which turns the channel into frames as `AudioEmission` says.
 */
module AudioEmitters {
  import opened Wrappers
  import opened Sequences
  import opened Division
  import opened AudioStream
  import opened AudioEmission
  import opened AudioSegments

  class AudioEmitter {
    var started: bool
    var config: Config
    var writeCh: seq<Event>
    var closed: bool
    var numSegments: nat
    var audioDurations: seq<real>
    var dst: seq<Output>

    // Locals of the main task.
    var segmentCtx: Option<Segment>
    var lastFrame: Option<AudioFrame>
    var byteStream: AudioByteStream?
    var stopped: bool

    /** What has been taken from the channel, and the audio pushed into it. */
    ghost var taken: seq<Event>
    ghost var pieces: seq<Bytes>

    ghost function Streams(): set<object>
      reads this`byteStream
    {
      if byteStream == null then {} else {byteStream}
    }

    ghost function Abs(): State
      reads this, Streams()
    {
      State(segmentCtx, lastFrame, if byteStream == null then None else Some(byteStream.buf), audioDurations, dst,
            stopped)
    }

    /** Everything ever sent into the channel. */
    ghost function Channel(): seq<Event>
      reads this
    {
      taken + writeCh
    }

    /** The byte stream cuts the frames this emitter asks for. */
    ghost predicate Streaming()
      reads this, Streams()
    {
      && (FrameBytes(config) > 0 ==> IsConfig(config)) && Sound(Abs())
      && (byteStream != null ==>
            && IsConfig(config) && byteStream.Valid()
            && byteStream.sampleRate == config.sampleRate && byteStream.numChannels == config.numChannels
            && byteStream.bytesPerFrame == FrameBytes(config))
    }

    /** Without streaming the channel holds one segment: its start, audio, and an end once closed. */
    ghost predicate Valid()
      reads this, Streams()
    {
      && (!started ==> taken == [] && writeCh == [] && !closed && pieces == [] && numSegments == 0
                       && Abs() == Initial && byteStream == null)
      && (started ==>
            && Streaming()
            && Abs() == Run(config, taken)
            && numSegments == |Starts(Channel())|
            && (!config.streaming ==>
                  Channel() == if closed then SegmentEvents("", Pushes(pieces))
                               else [StartSegment("")] + EventsOf(Pushes(pieces))))
    }

    constructor ()
      ensures Valid() && !started
    {
      started, closed, stopped, numSegments := false, false, false, 0;
      writeCh, audioDurations, dst := [], [], [];
      segmentCtx, lastFrame, byteStream := None, None, null;
      taken, pieces := [], [];
    }

    // -------------------------------------------------------------- its calls

    /** `initialize`; a second call raises. Without streaming the one segment is started at once. */
    method Initialize(sampleRate: nat, numChannels: nat, frameSizeMs: nat, stream: bool) returns (ok: bool)
      requires Valid()
      modifies this
      ensures Valid() && started && ok == !old(started)
      ensures !ok ==> Channel() == old(Channel()) && config == old(config) && Abs() == old(Abs())
      ensures ok ==> config == Config(sampleRate, numChannels, sampleRate / 1000 * frameSizeMs, stream)
      ensures ok ==> !closed && Channel() == if stream then [] else [StartSegment("")]
    {
      hide Starts, Run;
      if started {
        return false;
      }
      SomeRate(sampleRate, numChannels, frameSizeMs, stream);
      started := true;
      config := Config(sampleRate, numChannels, sampleRate / 1000 * frameSizeMs, stream);
      NothingTaken(config);
      if !stream {
        Send(StartSegment(""));
      }
      assert [StartSegment("")] + EventsOf(Pushes([])) == [StartSegment("")];
      return true;
    }

    lemma NothingTaken(c: Config)
      ensures Run(c, []) == Initial && Starts([]) == []
    {
    }

    /** Frames with bytes have a rate and channels. */
    lemma SomeRate(sampleRate: nat, numChannels: nat, frameSizeMs: nat, stream: bool)
      ensures var c := Config(sampleRate, numChannels, sampleRate / 1000 * frameSizeMs, stream);
        FrameBytes(c) > 0 <==> IsConfig(c)
    {
      var c := Config(sampleRate, numChannels, sampleRate / 1000 * frameSizeMs, stream);
      if c.samples > 0 && numChannels > 0 {
        MultipleOf(c.samples, 2 * numChannels);
        assert sampleRate / 1000 > 0;
      }
    }

    /** `pushed_duration()`: what was recorded for the last segment started. */
    method LastDuration() returns (duration: real)
      ensures duration == PushedDuration(Abs())
    {
      duration := if audioDurations == [] then 0.0 else audioDurations[|audioDurations| - 1];
    }

    /** Append to the channel, counting the segments started. */
    method Send(ev: Event)
      modifies this`writeCh, this`numSegments
      ensures writeCh == old(writeCh) + [ev] && Channel() == old(Channel()) + [ev]
      ensures numSegments == old(numSegments) + if ev.StartSegment? then 1 else 0
      ensures Starts(Channel()) == old(Starts(Channel())) + if ev.StartSegment? then [ev.id] else []
    {
      if ev.StartSegment? {
        numSegments := numSegments + 1;
      }
      writeCh := writeCh + [ev];
      assert Channel() == old(Channel()) + [ev];
      assert Channel()[..|Channel()| - 1] == old(Channel());
    }

    /** `start_segment` and `end_segment` raise unless streaming, and do nothing once the channel is closed. */
    method Delimit(ev: Event) returns (ok: bool)
      requires Valid() && (ev.StartSegment? || ev.EndSegment?)
      modifies this`writeCh, this`numSegments
      ensures Valid() && ok == (started && config.streaming)
      ensures Channel() == old(Channel()) + if ok && !closed then [ev] else []
    {
      ok := started && config.streaming;
      if ok && !closed {
        Send(ev);
      }
    }

    /** `push`. */
    method Push(data: Bytes) returns (ok: bool)
      requires Valid()
      modifies this`writeCh, this`numSegments, this`pieces
      ensures Valid() && ok == started
      ensures Channel() == old(Channel()) + if ok && !closed then [Data(data)] else []
      ensures pieces == old(pieces) + if ok && !closed then [data] else []
    {
      hide Starts, Run, Sound, FrameBytes;
      ok := started;
      if ok && !closed {
        Send(Data(data));
        pieces := pieces + [data];
        assert [StartSegment("")] + EventsOf(Pushes(pieces))
            == [StartSegment("")] + EventsOf(Pushes(old(pieces))) + [Data(data)];
      }
    }

    /** `end_input`: end the segment and close the channel, once. */
    method EndInput() returns (ok: bool)
      requires Valid()
      modifies this`writeCh, this`numSegments, this`closed
      ensures Valid() && ok == started && closed == (old(closed) || ok)
      ensures Channel() == old(Channel()) + if ok && !old(closed) then [EndSegment] else []
    {
      hide Starts, Run, Sound, FrameBytes, EventsOf;
      ok := started;
      if ok && !closed {
        Send(EndSegment);
        closed := true;
      }
    }

    /** `flush`: an event of its own when streaming, the end of the input otherwise. */
    method Flush() returns (ok: bool)
      requires Valid()
      modifies this`writeCh, this`numSegments, this`closed
      ensures Valid() && ok == started && closed == (old(closed) || (ok && !config.streaming))
      ensures Channel() == old(Channel()) +
        if !ok || old(closed) then [] else if config.streaming then [FlushSegment] else [EndSegment]
    {
      hide Starts, Run, Sound, FrameBytes, EventsOf, Handled;
      ok := started;
      if ok && !closed {
        if config.streaming {
          Send(FlushSegment);
        } else {
          var _ := EndInput();
        }
      }
    }

    // ------------------------------------------------------------ the main task

    method SendFrame(f: AudioFrame, isFinal: bool)
      requires Sound(Abs()) && segmentCtx.Some? && Positive(f)
      modifies this`dst, this`segmentCtx, this`audioDurations
      ensures Abs() == Sent(old(Abs()), f, isFinal)
    {
      var last := |audioDurations| - 1;
      dst := dst + [Output(f, last, segmentCtx.value.id, isFinal, false)];
      segmentCtx := Some(segmentCtx.value.(audioDuration := segmentCtx.value.audioDuration + Duration(f)));
      audioDurations := audioDurations[last := audioDurations[last] + Duration(f)];
    }

    /** `_emit_frame(frame)`. */
    method EmitFrame(f: AudioFrame)
      requires Sound(Abs()) && segmentCtx.Some? && Positive(f)
      modifies this`dst, this`segmentCtx, this`audioDurations, this`lastFrame
      ensures Abs() == Emitted(old(Abs()), f)
    {
      if lastFrame.Some? {
        SendFrame(lastFrame.value, false);
      }
      lastFrame := Some(f);
    }

    /** The loop `for f in frames: _emit_frame(f)`. */
    method EmitFrames(fs: seq<AudioFrame>)
      requires Sound(Abs()) && segmentCtx.Some? && forall f :: f in fs ==> Positive(f)
      modifies this`dst, this`segmentCtx, this`audioDurations, this`lastFrame
      ensures Abs() == EmittedAll(old(Abs()), fs)
    {
      ghost var target := EmittedAll(Abs(), fs);
      for i := 0 to |fs|
        invariant Sound(Abs()) && segmentCtx.Some? && byteStream == old(byteStream)
        invariant EmittedAll(Abs(), fs[i..]) == target
      {
        EmitFrame(fs[i]);
        assert fs[i..][0] == fs[i] && fs[i..][1..] == fs[i + 1..];
      }
      assert fs[|fs|..] == [];
    }

    /** `_emit_frame(is_final=True)`. */
    method EmitFinal()
      requires Sound(Abs()) && segmentCtx.Some? && config.sampleRate > 0
      modifies this`dst, this`segmentCtx, this`audioDurations, this`lastFrame
      ensures Abs() == EmittedFinal(old(Abs()), config)
    {
      if lastFrame.Some? {
        SendFrame(lastFrame.value, true);
        lastFrame := None;
      } else if segmentCtx.value.audioDuration > 0.0 {
        dst := dst + [Output(Silence(config), |audioDurations| - 1, segmentCtx.value.id, true, true)];
      }
    }

    /** `_flush_frame`. */
    method FlushFrame()
      requires Sound(Abs()) && segmentCtx.Some?
      modifies this`dst, this`segmentCtx, this`audioDurations, this`lastFrame
      ensures Abs() == FlushedFrame(old(Abs()))
    {
      if lastFrame.Some? {
        SendFrame(lastFrame.value, false);
        lastFrame := None;
      }
    }

    /** Push into the byte stream, made on the first bytes. */
    method Cut(data: Bytes) returns (frames: seq<AudioFrame>)
      requires Streaming() && IsConfig(config)
      modifies this`byteStream, Streams()
      ensures Streaming() && fresh(Streams() - old(Streams()))
      ensures frames == PushedFrames(config, Buffered(old(Abs())) + data)
      ensures Abs() == old(Abs()).(buf := Some(Kept(config, Buffered(old(Abs())) + data)))
    {
      FrameBytesPositive(config);
      if byteStream == null {
        byteStream := new AudioByteStream(config.sampleRate, config.numChannels, config.samples);
      }
      ghost var all := byteStream.buf + data;
      frames := byteStream.Push(data);
      SameFrames(byteStream, config, frames, all);
    }

    /** `flush` of the byte stream. */
    method CutRest() returns (frames: seq<AudioFrame>)
      requires Streaming() && byteStream != null
      ensures frames == FlushedFrames(config, byteStream.buf)
    {
      frames := byteStream.Flush();
      SameFlushed(config, frames, byteStream.buf);
    }

    /** One turn of the loop: take the next event and handle it. */
    method HandleNext()
      requires Valid() && writeCh != [] && !stopped
      modifies this, Streams()
      ensures Valid() && fresh(Streams() - old(Streams()))
      ensures taken == old(taken) + [old(writeCh)[0]] && writeCh == old(writeCh)[1..] && Channel() == old(Channel())
      ensures Abs() == Handled(config, old(Abs()), old(writeCh)[0])
      ensures started == old(started) && config == old(config) && closed == old(closed) && pieces == old(pieces)
    {
      hide Run, Handled, Starts, EventsOf, FrameBytes, IsConfig, Sound;
      var ev := writeCh[0];
      ghost var before := taken;
      Turn(ev);
      taken, writeCh := taken + [ev], writeCh[1..];
      assert taken + writeCh == old(taken + writeCh);
      RunSnoc(config, before, ev);
    }

    /** The body of the loop. */
    method Turn(ev: Event)
      requires Streaming() && !stopped
      modifies this`dst, this`segmentCtx, this`audioDurations, this`lastFrame, this`byteStream, this`stopped, Streams()
      ensures Streaming() && fresh(Streams() - old(Streams()))
      ensures Abs() == Handled(config, old(Abs()), ev)
    {
      if ev.StartSegment? {
        if segmentCtx.Some? {
          stopped := true;
        } else {
          audioDurations := audioDurations + [0.0];
          segmentCtx := Some(Segment(ev.id, 0.0));
        }
        return;
      }
      if segmentCtx.None? && config.streaming {
        stopped := ev.Data?;
        return;
      }
      match ev
      case Data(bytes) =>
        HandleData(bytes);
      case FlushSegment =>
        HandleFlush();
      case EndSegment =>
        HandleEnd();
    }

    method HandleData(bytes: Bytes)
      requires Streaming() && !stopped
      modifies this`dst, this`segmentCtx, this`audioDurations, this`lastFrame, this`byteStream, this`stopped, Streams()
      ensures Streaming() && fresh(Streams() - old(Streams()))
      ensures Abs() == OnData(config, old(Abs()), bytes)
    {
      if config.numChannels == 0 || config.samples == 0 {
        // `push` never returns.
        stopped := true;
        return;
      }
      HasBytes(config);
      var frames := Cut(bytes);
      if segmentCtx.Some? {
        EmitFrames(frames);
      } else if frames != [] {
        stopped := true;
      }
    }

    lemma HasBytes(c: Config)
      requires c.numChannels > 0 && c.samples > 0
      ensures FrameBytes(c) > 0
    {
      MultipleOf(c.samples, 2 * c.numChannels);
    }

    method HandleFlush()
      requires Streaming() && !stopped
      modifies this`dst, this`segmentCtx, this`audioDurations, this`lastFrame, this`stopped
      ensures Streaming()
      ensures Abs() == OnFlush(config, old(Abs()))
    {
      if byteStream == null {
      } else if segmentCtx.None? {
        stopped := true;
      } else {
        var frames := CutRest();
        EmitFrames(frames);
        FlushFrame();
      }
    }

    method HandleEnd()
      requires Streaming() && !stopped
      modifies this`dst, this`segmentCtx, this`audioDurations, this`lastFrame, this`byteStream, this`stopped
      ensures Streaming() && (byteStream == null || byteStream == old(byteStream))
      ensures Abs() == OnEnd(config, old(Abs()))
    {
      if byteStream == null {
      } else if segmentCtx.None? {
        stopped := true;
      } else {
        var frames := CutRest();
        EmitFrames(frames);
        EmitFinal();
        segmentCtx, byteStream, lastFrame := None, null, None;
      }
    }

    /** `join`: the task runs until the channel is empty or it raises; what it sent is a function of the events. */
    method Join() returns (ok: bool)
      requires Valid() && started
      modifies this, Streams()
      ensures Valid() && started && config == old(config) && closed == old(closed) && pieces == old(pieces)
      ensures Channel() == old(Channel()) && Abs() == Run(config, Channel()) && ok == !stopped
    {
      while writeCh != [] && !stopped
        invariant Valid() && started && config == old(config) && closed == old(closed) && pieces == old(pieces)
        invariant Channel() == old(Channel()) && fresh(Streams() - old(Streams()))
        decreases |writeCh|
      {
        HandleNext();
      }
      ok := !stopped;
      if stopped {
        RaisedForGood(config, taken, writeCh);
      } else {
        assert Channel() == taken;
      }
    }
  }

  /** Once the task has stopped, later events change nothing. */
  lemma {:induction false} RaisedForGood(c: Config, evs: seq<Event>, more: seq<Event>)
    requires Run(c, evs).stopped
    ensures Run(c, evs + more) == Run(c, evs)
    decreases |more|
  {
    if more == [] {
      assert evs + more == evs;
    } else {
      var front := more[..|more| - 1];
      RaisedForGood(c, evs, front);
      RunSnoc(c, evs + front, more[|more| - 1]);
      assert evs + front + [more[|more| - 1]] == evs + more;
    }
  }

  /** Frames of a well-set byte stream are the ones the emitter's events stand for. */
  lemma SameFrames(stream: AudioByteStream, c: Config, frames: seq<AudioFrame>, bs: Bytes)
    requires IsConfig(c) && stream.Valid() && stream.sampleRate == c.sampleRate && stream.numChannels == c.numChannels
    requires stream.bytesPerFrame == FrameBytes(c) && DataOf(frames) == Chunks(bs, FrameBytes(c))
    requires forall f :: f in frames ==> stream.Consistent(f)
    ensures frames == PushedFrames(c, bs)
  {
    ChunksMean(bs, FrameBytes(c));
    var n := FrameBytes(c);
    hide Chunks, Left, Concat, FrameBytes;
    forall k | 0 <= k < |frames|
      ensures frames[k] == AudioFrame(Chunks(bs, n)[k], c.sampleRate, c.numChannels, c.samples)
    {
      assert frames[k].data == Chunks(bs, n)[k] && frames[k] in frames;
      SameFrame(c, frames[k]);
    }
  }

  lemma SameFrame(c: Config, f: AudioFrame)
    requires c.numChannels > 0 && f.sampleRate == c.sampleRate && f.numChannels == c.numChannels
    requires f.samplesPerChannel * (2 * f.numChannels) == |f.data| == FrameBytes(c)
    ensures f == AudioFrame(f.data, c.sampleRate, c.numChannels, c.samples)
  {
    UniqueQuotient(2 * c.numChannels, f.samplesPerChannel, 0, c.samples, 0);
  }

  lemma SameFlushed(c: Config, frames: seq<AudioFrame>, buf: Bytes)
    requires IsConfig(c) && DataOf(frames) == Flushed(buf, c.numChannels)
    requires forall f :: f in frames ==> f == AudioFrame(buf, c.sampleRate, c.numChannels, |buf| / 2)
    ensures frames == FlushedFrames(c, buf)
  {
    assert |frames| == |DataOf(frames)| == |FlushedFrames(c, buf)|;
    if frames != [] {
      assert frames == [frames[0]] && frames[0] in frames;
    } else {
      assert FlushedFrames(c, buf) == [];
    }
  }

  /**
    A mono emitter that is not streaming, once its input has ended: what it
    sends is exactly the audio pushed if that is whole samples, the last frame final.
   */
  method SendAll(emitter: AudioEmitter) returns (ok: bool)
    requires emitter.Valid() && emitter.started && !emitter.config.streaming && emitter.config.numChannels == 1
    requires IsConfig(emitter.config)
    modifies emitter, emitter.Streams()
    ensures ok && emitter.pieces == old(emitter.pieces)
    ensures Concat(DataOf(FramesOf(emitter.dst))) == Concat(emitter.pieces) <==> |Concat(emitter.pieces)| % 2 == 0
    ensures FinishedFrom(emitter.dst, 0, false)
  {
    var _ := emitter.EndInput();
    ok := emitter.Join();
    NonStreamingMonoConserves(emitter.config, emitter.pieces);
  }
}
