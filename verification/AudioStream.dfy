/**
  `AudioByteStream`: pushed bytes come back as frames of a fixed size, however
  they were cut up on the way in.
 */
module AudioStream {
  import opened Sequences
  import opened Division

  datatype AudioFrame = AudioFrame(data: Bytes, sampleRate: nat, numChannels: nat, samplesPerChannel: nat)

  /** The full frames of n bytes in a byte string. */
  ghost function Chunks(bs: Bytes, n: nat): seq<Bytes>
    requires n > 0
    decreases |bs|
  {
    if |bs| < n then [] else [bs[..n]] + Chunks(bs[n..], n)
  }

  /** What is left after the last full frame. */
  ghost function Left(bs: Bytes, n: nat): Bytes
    requires n > 0
    decreases |bs|
  {
    if |bs| < n then bs else Left(bs[n..], n)
  }

  /** The frames all have n bytes, fewer than n are left, and together they are the bytes. */
  lemma {:induction false} ChunksMean(bs: Bytes, n: nat)
    requires n > 0
    ensures forall c :: c in Chunks(bs, n) ==> |c| == n
    ensures |Left(bs, n)| < n
    ensures Concat(Chunks(bs, n)) + Left(bs, n) == bs
    decreases |bs|
  {
    if |bs| >= n {
      ChunksMean(bs[n..], n);
      var rest := Chunks(bs[n..], n);
      assert ([bs[..n]] + rest)[1..] == rest;
      Assoc(bs[..n], Concat(rest), Left(bs[n..], n));
      assert bs[..n] + bs[n..] == bs;
    } else {
      Assoc([], bs, []);
    }
  }

  /** Full frames are whole samples, so what is left is misaligned exactly if everything was. */
  lemma {:induction false} LeftRemainder(bs: Bytes, n: nat, b: nat)
    requires n > 0 && b > 0 && n % b == 0
    ensures |Left(bs, n)| % b == |bs| % b
    decreases |bs|
  {
    if |bs| >= n {
      LeftRemainder(bs[n..], n, b);
      SameRemainder(|bs|, n, b);
    }
  }

  /** Chunking can be resumed from what was left. */
  lemma {:induction false} ChunksResume(a: Bytes, b: Bytes, n: nat)
    requires n > 0
    ensures Chunks(a + b, n) == Chunks(a, n) + Chunks(Left(a, n) + b, n)
    ensures Left(a + b, n) == Left(Left(a, n) + b, n)
    decreases |a|
  {
    if |a| >= n {
      ChunksResume(a[n..], b, n);
      assert (a + b)[..n] == a[..n] && (a + b)[n..] == a[n..] + b;
      assert [a[..n]] + (Chunks(a[n..], n) + Chunks(Left(a, n) + b, n))
          == [a[..n]] + Chunks(a[n..], n) + Chunks(Left(a, n) + b, n);
    } else {
      assert [] + Chunks(a + b, n) == Chunks(a + b, n);
    }
  }

  function DataOf(frames: seq<AudioFrame>): (ds: seq<Bytes>)
    ensures |ds| == |frames| && forall k :: 0 <= k < |ds| ==> ds[k] == frames[k].data
  {
    seq(|frames|, k requires 0 <= k < |frames| => frames[k].data)
  }

  class AudioByteStream {
    const sampleRate: nat
    const numChannels: nat
    const bytesPerSample: nat
    const bytesPerFrame: nat
    var buf: Bytes

    /** Two bytes per sample and channel; nothing is ever buffered for frames of no bytes. */
    ghost predicate Valid()
      reads this
    {
      && bytesPerSample == 2 * numChannels
      && (bytesPerFrame > 0 ==> numChannels > 0 && bytesPerFrame % bytesPerSample == 0)
      && (bytesPerFrame == 0 ==> buf == [])
    }

    /** Frames have bytes. Without, `push` would not return. */
    predicate Cuts() {
      bytesPerFrame > 0
    }

    constructor (sampleRate: nat, numChannels: nat, samplesPerChannel: nat)
      ensures Valid() && buf == [] && bytesPerFrame == samplesPerChannel * (2 * numChannels)
      ensures this.sampleRate == sampleRate && this.numChannels == numChannels
      ensures Cuts() <==> numChannels > 0 && samplesPerChannel > 0
    {
      this.sampleRate, this.numChannels := sampleRate, numChannels;
      bytesPerSample := 2 * numChannels;
      bytesPerFrame := samplesPerChannel * (2 * numChannels);
      buf := [];
      new;
      if numChannels > 0 && samplesPerChannel > 0 {
        MultipleOf(samplesPerChannel, 2 * numChannels);
      }
    }

    /** A frame of this stream carries the right number of samples for its bytes. */
    ghost predicate Consistent(f: AudioFrame) {
      && f.sampleRate == sampleRate && f.numChannels == numChannels
      && f.samplesPerChannel * (2 * f.numChannels) == |f.data|
    }

    /** `push`: all full frames of what was buffered and what came in. */
    method Push(data: Bytes) returns (frames: seq<AudioFrame>)
      requires Valid() && Cuts()
      modifies this`buf
      ensures Valid()
      ensures DataOf(frames) == Chunks(old(buf) + data, bytesPerFrame)
      ensures buf == Left(old(buf) + data, bytesPerFrame)
      ensures forall f :: f in frames ==> Consistent(f)
    {
      buf := buf + data;
      frames := [];
      ghost var all := buf;
      assert DataOf([]) + Chunks(all, bytesPerFrame) == Chunks(all, bytesPerFrame);
      while |buf| >= bytesPerFrame
        invariant DataOf(frames) + Chunks(buf, bytesPerFrame) == Chunks(all, bytesPerFrame)
        invariant Left(buf, bytesPerFrame) == Left(all, bytesPerFrame)
        invariant forall f :: f in frames ==> Consistent(f)
        decreases |buf|
      {
        var frameData := buf[..bytesPerFrame];
        var frame := AudioFrame(frameData, sampleRate, numChannels, |frameData| / bytesPerSample);
        ExactDivision(|frameData|, bytesPerSample);
        FramesSnoc(frames, frame, Chunks(buf[bytesPerFrame..], bytesPerFrame));
        buf := buf[bytesPerFrame..];
        frames := frames + [frame];
      }
      assert DataOf(frames) + [] == DataOf(frames);
    }

    /** `flush`: what is buffered as one frame if it is whole samples. The buffer is left as it is. */
    method Flush() returns (frames: seq<AudioFrame>)
      requires Valid()
      ensures DataOf(frames) == if Cuts() then Flushed(buf, numChannels) else []
      ensures forall f :: f in frames ==>
        f == AudioFrame(buf, sampleRate, numChannels, |buf| / 2) && f.samplesPerChannel > 0
    {
      if |buf| == 0 {
        return [];
      }
      if |buf| % (2 * numChannels) != 0 {
        return [];
      }
      AtLeastOneSample(|buf|, 2 * numChannels);
      return [AudioFrame(buf, sampleRate, numChannels, |buf| / 2)];
    }

    /** The flushed frame's sample count matches its bytes for mono audio and only then. */
    lemma FlushedSamplesMatchIffMono(f: AudioFrame)
      requires Valid() && Cuts() && buf != [] && |buf| % (2 * numChannels) == 0
      requires f == AudioFrame(buf, sampleRate, numChannels, |buf| / 2)
      ensures Consistent(f) <==> numChannels == 1
    {
      var samples := |buf| / 2;
      EvenBuffer(|buf|, numChannels);
      if numChannels > 1 {
        TooManySamples(samples, numChannels);
      }
    }
  }

  /** The data `flush` returns for a buffer. */
  function Flushed(buf: Bytes, numChannels: nat): seq<Bytes>
    requires numChannels > 0
  {
    if buf == [] || |buf| % (2 * numChannels) != 0 then [] else [buf]
  }

  // -------------------------------------------------------------- arithmetic

  lemma AtLeastOneSample(a: nat, b: nat)
    requires a > 0 && b >= 2 && a % b == 0
    ensures a >= b
  {
    if a < b {
      DivMod(a, b, 0, a);
    }
  }

  lemma EvenBuffer(a: nat, channels: nat)
    requires channels > 0 && a % (2 * channels) == 0
    ensures a == 2 * (a / 2)
  {
    ExactDivision(a, 2 * channels);
    var q := a / (2 * channels);
    Swap(q, channels);
    DivMod(a, 2, q * channels, 0);
  }

  lemma Swap(q: nat, c: nat)
    ensures q * (2 * c) == (q * c) * 2
  {
  }

  lemma TooManySamples(samples: nat, channels: nat)
    requires samples > 0 && channels >= 2
    ensures samples * (2 * channels) > 2 * samples
  {
    assert samples * (2 * channels) == samples * (2 * channels - 4) + samples * 4;
    assert samples * (2 * channels - 4) >= 0;
  }

  /** Taking away a multiple does not change the remainder. */
  lemma SameRemainder(v: nat, n: nat, b: nat)
    requires b > 0 && n % b == 0 && n <= v
    ensures (v - n) % b == v % b
  {
    DivModExists(v - n, b);
    ExactDivision(n, b);
    MulSub((v - n) / b, -(n / b), b);
    DivMod(v, b, (v - n) / b + n / b, (v - n) % b);
  }

  lemma FramesSnoc(frames: seq<AudioFrame>, frame: AudioFrame, rest: seq<Bytes>)
    ensures DataOf(frames + [frame]) + rest == DataOf(frames) + ([frame.data] + rest)
  {
  }

  // ------------------------------------------------- how it was pushed is irrelevant

  /** Any number of pushes give the frames, and leave the buffer, of one push of everything. */
  method PushAll(stream: AudioByteStream, pieces: seq<Bytes>) returns (frames: seq<AudioFrame>)
    requires stream.Valid() && stream.Cuts() && stream.buf == []
    modifies stream`buf
    ensures DataOf(frames) == Chunks(Concat(pieces), stream.bytesPerFrame)
    ensures stream.buf == Left(Concat(pieces), stream.bytesPerFrame)
    ensures forall f :: f in frames ==> stream.Consistent(f)
  {
    frames := [];
    ghost var n, sofar := stream.bytesPerFrame, [];
    for i := 0 to |pieces|
      invariant sofar == Concat(pieces[..i])
      invariant DataOf(frames) == Chunks(sofar, n) && stream.buf == Left(sofar, n) && stream.Valid()
      invariant forall f :: f in frames ==> stream.Consistent(f)
    {
      ChunksResume(sofar, pieces[i], n);
      assert pieces[..i + 1] == pieces[..i] + [pieces[i]];
      ConcatAppend(pieces[..i], [pieces[i]]);
      ConcatOne(pieces[i]);
      sofar := sofar + pieces[i];
      var more := stream.Push(pieces[i]);
      assert DataOf(frames + more) == DataOf(frames) + DataOf(more);
      frames := frames + more;
    }
    assert pieces[..|pieces|] == pieces;
  }

  /** After all pushes one flush returns every byte exactly when the bytes are whole samples. */
  lemma OneFlushCompletesIffAligned(bs: Bytes, n: nat, numChannels: nat)
    requires numChannels > 0 && n > 0 && n % (2 * numChannels) == 0
    ensures Concat(Chunks(bs, n) + Flushed(Left(bs, n), numChannels)) == bs <==> |bs| % (2 * numChannels) == 0
  {
    var left, b := Left(bs, n), 2 * numChannels;
    ChunksMean(bs, n);
    LeftRemainder(bs, n, b);
    hide Chunks, Left;
    ConcatAppend(Chunks(bs, n), Flushed(left, numChannels));
    ConcatOne(left);
    hide Concat;
    NothingIsAligned(b);
    if left == [] {
      Assoc(Concat(Chunks(bs, n)), [], []);
    }
  }

  lemma NothingIsAligned(b: nat)
    requires b > 0
    ensures 0 % b == 0
  {
    DivMod(0, b, 0, 0);
  }

  // ------------------------------------------- pushes and flushes in any order

  datatype Call = PushCall(data: Bytes) | FlushCall

  /** Everything pushed. */
  function PushedBytes(calls: seq<Call>): Bytes {
    if calls == [] then []
    else
      var last := calls[|calls| - 1];
      PushedBytes(calls[..|calls| - 1]) + (if last.PushCall? then last.data else [])
  }

  /**
    The data returned by the calls. A flush keeps its buffer, so the buffer is
    always what is left of everything pushed.
   */
  ghost function Returned(calls: seq<Call>, n: nat, numChannels: nat): seq<Bytes>
    requires n > 0 && numChannels > 0
    decreases |calls|
  {
    if calls == [] then []
    else
      var front, last := calls[..|calls| - 1], calls[|calls| - 1];
      var buf := Left(PushedBytes(front), n);
      Returned(front, n, numChannels) +
        (if last.PushCall? then Chunks(buf + last.data, n) else Flushed(buf, numChannels))
  }

  /** Every flush on the way had nothing to return: the buffer was empty or no whole number of samples. */
  ghost predicate QuietFlushes(calls: seq<Call>, n: nat, numChannels: nat)
    requires n > 0 && numChannels > 0
    decreases |calls|
  {
    calls == [] ||
    var front, last := calls[..|calls| - 1], calls[|calls| - 1];
    QuietFlushes(front, n, numChannels) && (last.FlushCall? ==> Flushed(Left(PushedBytes(front), n), numChannels) == [])
  }

  lemma CallsSnoc(front: seq<Call>, call: Call, n: nat, numChannels: nat)
    requires n > 0 && numChannels > 0
    ensures var buf, calls := Left(PushedBytes(front), n), front + [call];
      && PushedBytes(calls) == PushedBytes(front) + (if call.PushCall? then call.data else [])
      && Left(PushedBytes(calls), n) == (if call.PushCall? then Left(buf + call.data, n) else buf)
      && Returned(calls, n, numChannels) == Returned(front, n, numChannels)
           + (if call.PushCall? then Chunks(buf + call.data, n) else Flushed(buf, numChannels))
      && (QuietFlushes(calls, n, numChannels) <==>
            QuietFlushes(front, n, numChannels) && (call.FlushCall? ==> Flushed(buf, numChannels) == []))
  {
    assert (front + [call])[..|front|] == front;
    if call.PushCall? {
      ChunksResume(PushedBytes(front), call.data, n);
    } else {
      Assoc(PushedBytes(front), [], []);
    }
    hide Chunks, Left, Flushed;
  }

  lemma NoCalls(n: nat, numChannels: nat)
    requires n > 0 && numChannels > 0
    ensures PushedBytes([]) == [] && Left([], n) == []
    ensures Returned([], n, numChannels) == [] && QuietFlushes([], n, numChannels)
  {
  }

  /** One call on the stream. */
  method Perform(stream: AudioByteStream, call: Call) returns (frames: seq<AudioFrame>)
    requires stream.Valid() && stream.Cuts()
    modifies stream`buf
    ensures stream.Valid()
    ensures DataOf(frames) ==
      if call.PushCall? then Chunks(old(stream.buf) + call.data, stream.bytesPerFrame)
      else Flushed(stream.buf, stream.numChannels)
    ensures stream.buf ==
      if call.PushCall? then Left(old(stream.buf) + call.data, stream.bytesPerFrame) else old(stream.buf)
  {
    if call.PushCall? {
      frames := stream.Push(call.data);
    } else {
      frames := stream.Flush();
    }
  }

  method RunCalls(stream: AudioByteStream, calls: seq<Call>) returns (frames: seq<AudioFrame>)
    requires stream.Valid() && stream.Cuts() && stream.buf == []
    modifies stream`buf
    ensures DataOf(frames) == Returned(calls, stream.bytesPerFrame, stream.numChannels)
    ensures stream.buf == Left(PushedBytes(calls), stream.bytesPerFrame)
  {
    hide Chunks, Left, Flushed, Returned, PushedBytes;
    NoCalls(stream.bytesPerFrame, stream.numChannels);
    frames := [];
    for i := 0 to |calls|
      invariant stream.Valid() && DataOf(frames) == Returned(calls[..i], stream.bytesPerFrame, stream.numChannels)
      invariant stream.buf == Left(PushedBytes(calls[..i]), stream.bytesPerFrame)
    {
      CallsSnoc(calls[..i], calls[i], stream.bytesPerFrame, stream.numChannels);
      assert calls[..i + 1] == calls[..i] + [calls[i]];
      var more := Perform(stream, calls[i]);
      assert DataOf(frames + more) == DataOf(frames) + DataOf(more);
      frames := frames + more;
    }
    assert calls[..|calls|] == calls;
  }

  /** How many bytes the flushes on the way repeat. */
  ghost function Repeated(calls: seq<Call>, n: nat, numChannels: nat): nat
    requires n > 0 && numChannels > 0
    decreases |calls|
  {
    if calls == [] then 0
    else
      var front, last := calls[..|calls| - 1], calls[|calls| - 1];
      Repeated(front, n, numChannels) +
        if last.PushCall? then 0 else |Concat(Flushed(Left(PushedBytes(front), n), numChannels))|
  }

  lemma FlushedLength(buf: Bytes, numChannels: nat)
    requires numChannels > 0
    ensures |Concat(Flushed(buf, numChannels))| == if |buf| % (2 * numChannels) == 0 then |buf| else 0
    ensures |Concat(Flushed(buf, numChannels))| % (2 * numChannels) == 0
    ensures Flushed(buf, numChannels) == [] <==> |Concat(Flushed(buf, numChannels))| == 0
  {
    NothingIsAligned(2 * numChannels);
    ConcatOne(buf);
  }

  lemma MultiplesAdd(x: nat, y: nat, b: nat)
    requires b > 0 && x % b == 0 && y % b == 0
    ensures (x + y) % b == 0
  {
    SameRemainder(x + y, y, b);
  }

  /** The bytes returned are those of the full frames and those repeated, whole samples both. */
  ghost predicate Accounted(calls: seq<Call>, n: nat, numChannels: nat)
    requires numChannels > 0 && n > 0
  {
    var total, repeated := PushedBytes(calls), Repeated(calls, n, numChannels);
    && |Concat(Returned(calls, n, numChannels))| + |Left(total, n)| == |total| + repeated
    && repeated % (2 * numChannels) == 0
    && (repeated == 0 <==> QuietFlushes(calls, n, numChannels))
    && (repeated == 0 ==> Returned(calls, n, numChannels) == Chunks(total, n))
  }

  lemma AccountedPush(front: seq<Call>, data: Bytes, n: nat, numChannels: nat)
    requires numChannels > 0 && n > 0 && Accounted(front, n, numChannels)
    ensures Accounted(front + [PushCall(data)], n, numChannels)
  {
    var before, calls := PushedBytes(front), front + [PushCall(data)];
    var more := Left(before, n) + data;
    CallsSnoc(front, PushCall(data), n, numChannels);
    RepeatedSnoc(front, PushCall(data), n, numChannels);
    hide Chunks, Left, Concat, Flushed, Returned, Repeated, QuietFlushes, PushedBytes;
    ChunksResume(before, data, n);
    ChunksMean(more, n);
    ConcatAppend(Returned(front, n, numChannels), Chunks(more, n));
    assert |more| == |Concat(Chunks(more, n))| + |Left(more, n)|;
  }

  lemma AccountedFlush(front: seq<Call>, n: nat, numChannels: nat)
    requires numChannels > 0 && n > 0 && Accounted(front, n, numChannels)
    ensures Accounted(front + [FlushCall], n, numChannels)
  {
    var before := PushedBytes(front);
    var extra := Flushed(Left(before, n), numChannels);
    CallsSnoc(front, FlushCall, n, numChannels);
    RepeatedSnoc(front, FlushCall, n, numChannels);
    hide Chunks, Left, Concat, Flushed, Returned, Repeated, QuietFlushes, PushedBytes;
    Assoc(before, [], []);
    FlushedLength(Left(before, n), numChannels);
    MultiplesAdd(Repeated(front, n, numChannels), |Concat(extra)|, 2 * numChannels);
    ConcatAppend(Returned(front, n, numChannels), extra);
    Assoc(Returned(front, n, numChannels), [], []);
  }

  lemma RepeatedSnoc(front: seq<Call>, call: Call, n: nat, numChannels: nat)
    requires n > 0 && numChannels > 0
    ensures Repeated(front + [call], n, numChannels) == Repeated(front, n, numChannels)
      + if call.PushCall? then 0 else |Concat(Flushed(Left(PushedBytes(front), n), numChannels))|
  {
    assert (front + [call])[..|front|] == front;
    hide Left, Flushed, PushedBytes, Concat;
  }

  lemma {:induction false} ReturnedAccounted(calls: seq<Call>, n: nat, numChannels: nat)
    requires numChannels > 0 && n > 0
    ensures Accounted(calls, n, numChannels)
    decreases |calls|
  {
    if calls == [] {
      NothingIsAligned(2 * numChannels);
    } else {
      hide Accounted;
      var front, last := calls[..|calls| - 1], calls[|calls| - 1];
      ReturnedAccounted(front, n, numChannels);
      assert calls == front + [last];
      match last
      case PushCall(data) => AccountedPush(front, data, n, numChannels);
      case FlushCall => AccountedFlush(front, n, numChannels);
    }
  }

  /**
    Pushes and flushes in any order, then a last flush: the bytes are conserved
    exactly if they are whole samples and no flush on the way had anything to
    return, for what it returns stays in the buffer and comes out again.
   */
  lemma ConservedIffFlushesQuiet(calls: seq<Call>, n: nat, numChannels: nat)
    requires numChannels > 0 && n > 0 && n % (2 * numChannels) == 0
    ensures var total := PushedBytes(calls);
      Concat(Returned(calls, n, numChannels) + Flushed(Left(total, n), numChannels)) == total
      <==> |total| % (2 * numChannels) == 0 && QuietFlushes(calls, n, numChannels)
  {
    var total, b := PushedBytes(calls), 2 * numChannels;
    var left := Left(total, n);
    ReturnedAccounted(calls, n, numChannels);
    LeftRemainder(total, n, b);
    OneFlushCompletesIffAligned(total, n, numChannels);
    FlushedLength(left, numChannels);
    ConcatAppend(Returned(calls, n, numChannels), Flushed(left, numChannels));
    hide Chunks, Left, Concat, Flushed, Returned, Repeated, QuietFlushes;
    if Repeated(calls, n, numChannels) != 0 && |left| % b != 0 {
      assert Repeated(calls, n, numChannels) != |left|;
    }
  }
}
