/**
  The `write` and `read` methods of the messages, field by field over a byte
  stream, proved against the wire format.
 */
module MessageCodec {
  import opened Wrappers
  import opened Sequences
  import opened Channel
  import opened Messages

  // ------------------------------------------------------------------ writing

  /** The fields of one job, as both protocols write them. */
  method WriteJob(b: BytesIO, j: RunningJobInfo, ghost k: Bytes) returns (status: Status)
    requires b.Valid() && b.AtEnd()
    modifies b
    ensures b.Valid() && b.AtEnd()
    ensures status == if JobFits(j) then Done else OverflowError
    ensures status.Done? ==> old(b.data) + PutJob(j, k) == b.data + k
  {
    hide PutBytes, Fits;
    var args := j.acceptArguments;
    ghost var k7 := PutBytes(j.workerId, k);
    ghost var k6 := PutBytes(j.token, k7);
    ghost var k5 := PutBytes(j.url, k6);
    ghost var k4 := PutBytes(args.metadata, k5);
    ghost var k3 := PutBytes(args.identity, k4);
    :- b.WriteBytes(j.job, PutBytes(args.name, k3));
    :- b.WriteBytes(args.name, k3);
    :- b.WriteBytes(args.identity, k4);
    :- b.WriteBytes(args.metadata, k5);
    :- b.WriteBytes(j.url, k6);
    :- b.WriteBytes(j.token, k7);
    :- b.WriteBytes(j.workerId, k);
    return Done;
  }

  lemma {:induction false} JobsFitParts(js: seq<RunningJobInfo>, i: nat)
    requires i < |js|
    ensures JobsFit(js) ==> JobFits(js[i])
    decreases |js|
  {
    if i > 0 {
      JobsFitParts(js[1..], i - 1);
    }
  }

  /** `ActiveJobsResponse.write`: the count, the jobs, the reload count. */
  method WriteJobList(b: BytesIO, jobs: seq<RunningJobInfo>, count: int, ghost k: Bytes) returns (status: Status)
    requires b.Valid() && b.AtEnd()
    modifies b
    ensures b.Valid() && b.AtEnd()
    ensures status == if JobListFits(jobs, count) then Done else OverflowError
    ensures status.Done? ==> old(b.data) + PutJobList(jobs, count, k) == b.data + k
  {
    hide PutNat, Fits, PutJob, JobFits;
    ghost var last := if Fits(count, 4) then PutNat(AsNat(count), 4, k) else k;
    :- b.WriteInt(|jobs|, PutJobs(jobs, last));
    ghost var rest := jobs;
    for i := 0 to |jobs|
      invariant b.Valid() && b.AtEnd() && rest == jobs[i..]
      invariant JobsFit(jobs) <==> JobsFit(rest)
      invariant old(b.data) + PutNat(|jobs|, 4, PutJobs(jobs, last)) == b.data + PutJobs(rest, last)
    {
      :- WriteJob(b, jobs[i], PutJobs(rest[1..], last));
      rest := rest[1..];
    }
    FitsNat(count);
    :- b.WriteInt(count, k);
    return Done;
  }

  function AsNat(v: int): nat {
    if v < 0 then 0 else v
  }

  lemma FitsNat(v: int)
    ensures Fits(v, 4) ==> v >= 0
  {
  }

  /** `InitializeRequest.write`. */
  method WriteInitialize(b: BytesIO, fl: Floats, m: Message, ghost k: Bytes) returns (status: Status)
    requires b.Valid() && b.AtEnd() && m.InitializeRequest?
    modifies b
    ensures b.Valid() && b.AtEnd()
    ensures status == if Encodable(fl, m) then Done else OverflowError
    ensures status.Done? ==> old(b.data) + Put(fl, m, k) == b.data + k
  {
    hide PutBool, PutFloat, PutBytes, Fits;
    ghost var k1 := PutBytes(m.httpProxy, k);
    ghost var k2 := PutFloat(fl, m.highPingThreshold, k1);
    ghost var k3 := PutFloat(fl, m.pingTimeout, k2);
    b.WriteBool(m.asyncioDebug, PutFloat(fl, m.pingInterval, k3));
    :- b.WriteFloat(fl, m.pingInterval, k3);
    :- b.WriteFloat(fl, m.pingTimeout, k2);
    :- b.WriteFloat(fl, m.highPingThreshold, k1);
    :- b.WriteBytes(m.httpProxy, k);
    return Done;
  }

  /** `InferenceResponse.write`: the optional data behind a flag. */
  method WriteInferenceResponse(b: BytesIO, ghost fl: Floats, m: Message, ghost k: Bytes) returns (status: Status)
    requires b.Valid() && b.AtEnd() && m.InferenceResponse?
    modifies b
    ensures b.Valid() && b.AtEnd()
    ensures status == if Encodable(fl, m) then Done else OverflowError
    ensures status.Done? ==> old(b.data) + Put(fl, m, k) == b.data + k
  {
    hide PutBool, PutBytes, Fits;
    ghost var k2 := PutBytes(m.inferenceError, k);
    ghost var k1 := if m.result.Some? then PutBytes(m.result.value, k2) else k2;
    :- b.WriteBytes(m.responseId, PutBool(m.result.Some?, k1));
    b.WriteBool(m.result.Some?, k1);
    if m.result.Some? {
      :- b.WriteBytes(m.result.value, k2);
    }
    :- b.WriteBytes(m.inferenceError, k);
    return Done;
  }

  /** The `write` of every message class; nothing for the classes that have none. */
  method WriteFields(b: BytesIO, fl: Floats, m: Message, ghost k: Bytes) returns (status: Status)
    requires b.Valid() && b.AtEnd()
    modifies b
    ensures b.Valid() && b.AtEnd()
    ensures status == if Encodable(fl, m) then Done else OverflowError
    ensures status.Done? ==> old(b.data) + Put(fl, m, k) == b.data + k
  {
    hide PutNat, PutBytes, PutBool, PutFloat, PutJob, PutJobList, Fits, JobFits, JobsFit;
    match m {
      case InitializeRequest(_, _, _, _, _) =>
        status := WriteInitialize(b, fl, m, k);
      case InitializeResponse(error) =>
        status := b.WriteBytes(error, k);
      case PingRequest(timestamp) =>
        status := b.WriteLong(timestamp, k);
      case PongResponse(lastTimestamp, timestamp) =>
        :- b.WriteLong(lastTimestamp, PutNat(AsNat(timestamp), 8, k));
        FitsLong(timestamp);
        status := b.WriteLong(timestamp, k);
      case StartJobRequest(job) =>
        status := WriteJob(b, job, k);
      case ShutdownRequest(reason) =>
        status := b.WriteBytes(reason, k);
      case Exiting(reason) =>
        status := b.WriteBytes(reason, k);
      case InferenceRequest(inferenceMethod, requestId, data) =>
        :- b.WriteBytes(inferenceMethod, PutBytes(requestId, PutBytes(data, k)));
        :- b.WriteBytes(requestId, PutBytes(data, k));
        status := b.WriteBytes(data, k);
      case InferenceResponse(_, _, _) =>
        status := WriteInferenceResponse(b, fl, m, k);
      case TracingRequest(requestId) =>
        status := b.WriteBytes(requestId, k);
      case TracingResponse(requestId, info) =>
        :- b.WriteBytes(requestId, PutBytes(info, k));
        status := b.WriteBytes(info, k);
      case ActiveJobsResponse(jobs, reloadCount) =>
        status := WriteJobList(b, jobs, reloadCount, k);
      case ReloadJobsResponse(jobs, reloadCount) =>
        status := WriteJobList(b, jobs, reloadCount, k);
      case _ =>
        status := Done;
    }
  }

  lemma FitsLong(v: int)
    ensures Fits(v, 8) ==> v >= 0
  {
  }

  /** `_write_message`: the bytes, or nothing when a field overflows and the call raises. */
  method WriteMessage(fl: Floats, m: Message) returns (r: Option<Bytes>)
    ensures r == if Encodable(fl, m) then Some(Encode(fl, m)) else None
  {
    hide PutNat, Put, Encodable;
    var bio := new BytesIO([]);
    IdFits(m);
    ghost var fields := if Encodable(fl, m) then Put(fl, m, []) else [];
    var status := bio.WriteInt(MsgId(m), fields);
    assert status.Done?;
    status := WriteFields(bio, fl, m, []);
    if status.OverflowError? {
      return None;
    }
    assert [] + PutNat(MsgId(m), 4, fields) == PutNat(MsgId(m), 4, fields);
    assert bio.data + [] == bio.data;
    return Some(bio.data);
  }

  // ------------------------------------------------------------------ reading

  /** `read_string`: raises when the bytes are no UTF-8. */
  method ReadString(d: Formats, b: BytesIO) returns (s: Result<Text, ReadError>)
    requires b.Valid()
    modifies b`pos
    ensures b.Valid() && b.Rest() == GetBytes(old(b.Rest())).1
    ensures s == if d.utf8(GetBytes(old(b.Rest())).0) then Ok(GetBytes(old(b.Rest())).0) else Err(DecodeError)
  {
    var bytes := b.ReadBytes();
    s := if d.utf8(bytes) then Ok(bytes) else Err(DecodeError);
  }

  /** The fields of one job; raises at the first that cannot be decoded. */
  method ReadJob(d: Formats, b: BytesIO) returns (r: Result<RunningJobInfo, ReadError>)
    requires b.Valid()
    modifies b`pos
    ensures b.Valid()
    ensures var (j, rest) := GetJob(old(b.Rest()));
      && r == (if JobWellFormed(d, j) then Ok(j) else Err(DecodeError))
      && (r.Ok? ==> b.Rest() == rest)
  {
    hide GetBytes;
    var job := b.ReadBytes();
    if !d.job(job) {
      return Err(DecodeError);
    }
    var name :- ReadString(d, b);
    var identity :- ReadString(d, b);
    var metadata :- ReadString(d, b);
    var url :- ReadString(d, b);
    var token :- ReadString(d, b);
    var workerId :- ReadString(d, b);
    return Ok(RunningJobInfo(JobAcceptArguments(name, identity, metadata, None), job, url, token, workerId));
  }

  lemma {:induction false} GetJobsPrepend(d: Formats, done: seq<RunningJobInfo>, n: nat, bs: Bytes)
    requires n > 0
    ensures var (j, rest) := GetJob(bs);
      var (js, end) := GetJobs(n - 1, rest);
      && (done + GetJobs(n, bs).0, GetJobs(n, bs).1) == (done + [j] + js, end)
      && (JobsWellFormed(d, GetJobs(n, bs).0) <==> JobWellFormed(d, j) && JobsWellFormed(d, js))
  {
    hide GetJob, JobWellFormed;
    var (j, rest) := GetJob(bs);
    var (js, end) := GetJobs(n - 1, rest);
    assert done + ([j] + js) == done + [j] + js;
    assert ([j] + js)[1..] == js;
  }

  /** `ActiveJobsResponse.read`: as many jobs as the count says, then the reload count. */
  method ReadJobList(d: Formats, b: BytesIO) returns (r: Result<(seq<RunningJobInfo>, nat), ReadError>)
    requires b.Valid()
    modifies b`pos
    ensures b.Valid()
    ensures var (jobs, count, rest) := GetJobList(old(b.Rest()));
      && r == (if JobsWellFormed(d, jobs) then Ok((jobs, count)) else Err(DecodeError))
      && (r.Ok? ==> b.Rest() == rest)
  {
    hide GetNat, GetJob, JobWellFormed;
    var n := b.ReadNat(4);
    var jobs := [];
    ghost var start := b.Rest();
    assert [] + GetJobs(n, start).0 == GetJobs(n, start).0;
    for i := 0 to n
      invariant b.Valid()
      invariant jobs + GetJobs(n - i, b.Rest()).0 == GetJobs(n, start).0
      invariant GetJobs(n - i, b.Rest()).1 == GetJobs(n, start).1
      invariant JobsWellFormed(d, GetJobs(n - i, b.Rest()).0) <==> JobsWellFormed(d, GetJobs(n, start).0)
    {
      GetJobsPrepend(d, jobs, n - i, b.Rest());
      var j :- ReadJob(d, b);
      jobs := jobs + [j];
    }
    assert jobs + [] == jobs;
    var count := b.ReadNat(4);
    return Ok((jobs, count));
  }

  /** The message read and where the cursor stops, or the error that is raised. */
  ghost predicate ReadsAs(m: Result<Message, ReadError>, rest: Bytes, parsed: Parsed) {
    match parsed
    case Ok((msg, r)) => m == Ok(msg) && rest == r
    case Err(e) => m == Err(e)
  }

  /** `InitializeRequest.read`. */
  method ReadInitialize(d: Formats, b: BytesIO) returns (m: Result<Message, ReadError>)
    requires b.Valid()
    modifies b`pos
    ensures b.Valid() && ReadsAs(m, b.Rest(), Checked(d, GetInitialize(d.floats, old(b.Rest()))))
  {
    hide GetBool, GetBytes;
    var debug := b.ReadBool();
    ghost var r := b.Rest();
    var pingInterval := b.ReadFloat(d.floats);
    if pingInterval.None? { return Err(StructError); }
    assert b.Rest() == r[4..];
    var pingTimeout := b.ReadFloat(d.floats);
    if pingTimeout.None? { return Err(StructError); }
    assert b.Rest() == r[8..] && r[4..][..4] == r[4..8];
    var highPingThreshold := b.ReadFloat(d.floats);
    if highPingThreshold.None? { return Err(StructError); }
    assert b.Rest() == r[12..] && r[8..][..4] == r[8..12];
    var httpProxy :- ReadString(d, b);
    return Ok(InitializeRequest(debug, pingInterval.value, pingTimeout.value, highPingThreshold.value, httpProxy));
  }

  /** `InferenceResponse.read`. */
  method ReadInferenceResponse(d: Formats, b: BytesIO) returns (m: Result<Message, ReadError>)
    requires b.Valid()
    modifies b`pos
    ensures b.Valid() && ReadsAs(m, b.Rest(), Checked(d, Ok(GetInferenceResponse(old(b.Rest())))))
  {
    hide GetBool, GetBytes;
    var requestId :- ReadString(d, b);
    var hasData := b.ReadBool();
    var data: Option<Bytes> := None;
    if hasData {
      var bytes := b.ReadBytes();
      data := Some(bytes);
    }
    var error :- ReadString(d, b);
    return Ok(InferenceResponse(requestId, data, error));
  }

  /** `InferenceRequest.read`. */
  method ReadInferenceRequest(d: Formats, b: BytesIO) returns (m: Result<Message, ReadError>)
    requires b.Valid()
    modifies b`pos
    ensures b.Valid() && ReadsAs(m, b.Rest(), Checked(d, Get(d.floats, Ipc, 7, old(b.Rest()))))
  {
    hide GetBytes;
    var inferenceMethod :- ReadString(d, b);
    var requestId :- ReadString(d, b);
    var data := b.ReadBytes();
    return Ok(InferenceRequest(inferenceMethod, requestId, data));
  }

  /** `TracingResponse.read`. */
  method ReadTracingResponse(d: Formats, b: BytesIO) returns (m: Result<Message, ReadError>)
    requires b.Valid()
    modifies b`pos
    ensures b.Valid() && ReadsAs(m, b.Rest(), Checked(d, Get(d.floats, Ipc, 10, old(b.Rest()))))
  {
    hide GetBytes;
    var requestId :- ReadString(d, b);
    var info := b.ReadBytes();
    if !d.pickle(info) {
      return Err(DecodeError);
    }
    return Ok(TracingResponse(requestId, info));
  }

  /**
    The `read` of the message classes of the worker-process protocol, which raises
    at the first field that cannot be decoded.
   */
  method ReadIpcFields(d: Formats, b: BytesIO, id: nat) returns (m: Result<Message, ReadError>)
    requires b.Valid()
    modifies b`pos
    ensures b.Valid() && ReadsAs(m, b.Rest(), Checked(d, Get(d.floats, Ipc, id, old(b.Rest()))))
  {
    hide GetNat, GetBytes, GetJob, GetInitialize, GetInferenceResponse, JobWellFormed;
    match id {
      case 0 =>
        m := ReadInitialize(d, b);
      case 2 =>
        var timestamp := b.ReadNat(8);
        m := Ok(PingRequest(timestamp));
      case 3 =>
        var lastTimestamp := b.ReadNat(8);
        var timestamp := b.ReadNat(8);
        m := Ok(PongResponse(lastTimestamp, timestamp));
      case 4 =>
        var job :- ReadJob(d, b);
        m := Ok(StartJobRequest(job));
      case 7 =>
        m := ReadInferenceRequest(d, b);
      case 8 =>
        m := ReadInferenceResponse(d, b);
      case 10 =>
        m := ReadTracingResponse(d, b);
      case _ =>
        m := ReadOneString(d, b, id);
    }
  }

  /** The `read` of the classes whose only field is a string; ids of no class are refused before anything is read. */
  method ReadOneString(d: Formats, b: BytesIO, id: nat) returns (m: Result<Message, ReadError>)
    requires b.Valid() && id !in {0, 2, 3, 4, 7, 8, 10}
    modifies b`pos
    ensures b.Valid() && ReadsAs(m, b.Rest(), Checked(d, Get(d.floats, Ipc, id, old(b.Rest()))))
  {
    hide GetBytes;
    if id !in {1, 5, 6, 9} {
      return Err(UnknownMessage(id));
    }
    var s :- ReadString(d, b);
    match id {
      case 1 => m := Ok(InitializeResponse(s));
      case 5 => m := Ok(ShutdownRequest(s));
      case 6 => m := Ok(Exiting(s));
      case _ => m := Ok(TracingRequest(s));
    }
  }

  /** The `read` of the message classes of the command-line protocol. */
  method ReadCliFields(d: Formats, b: BytesIO, id: nat) returns (m: Result<Message, ReadError>)
    requires b.Valid()
    modifies b`pos
    ensures b.Valid() && ReadsAs(m, b.Rest(), Checked(d, Get(d.floats, Cli, id, old(b.Rest()))))
  {
    hide GetJobList, JobsWellFormed;
    match id {
      case 1 => m := Ok(ActiveJobsRequest);
      case 2 =>
        var r :- ReadJobList(d, b);
        m := Ok(ActiveJobsResponse(r.0, r.1));
      case 3 => m := Ok(ReloadJobsRequest);
      case 4 =>
        var r :- ReadJobList(d, b);
        m := Ok(ReloadJobsResponse(r.0, r.1));
      case 5 => m := Ok(Reloaded);
      case _ => m := Err(UnknownMessage(id));
    }
  }

  /** `_read_message`; what follows the message in the buffer is ignored. */
  method ReadMessage(d: Formats, data: Bytes, p: Protocol) returns (m: Result<Message, ReadError>)
    ensures match Decode(d, p, data)
      case Ok((msg, _)) => m == Ok(msg)
      case Err(e) => m == Err(e)
  {
    hide GetNat, Get, Checked;
    var bio := new BytesIO(data);
    var id := bio.ReadNat(4);
    if p.Ipc? {
      m := ReadIpcFields(d, bio, id);
    } else {
      m := ReadCliFields(d, bio, id);
    }
  }

  /** Sending and receiving: refused exactly when a field overflows, else received as what survives. */
  method SendAndReceive(d: Formats, m: Message) returns (r: Option<Message>)
    requires WellFormed(d, m)
    ensures r == if Encodable(d.floats, m) then Some(Erased(d.floats, m)) else None
  {
    hide Decode, Encode, Encodable, WellFormed;
    var data := WriteMessage(d.floats, m);
    if data.None? {
      return None;
    }
    MessageRoundTrip(d, m, []);
    assert data.value + [] == data.value;
    var received := ReadMessage(d, data.value, ProtocolOf(m));
    assert received == Ok(Erased(d.floats, m));
    return Some(received.value);
  }
}
