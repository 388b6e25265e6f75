/**
  The message set between the worker and its processes, and the one between the
  worker and the command line: what each message looks like on the wire, and
  that reading undoes writing whatever follows.
 */
module Messages {
  import opened Wrappers
  import opened Sequences
  import opened Channel

  /** A string, by its UTF-8 encoding. */
  type Text = Bytes

  /** `attributes` is never written. */
  datatype JobAcceptArguments =
    JobAcceptArguments(name: Text, identity: Text, metadata: Text, attributes: Option<map<Text, Text>>)

  /** `job` is the serialized protobuf. */
  datatype RunningJobInfo =
    RunningJobInfo(acceptArguments: JobAcceptArguments, job: Bytes, url: Text, token: Text, workerId: Text)

  datatype Message =
    | InitializeRequest(asyncioDebug: bool, pingInterval: Float8, pingTimeout: Float8, highPingThreshold: Float8,
                        httpProxy: Text)
    | InitializeResponse(error: Text)
    | PingRequest(timestamp: int)
    | PongResponse(lastTimestamp: int, pongTimestamp: int)
    | StartJobRequest(runningJob: RunningJobInfo)
    | ShutdownRequest(reason: Text)
    | Exiting(exitReason: Text)
    | InferenceRequest(inferenceMethod: Text, requestId: Text, data: Bytes)
    | InferenceResponse(responseId: Text, result: Option<Bytes>, inferenceError: Text)
    | TracingRequest(tracingId: Text)
    | TracingResponse(tracedId: Text, info: Bytes)
    | ActiveJobsRequest
    | ActiveJobsResponse(jobs: seq<RunningJobInfo>, reloadCount: int)
    | ReloadJobsRequest
    | ReloadJobsResponse(reloadJobs: seq<RunningJobInfo>, reloads: int)
    | Reloaded

  /** Which IPC_MESSAGES table a side uses. */
  datatype Protocol = Ipc | Cli

  function ProtocolOf(m: Message): Protocol {
    if m.ActiveJobsRequest? || m.ActiveJobsResponse? || m.ReloadJobsRequest? || m.ReloadJobsResponse? || m.Reloaded?
    then Cli else Ipc
  }

  /** MSG_ID. */
  function MsgId(m: Message): nat {
    match m
    case InitializeRequest(_, _, _, _, _) => 0
    case InitializeResponse(_) => 1
    case PingRequest(_) => 2
    case PongResponse(_, _) => 3
    case StartJobRequest(_) => 4
    case ShutdownRequest(_) => 5
    case Exiting(_) => 6
    case InferenceRequest(_, _, _) => 7
    case InferenceResponse(_, _, _) => 8
    case TracingRequest(_) => 9
    case TracingResponse(_, _) => 10
    case ActiveJobsRequest => 1
    case ActiveJobsResponse(_, _) => 2
    case ReloadJobsRequest => 3
    case ReloadJobsResponse(_, _) => 4
    case Reloaded => 5
  }

  // ----------------------------------------------------- what can be encoded

  predicate TextFits(s: Bytes) {
    Fits(|s|, 4)
  }

  predicate JobFits(j: RunningJobInfo) {
    && TextFits(j.job) && TextFits(j.acceptArguments.name) && TextFits(j.acceptArguments.identity)
    && TextFits(j.acceptArguments.metadata) && TextFits(j.url) && TextFits(j.token) && TextFits(j.workerId)
  }

  predicate JobsFit(js: seq<RunningJobInfo>) {
    js == [] || (JobFits(js[0]) && JobsFit(js[1..]))
  }

  predicate JobListFits(js: seq<RunningJobInfo>, count: int) {
    Fits(|js|, 4) && JobsFit(js) && Fits(count, 4)
  }

  predicate FloatsFit(fl: Floats, i: Float8, t: Float8, h: Float8) {
    fl.pack(i).Some? && fl.pack(t).Some? && fl.pack(h).Some?
  }

  /** Every length, integer and float of the message fits its field. */
  predicate Encodable(fl: Floats, m: Message) {
    match m
    case InitializeRequest(_, i, t, h, proxy) => FloatsFit(fl, i, t, h) && TextFits(proxy)
    case InitializeResponse(e) => TextFits(e)
    case PingRequest(t) => Fits(t, 8)
    case PongResponse(l, t) => Fits(l, 8) && Fits(t, 8)
    case StartJobRequest(j) => JobFits(j)
    case ShutdownRequest(r) => TextFits(r)
    case Exiting(r) => TextFits(r)
    case InferenceRequest(me, id, d) => TextFits(me) && TextFits(id) && TextFits(d)
    case InferenceResponse(id, d, e) => TextFits(id) && (d.Some? ==> TextFits(d.value)) && TextFits(e)
    case TracingRequest(id) => TextFits(id)
    case TracingResponse(id, i) => TextFits(id) && TextFits(i)
    case ActiveJobsResponse(js, n) => JobListFits(js, n)
    case ReloadJobsResponse(js, n) => JobListFits(js, n)
    case _ => true
  }

  // ------------------------------------------------------- the wire format

  function PutJob(j: RunningJobInfo, k: Bytes): Bytes {
    var a := j.acceptArguments;
    PutBytes(j.job, PutBytes(a.name, PutBytes(a.identity, PutBytes(a.metadata,
      PutBytes(j.url, PutBytes(j.token, PutBytes(j.workerId, k)))))))
  }

  function PutJobs(js: seq<RunningJobInfo>, k: Bytes): Bytes {
    if js == [] then k else PutJob(js[0], PutJobs(js[1..], k))
  }

  function PutJobList(js: seq<RunningJobInfo>, count: nat, k: Bytes): Bytes {
    PutNat(|js|, 4, PutJobs(js, PutNat(count, 4, k)))
  }

  /** The fields of an encodable message, followed by k. */
  function Put(fl: Floats, m: Message, k: Bytes): Bytes
    requires Encodable(fl, m)
  {
    match m
    case InitializeRequest(debug, i, t, h, proxy) =>
      PutBool(debug, PutFloat(fl, i, PutFloat(fl, t, PutFloat(fl, h, PutBytes(proxy, k)))))
    case InitializeResponse(e) => PutBytes(e, k)
    case PingRequest(t) => PutNat(t, 8, k)
    case PongResponse(l, t) => PutNat(l, 8, PutNat(t, 8, k))
    case StartJobRequest(j) => PutJob(j, k)
    case ShutdownRequest(r) => PutBytes(r, k)
    case Exiting(r) => PutBytes(r, k)
    case InferenceRequest(me, id, d) => PutBytes(me, PutBytes(id, PutBytes(d, k)))
    case InferenceResponse(id, d, e) =>
      PutBytes(id, PutBool(d.Some?, if d.Some? then PutBytes(d.value, PutBytes(e, k)) else PutBytes(e, k)))
    case TracingRequest(id) => PutBytes(id, k)
    case TracingResponse(id, i) => PutBytes(id, PutBytes(i, k))
    case ActiveJobsResponse(js, n) => PutJobList(js, n, k)
    case ReloadJobsResponse(js, n) => PutJobList(js, n, k)
    case _ => k
  }

  /** `_write_message`: the id, then the fields. */
  function Encode(fl: Floats, m: Message): Bytes
    requires Encodable(fl, m)
  {
    PutNat(MsgId(m), 4, Put(fl, m, []))
  }

  /** The first four bytes of every message are its id, most significant byte first. */
  lemma IdComesFirst(fl: Floats, m: Message)
    requires Encodable(fl, m)
    ensures |Encode(fl, m)| >= 4 && Encode(fl, m)[4..] == Put(fl, m, [])
    ensures Encode(fl, m)[..4] ==
      match m
      case InitializeRequest(_, _, _, _, _) => [0, 0, 0, 0]
      case InitializeResponse(_) => [0, 0, 0, 1]
      case PingRequest(_) => [0, 0, 0, 2]
      case PongResponse(_, _) => [0, 0, 0, 3]
      case StartJobRequest(_) => [0, 0, 0, 4]
      case ShutdownRequest(_) => [0, 0, 0, 5]
      case Exiting(_) => [0, 0, 0, 6]
      case InferenceRequest(_, _, _) => [0, 0, 0, 7]
      case InferenceResponse(_, _, _) => [0, 0, 0, 8]
      case TracingRequest(_) => [0, 0, 0, 9]
      case TracingResponse(_, _) => [0, 0, 0, 10]
      case ActiveJobsRequest => [0, 0, 0, 1]
      case ActiveJobsResponse(_, _) => [0, 0, 0, 2]
      case ReloadJobsRequest => [0, 0, 0, 3]
      case ReloadJobsResponse(_, _) => [0, 0, 0, 4]
      case Reloaded => [0, 0, 0, 5]
  {
    hide Put;
    SmallId(MsgId(m));
  }

  lemma SmallId(id: nat)
    requires id < 256
    ensures BigEndian(id, 4) == [0, 0, 0, id]
  {
    assert id / 256 == 0 && id % 256 == id;
    assert BigEndian(0, 1) == [0] && BigEndian(0, 2) == [0, 0] && BigEndian(0, 3) == [0, 0, 0];
  }

  /** A job on the wire: its seven fields, one after the other. */
  lemma JobStands(j: RunningJobInfo, k: Bytes)
    ensures PutJob(j, k) ==
      Field(j.job) + (Field(j.acceptArguments.name) + (Field(j.acceptArguments.identity)
        + (Field(j.acceptArguments.metadata) + (Field(j.url) + (Field(j.token) + (Field(j.workerId) + k))))))
  {
    hide PutBytes, Field;
    var a := j.acceptArguments;
    var k7 := PutBytes(j.workerId, k);
    var k6 := PutBytes(j.token, k7);
    var k5 := PutBytes(j.url, k6);
    var k4 := PutBytes(a.metadata, k5);
    var k3 := PutBytes(a.identity, k4);
    var k2 := PutBytes(a.name, k3);
    FieldStands(j.workerId, k);
    FieldStands(j.token, k7);
    FieldStands(j.url, k6);
    FieldStands(a.metadata, k5);
    FieldStands(a.identity, k4);
    FieldStands(a.name, k3);
    FieldStands(j.job, k2);
  }

  lemma FieldStands(s: Bytes, k: Bytes)
    ensures PutBytes(s, k) == Field(s) + k
  {
    FieldsStand(s, 0, 0, false, k);
  }

  /** Where the fields of each message stand, one after the other. */
  function Laid(fl: Floats, m: Message, k: Bytes): Bytes
    requires Encodable(fl, m)
  {
    match m
    case InitializeRequest(debug, i, t, h, proxy) =>
      [if debug then 1 else 0] + (fl.pack(i).value + (fl.pack(t).value + (fl.pack(h).value + (Field(proxy) + k))))
    case PongResponse(l, t) => BigEndian(l, 8) + (BigEndian(t, 8) + k)
    case InferenceRequest(me, id, d) => Field(me) + (Field(id) + (Field(d) + k))
    case InferenceResponse(id, d, e) =>
      Field(id) + (if d.Some? then [1] + (Field(d.value) + (Field(e) + k)) else [0] + (Field(e) + k))
    case TracingResponse(id, i) => Field(id) + (Field(i) + k)
    case ActiveJobsResponse(js, n) => BigEndian(|js|, 4) + PutJobs(js, BigEndian(n, 4) + k)
    case ReloadJobsResponse(js, n) => BigEndian(|js|, 4) + PutJobs(js, BigEndian(n, 4) + k)
    case PingRequest(t) => BigEndian(t, 8) + k
    case StartJobRequest(j) => PutJob(j, k)
    case InitializeResponse(e) => Field(e) + k
    case ShutdownRequest(r) => Field(r) + k
    case Exiting(r) => Field(r) + k
    case TracingRequest(id) => Field(id) + k
    case _ => k
  }

  lemma MessageStands(fl: Floats, m: Message, k: Bytes)
    requires Encodable(fl, m)
    ensures Put(fl, m, k) == Laid(fl, m, k)
  {
    hide PutBytes, PutBool, PutJobs, BigEndian, Field, Fits, JobsFit;
    match m
    case InitializeRequest(debug, i, t, h, proxy) =>
      FieldStands(proxy, k);
      FieldsStand([], 0, 0, debug, PutFloat(fl, i, PutFloat(fl, t, PutFloat(fl, h, PutBytes(proxy, k)))));
    case InferenceRequest(me, id, d) =>
      FieldStands(d, k);
      FieldStands(id, PutBytes(d, k));
      FieldStands(me, PutBytes(id, PutBytes(d, k)));
    case InferenceResponse(id, d, e) =>
      FieldStands(e, k);
      if d.Some? { FieldStands(d.value, PutBytes(e, k)); }
      var rest := if d.Some? then PutBytes(d.value, PutBytes(e, k)) else PutBytes(e, k);
      FieldsStand(id, 0, 0, d.Some?, rest);
      FieldStands(id, PutBool(d.Some?, rest));
    case TracingResponse(id, i) =>
      FieldStands(i, k);
      FieldStands(id, PutBytes(i, k));
    case InitializeResponse(e) => FieldStands(e, k);
    case ShutdownRequest(r) => FieldStands(r, k);
    case Exiting(r) => FieldStands(r, k);
    case TracingRequest(id) => FieldStands(id, k);
    case _ =>
  }

  // ------------------------------------------------------------- reading it

  datatype ReadError = UnknownMessage(id: nat) | StructError | DecodeError

  function GetJob(bs: Bytes): (RunningJobInfo, Bytes) {
    var (job, r1) := GetBytes(bs);
    var (name, r2) := GetBytes(r1);
    var (identity, r3) := GetBytes(r2);
    var (metadata, r4) := GetBytes(r3);
    var (url, r5) := GetBytes(r4);
    var (token, r6) := GetBytes(r5);
    var (workerId, r7) := GetBytes(r6);
    (RunningJobInfo(JobAcceptArguments(name, identity, metadata, None), job, url, token, workerId), r7)
  }

  function GetJobs(n: nat, bs: Bytes): (seq<RunningJobInfo>, Bytes)
    decreases n
  {
    if n == 0 then ([], bs)
    else
      var (j, rest) := GetJob(bs);
      var (js, end) := GetJobs(n - 1, rest);
      ([j] + js, end)
  }

  function GetJobList(bs: Bytes): (seq<RunningJobInfo>, nat, Bytes) {
    var (n, r1) := GetNat(bs, 4);
    var (js, r2) := GetJobs(n, r1);
    var (count, r3) := GetNat(r2, 4);
    (js, count, r3)
  }

  type Parsed = Result<(Message, Bytes), ReadError>

  function GetInitialize(fl: Floats, bs: Bytes): Parsed {
    var (debug, r1) := GetBool(bs);
    if |r1| < 12 then Err(StructError)
    else
      var (proxy, r2) := GetBytes(r1[12..]);
      Ok((InitializeRequest(debug, fl.unpack(r1[..4]), fl.unpack(r1[4..8]), fl.unpack(r1[8..12]), proxy), r2))
  }

  function GetInferenceResponse(bs: Bytes): (Message, Bytes) {
    var (id, r1) := GetBytes(bs);
    var (hasData, r2) := GetBool(r1);
    if hasData then
      var (d, r3) := GetBytes(r2);
      var (e, r4) := GetBytes(r3);
      (InferenceResponse(id, Some(d), e), r4)
    else
      var (e, r3) := GetBytes(r2);
      (InferenceResponse(id, None, e), r3)
  }

  /** The `read` of the message class with this id, and what it leaves unread. */
  function Get(fl: Floats, p: Protocol, id: nat, bs: Bytes): Parsed {
    if p.Ipc? then
      match id
      case 0 => GetInitialize(fl, bs)
      case 1 => var (e, r) := GetBytes(bs); Ok((InitializeResponse(e), r))
      case 2 => var (t, r) := GetNat(bs, 8); Ok((PingRequest(t), r))
      case 3 => var (l, r1) := GetNat(bs, 8); var (t, r2) := GetNat(r1, 8); Ok((PongResponse(l, t), r2))
      case 4 => var (j, r) := GetJob(bs); Ok((StartJobRequest(j), r))
      case 5 => var (t, r) := GetBytes(bs); Ok((ShutdownRequest(t), r))
      case 6 => var (t, r) := GetBytes(bs); Ok((Exiting(t), r))
      case 7 =>
        var (me, r1) := GetBytes(bs);
        var (i, r2) := GetBytes(r1);
        var (d, r3) := GetBytes(r2);
        Ok((InferenceRequest(me, i, d), r3))
      case 8 => Ok(GetInferenceResponse(bs))
      case 9 => var (i, r) := GetBytes(bs); Ok((TracingRequest(i), r))
      case 10 => var (i, r1) := GetBytes(bs); var (info, r2) := GetBytes(r1); Ok((TracingResponse(i, info), r2))
      case _ => Err(UnknownMessage(id))
    else
      match id
      case 1 => Ok((ActiveJobsRequest, bs))
      case 2 => var (js, n, r) := GetJobList(bs); Ok((ActiveJobsResponse(js, n), r))
      case 3 => Ok((ReloadJobsRequest, bs))
      case 4 => var (js, n, r) := GetJobList(bs); Ok((ReloadJobsResponse(js, n), r))
      case 5 => Ok((Reloaded, bs))
      case _ => Err(UnknownMessage(id))
  }

  /** The id, then the fields as they stand in the bytes. */
  function Parse(fl: Floats, p: Protocol, bs: Bytes): Parsed {
    var (id, rest) := GetNat(bs, 4);
    Get(fl, p, id, rest)
  }

  /** Which bytes are UTF-8, a serialized job, and a pickle, and how floats are packed. */
  datatype Formats = Formats(utf8: Bytes -> bool, job: Bytes -> bool, pickle: Bytes -> bool, floats: Floats)

  predicate JobWellFormed(d: Formats, j: RunningJobInfo) {
    && d.job(j.job) && d.utf8(j.acceptArguments.name) && d.utf8(j.acceptArguments.identity)
    && d.utf8(j.acceptArguments.metadata) && d.utf8(j.url) && d.utf8(j.token) && d.utf8(j.workerId)
  }

  predicate JobsWellFormed(d: Formats, js: seq<RunningJobInfo>) {
    js == [] || (JobWellFormed(d, js[0]) && JobsWellFormed(d, js[1..]))
  }

  /** Every field of the message can be decoded. */
  predicate WellFormed(d: Formats, m: Message) {
    match m
    case InitializeRequest(_, _, _, _, proxy) => d.utf8(proxy)
    case InitializeResponse(e) => d.utf8(e)
    case StartJobRequest(j) => JobWellFormed(d, j)
    case ShutdownRequest(r) => d.utf8(r)
    case Exiting(r) => d.utf8(r)
    case InferenceRequest(me, id, _) => d.utf8(me) && d.utf8(id)
    case InferenceResponse(id, _, e) => d.utf8(id) && d.utf8(e)
    case TracingRequest(id) => d.utf8(id)
    case TracingResponse(id, i) => d.utf8(id) && d.pickle(i)
    case ActiveJobsResponse(js, _) => JobsWellFormed(d, js)
    case ReloadJobsResponse(js, _) => JobsWellFormed(d, js)
    case _ => true
  }

  /** Refused if a field cannot be decoded. */
  function Checked(d: Formats, parsed: Parsed): Parsed {
    if parsed.Ok? && !WellFormed(d, parsed.value.0) then Err(DecodeError) else parsed
  }

  /** `_read_message`, with what is left unread: raises if a field cannot be decoded. */
  function Decode(d: Formats, p: Protocol, bs: Bytes): Parsed {
    Checked(d, Parse(d.floats, p, bs))
  }

  // --------------------------------------------- what fits and what decodes

  /** The strings of a message, those of its jobs apart. */
  function OwnStrings(m: Message): seq<Text> {
    match m
    case InitializeRequest(_, _, _, _, proxy) => [proxy]
    case InitializeResponse(e) => [e]
    case ShutdownRequest(r) => [r]
    case Exiting(r) => [r]
    case InferenceRequest(me, id, _) => [me, id]
    case InferenceResponse(id, _, e) => [id, e]
    case TracingRequest(id) => [id]
    case TracingResponse(id, _) => [id]
    case _ => []
  }

  /** Its bytes that are no strings: data, a result, a pickle. */
  function OwnBytes(m: Message): seq<Bytes> {
    match m
    case InferenceRequest(_, _, d) => [d]
    case InferenceResponse(_, d, _) => if d.Some? then [d.value] else []
    case TracingResponse(_, i) => [i]
    case _ => []
  }

  function JobsOf(m: Message): seq<RunningJobInfo> {
    match m
    case StartJobRequest(j) => [j]
    case ActiveJobsResponse(js, _) => js
    case ReloadJobsResponse(js, _) => js
    case _ => []
  }

  function JobStrings(j: RunningJobInfo): seq<Text> {
    [j.acceptArguments.name, j.acceptArguments.identity, j.acceptArguments.metadata, j.url, j.token, j.workerId]
  }

  /** The numbers in four bytes, and those in eight. */
  function Counts(m: Message): seq<int> {
    match m
    case ActiveJobsResponse(js, n) => [|js|, n]
    case ReloadJobsResponse(js, n) => [|js|, n]
    case _ => []
  }

  function Longs(m: Message): seq<int> {
    match m
    case PingRequest(t) => [t]
    case PongResponse(l, t) => [l, t]
    case _ => []
  }

  /** Less than 2^32 bytes. */
  predicate IsShort(s: Bytes) {
    |s| < 0x1_0000_0000
  }

  predicate ShortJob(j: RunningJobInfo) {
    IsShort(j.job) && forall s :: s in JobStrings(j) ==> IsShort(s)
  }

  lemma FitsFour(v: int)
    ensures Fits(v, 4) <==> 0 <= v < 0x1_0000_0000
  {
    FitsMeans(v, 4);
    assert Pow256(4) == 256 * (256 * (256 * (256 * Pow256(0))));
  }

  lemma FitsEight(v: int)
    ensures Fits(v, 8) <==> 0 <= v < 0x1_0000_0000_0000_0000
  {
    FitsMeans(v, 8);
    assert Pow256(4) == 256 * (256 * (256 * (256 * Pow256(0))));
    assert Pow256(8) == 256 * (256 * (256 * (256 * Pow256(4))));
  }

  lemma ShortMeans(s: Bytes)
    ensures TextFits(s) <==> IsShort(s)
  {
    FitsFour(|s|);
  }

  lemma ShortJobMeans(j: RunningJobInfo)
    ensures JobFits(j) <==> ShortJob(j)
  {
    hide TextFits, IsShort;
    forall s: Bytes
      ensures TextFits(s) <==> IsShort(s)
    {
      ShortMeans(s);
    }
    var ss := JobStrings(j);
    assert ss[0] in ss && ss[1] in ss && ss[2] in ss && ss[3] in ss && ss[4] in ss && ss[5] in ss;
  }

  lemma {:induction false} ShortJobsMean(js: seq<RunningJobInfo>)
    ensures JobsFit(js) <==> forall j :: j in js ==> ShortJob(j)
    decreases |js|
  {
    hide ShortJob, JobFits;
    if js != [] {
      ShortJobMeans(js[0]);
      ShortJobsMean(js[1..]);
      assert forall j :: j in js <==> j == js[0] || j in js[1..];
    }
  }

  ghost predicate AllFit(ss: seq<Bytes>) {
    forall s :: s in ss ==> TextFits(s)
  }

  ghost predicate NumbersFit(ns: seq<int>, width: nat) {
    forall n :: n in ns ==> Fits(n, width)
  }

  lemma EncodableParts(fl: Floats, m: Message)
    ensures Encodable(fl, m) <==>
      && AllFit(OwnStrings(m)) && AllFit(OwnBytes(m)) && JobsFit(JobsOf(m))
      && NumbersFit(Counts(m), 4) && NumbersFit(Longs(m), 8)
      && (m.InitializeRequest? ==> FloatsFit(fl, m.pingInterval, m.pingTimeout, m.highPingThreshold))
  {
    hide TextFits, JobFits, Fits, FloatsFit;
    OneJobFits(m);
    hide JobsFit;
    var ss, bs, cs, ls := OwnStrings(m), OwnBytes(m), Counts(m), Longs(m);
    assert |ss| > 0 ==> Nth(ss, 0) in ss;
    assert |ss| > 1 ==> Nth(ss, 1) in ss;
    assert |bs| > 0 ==> Nth(bs, 0) in bs;
    assert |cs| > 0 ==> Nth(cs, 0) in cs;
    assert |cs| > 1 ==> Nth(cs, 1) in cs;
    assert |ls| > 0 ==> Nth(ls, 0) in ls;
    assert |ls| > 1 ==> Nth(ls, 1) in ls;
  }

  function Nth<T>(s: seq<T>, n: nat): T
    requires n < |s|
  {
    s[n]
  }

  lemma OneJobFits(m: Message)
    ensures m.StartJobRequest? ==> (JobsFit(JobsOf(m)) <==> JobFits(m.runningJob))
    ensures JobsOf(m) == [] ==> JobsFit(JobsOf(m))
  {
    if m.StartJobRequest? {
      assert JobsOf(m)[1..] == [];
    }
  }

  /** A message can be encoded exactly if everything in it is in range: strings, bytes, numbers and floats. */
  lemma EncodableIff(fl: Floats, m: Message)
    ensures Encodable(fl, m) <==>
      && (forall s :: s in OwnStrings(m) || s in OwnBytes(m) ==> IsShort(s))
      && (forall j :: j in JobsOf(m) ==> ShortJob(j))
      && (forall n :: n in Counts(m) ==> 0 <= n < 0x1_0000_0000)
      && (forall n :: n in Longs(m) ==> 0 <= n < 0x1_0000_0000_0000_0000)
      && (m.InitializeRequest? ==>
            fl.pack(m.pingInterval).Some? && fl.pack(m.pingTimeout).Some? && fl.pack(m.highPingThreshold).Some?)
  {
    hide TextFits, IsShort, ShortJob, JobsFit, Fits, Encodable, OwnStrings, OwnBytes, JobsOf, Counts, Longs;
    EncodableParts(fl, m);
    forall s: Bytes
      ensures TextFits(s) <==> IsShort(s)
    {
      ShortMeans(s);
    }
    forall n: int
      ensures Fits(n, 4) <==> 0 <= n < 0x1_0000_0000
      ensures Fits(n, 8) <==> 0 <= n < 0x1_0000_0000_0000_0000
    {
      FitsFour(n);
      FitsEight(n);
    }
    ShortJobsMean(JobsOf(m));
  }

  predicate JobDecodes(d: Formats, j: RunningJobInfo) {
    d.job(j.job) && forall s :: s in JobStrings(j) ==> d.utf8(s)
  }

  lemma JobDecodesMeans(d: Formats, j: RunningJobInfo)
    ensures JobWellFormed(d, j) <==> JobDecodes(d, j)
  {
    var ss := JobStrings(j);
    assert ss[0] in ss && ss[1] in ss && ss[2] in ss && ss[3] in ss && ss[4] in ss && ss[5] in ss;
  }

  lemma {:induction false} JobsDecode(d: Formats, js: seq<RunningJobInfo>)
    ensures JobsWellFormed(d, js) <==> forall j :: j in js ==> JobDecodes(d, j)
    decreases |js|
  {
    hide JobDecodes, JobWellFormed;
    if js != [] {
      JobDecodesMeans(d, js[0]);
      JobsDecode(d, js[1..]);
      assert forall j :: j in js <==> j == js[0] || j in js[1..];
    }
  }

  /** It can be decoded exactly if all its strings are UTF-8, its jobs are serialized jobs and its trace is a pickle. */
  lemma WellFormedIff(d: Formats, m: Message)
    ensures WellFormed(d, m) <==>
      && (forall s :: s in OwnStrings(m) ==> d.utf8(s))
      && (forall j :: j in JobsOf(m) ==> JobDecodes(d, j))
      && (m.TracingResponse? ==> d.pickle(m.info))
  {
    hide JobDecodes, JobWellFormed;
    JobsDecode(d, JobsOf(m));
    if m.StartJobRequest? {
      JobDecodesMeans(d, m.runningJob);
    }
    hide JobsWellFormed;
  }

  // ------------------------------------------------------------- round trips

  /** What survives: everything but the accept attributes, which come back absent, and floats only rounded. */
  function ErasedJob(j: RunningJobInfo): RunningJobInfo {
    j.(acceptArguments := j.acceptArguments.(attributes := None))
  }

  function ErasedJobs(js: seq<RunningJobInfo>): (r: seq<RunningJobInfo>)
    ensures |r| == |js|
  {
    if js == [] then [] else [ErasedJob(js[0])] + ErasedJobs(js[1..])
  }

  function Erased(fl: Floats, m: Message): Message {
    match m
    case InitializeRequest(debug, i, t, h, proxy) =>
      InitializeRequest(debug, Rounded(fl, i), Rounded(fl, t), Rounded(fl, h), proxy)
    case StartJobRequest(j) => StartJobRequest(ErasedJob(j))
    case ActiveJobsResponse(js, n) => ActiveJobsResponse(ErasedJobs(js), n)
    case ReloadJobsResponse(js, n) => ReloadJobsResponse(ErasedJobs(js), n)
    case _ => m
  }

  lemma JobRoundTrip(j: RunningJobInfo, k: Bytes)
    requires JobFits(j)
    ensures GetJob(PutJob(j, k)) == (ErasedJob(j), k)
  {
    hide PutBytes, GetBytes;
    var a := j.acceptArguments;
    var k7 := PutBytes(j.workerId, k);
    var k6 := PutBytes(j.token, k7);
    var k5 := PutBytes(j.url, k6);
    var k4 := PutBytes(a.metadata, k5);
    var k3 := PutBytes(a.identity, k4);
    GetPutBytes(j.job, PutBytes(a.name, k3));
    GetPutBytes(a.name, k3);
    GetPutBytes(a.identity, k4);
    GetPutBytes(a.metadata, k5);
    GetPutBytes(j.url, k6);
    GetPutBytes(j.token, k7);
    GetPutBytes(j.workerId, k);
  }

  lemma {:induction false} JobsRoundTrip(js: seq<RunningJobInfo>, k: Bytes)
    requires JobsFit(js)
    ensures GetJobs(|js|, PutJobs(js, k)) == (ErasedJobs(js), k)
    decreases |js|
  {
    hide PutJob, GetJob, JobFits, ErasedJob;
    if js != [] {
      JobRoundTrip(js[0], PutJobs(js[1..], k));
      JobsRoundTrip(js[1..], k);
    }
  }

  lemma JobListRoundTrip(js: seq<RunningJobInfo>, n: nat, k: Bytes)
    requires JobListFits(js, n)
    ensures GetJobList(PutJobList(js, n, k)) == (ErasedJobs(js), n, k)
  {
    GetPutNat(|js|, 4, PutJobs(js, PutNat(n, 4, k)));
    JobsRoundTrip(js, PutNat(n, 4, k));
    GetPutNat(n, 4, k);
    hide PutNat, GetNat, PutJobs, GetJobs, ErasedJobs;
  }

  lemma InitializeRoundTrip(fl: Floats, debug: bool, i: Float8, t: Float8, h: Float8, proxy: Text, k: Bytes)
    requires FloatsFit(fl, i, t, h) && TextFits(proxy)
    ensures GetInitialize(fl, PutBool(debug, PutFloat(fl, i, PutFloat(fl, t, PutFloat(fl, h, PutBytes(proxy, k))))))
      == Ok((InitializeRequest(debug, Rounded(fl, i), Rounded(fl, t), Rounded(fl, h), proxy), k))
  {
    var k1 := PutBytes(proxy, k);
    var floats := PutFloat(fl, i, PutFloat(fl, t, PutFloat(fl, h, k1)));
    GetPutBool(debug, floats);
    GetPutBytes(proxy, k);
    hide PutBool, GetBool, PutBytes, GetBytes;
    ThreeFloats(fl.pack(i).value, fl.pack(t).value, fl.pack(h).value, k1);
  }

  lemma ThreeFloats(i: Float4, t: Float4, h: Float4, k: Bytes)
    ensures var floats := i + (t + (h + k));
      |floats| >= 12 && floats[..4] == i && floats[4..8] == t && floats[8..12] == h && floats[12..] == k
  {
    var th := t + (h + k);
    assert (i + th)[..4] == i && (i + th)[4..8] == th[..4] && (i + th)[8..12] == th[4..8] && (i + th)[12..] == th[8..];
    assert th[..4] == t && th[4..8] == (h + k)[..4] && th[8..] == (h + k)[4..];
  }

  lemma InferenceResponseRoundTrip(fl: Floats, id: Text, d: Option<Bytes>, e: Text, k: Bytes)
    requires TextFits(id) && (d.Some? ==> TextFits(d.value)) && TextFits(e)
    ensures GetInferenceResponse(Put(fl, InferenceResponse(id, d, e), k)) == (InferenceResponse(id, d, e), k)
  {
    var k3 := PutBytes(e, k);
    var k2 := if d.Some? then PutBytes(d.value, k3) else k3;
    GetPutBytes(id, PutBool(d.Some?, k2));
    GetPutBool(d.Some?, k2);
    if d.Some? { GetPutBytes(d.value, k3); }
    GetPutBytes(e, k);
    hide PutBool, GetBool, PutBytes, GetBytes, Fits, TextFits;
    assert Put(fl, InferenceResponse(id, d, e), k) == PutBytes(id, PutBool(d.Some?, k2));
  }

  /** Each reader consumes exactly what its writer wrote, whatever follows. */
  lemma FieldsRoundTrip(fl: Floats, m: Message, k: Bytes)
    requires Encodable(fl, m)
    ensures Get(fl, ProtocolOf(m), MsgId(m), Put(fl, m, k)) == Ok((Erased(fl, m), k))
  {
    hide PutNat, GetNat, PutBytes, GetBytes, PutBool, GetBool, PutJob, GetJob, PutJobList, GetJobList, GetInitialize;
    hide GetInferenceResponse, ErasedJobs, ErasedJob, JobFits, JobsFit, Rounded, PutFloat;
    match m
    case InitializeRequest(debug, i, t, h, proxy) => InitializeRoundTrip(fl, debug, i, t, h, proxy, k);
    case InitializeResponse(e) => GetPutBytes(e, k);
    case PingRequest(t) => GetPutNat(t, 8, k);
    case PongResponse(l, t) => GetPutNat(l, 8, PutNat(t, 8, k)); GetPutNat(t, 8, k);
    case StartJobRequest(j) => JobRoundTrip(j, k);
    case ShutdownRequest(r) => GetPutBytes(r, k);
    case Exiting(r) => GetPutBytes(r, k);
    case InferenceRequest(me, id, d) =>
      GetPutBytes(me, PutBytes(id, PutBytes(d, k)));
      GetPutBytes(id, PutBytes(d, k));
      GetPutBytes(d, k);
    case InferenceResponse(id, d, e) => InferenceResponseRoundTrip(fl, id, d, e, k);
    case TracingRequest(id) => GetPutBytes(id, k);
    case TracingResponse(id, i) => GetPutBytes(id, PutBytes(i, k)); GetPutBytes(i, k);
    case ActiveJobsResponse(js, n) => JobListRoundTrip(js, n, k);
    case ReloadJobsResponse(js, n) => JobListRoundTrip(js, n, k);
    case _ =>
  }

  lemma {:induction false} PutJobsAppends(js: seq<RunningJobInfo>, a: Bytes, k: Bytes)
    ensures PutJobs(js, a + k) == PutJobs(js, a) + k
    decreases |js|
  {
    hide PutJob;
    if js != [] {
      PutJobsAppends(js[1..], a, k);
      PutJobAppends(js[0], PutJobs(js[1..], a), k);
    }
  }

  lemma PutBytesAppends(s: Bytes, a: Bytes, k: Bytes)
    ensures PutBytes(s, a + k) == PutBytes(s, a) + k
  {
    assert s + (a + k) == s + a + k;
    PutNatAppends(|s|, 4, s + a, k);
  }

  lemma PutNatAppends(v: nat, width: nat, a: Bytes, k: Bytes)
    ensures PutNat(v, width, a + k) == PutNat(v, width, a) + k
  {
    Assoc(BigEndian(v, width), a, k);
  }

  lemma PutJobAppends(j: RunningJobInfo, a: Bytes, k: Bytes)
    ensures PutJob(j, a + k) == PutJob(j, a) + k
  {
    hide PutBytes;
    var c := j.acceptArguments;
    var a7 := PutBytes(j.workerId, a);
    var a6 := PutBytes(j.token, a7);
    var a5 := PutBytes(j.url, a6);
    var a4 := PutBytes(c.metadata, a5);
    var a3 := PutBytes(c.identity, a4);
    PutBytesAppends(j.workerId, a, k);
    PutBytesAppends(j.token, a7, k);
    PutBytesAppends(j.url, a6, k);
    PutBytesAppends(c.metadata, a5, k);
    PutBytesAppends(c.identity, a4, k);
    PutBytesAppends(c.name, a3, k);
    PutBytesAppends(j.job, PutBytes(c.name, a3), k);
  }

  lemma PutAppends(fl: Floats, m: Message, k: Bytes)
    requires Encodable(fl, m)
    ensures Put(fl, m, k) == Put(fl, m, []) + k
  {
    assert [] + k == k;
    hide PutNat, PutBytes, PutBool, PutJob, PutFloat, JobFits, JobsFit, TextFits, Fits;
    match m
    case InitializeRequest(debug, i, t, h, proxy) => InitializeAppends(fl, debug, i, t, h, proxy, k);
    case InitializeResponse(e) => PutBytesAppends(e, [], k);
    case PingRequest(t) => PutNatAppends(t, 8, [], k);
    case PongResponse(l, t) => PutNatAppends(t, 8, [], k); PutNatAppends(l, 8, PutNat(t, 8, []), k);
    case StartJobRequest(j) => PutJobAppends(j, [], k);
    case ShutdownRequest(r) => PutBytesAppends(r, [], k);
    case Exiting(r) => PutBytesAppends(r, [], k);
    case InferenceRequest(me, id, d) =>
      PutBytesAppends(d, [], k);
      PutBytesAppends(id, PutBytes(d, []), k);
      PutBytesAppends(me, PutBytes(id, PutBytes(d, [])), k);
    case InferenceResponse(id, d, e) =>
      PutBytesAppends(e, [], k);
      if d.Some? { PutBytesAppends(d.value, PutBytes(e, []), k); }
      var a := if d.Some? then PutBytes(d.value, PutBytes(e, [])) else PutBytes(e, []);
      PutBoolAppends(d.Some?, a, k);
      PutBytesAppends(id, PutBool(d.Some?, a), k);
    case TracingRequest(id) => PutBytesAppends(id, [], k);
    case TracingResponse(id, i) => PutBytesAppends(i, [], k); PutBytesAppends(id, PutBytes(i, []), k);
    case ActiveJobsResponse(js, n) => PutJobListAppends(js, n, k);
    case ReloadJobsResponse(js, n) => PutJobListAppends(js, n, k);
    case _ =>
  }

  lemma PutBoolAppends(v: bool, a: Bytes, k: Bytes)
    ensures PutBool(v, a + k) == PutBool(v, a) + k
  {
    PutNatAppends(if v then 1 else 0, 1, a, k);
  }

  lemma InitializeAppends(fl: Floats, debug: bool, i: Float8, t: Float8, h: Float8, proxy: Text, k: Bytes)
    ensures PutBool(debug, PutFloat(fl, i, PutFloat(fl, t, PutFloat(fl, h, PutBytes(proxy, k)))))
      == PutBool(debug, PutFloat(fl, i, PutFloat(fl, t, PutFloat(fl, h, PutBytes(proxy, []))))) + k
  {
    assert [] + k == k;
    PutBytesAppends(proxy, [], k);
    hide PutBytes, PutBool, PutFloat;
    var a1 := PutBytes(proxy, []);
    var a2 := PutFloat(fl, h, a1);
    var a3 := PutFloat(fl, t, a2);
    PutFloatAppends(fl, h, a1, k);
    PutFloatAppends(fl, t, a2, k);
    PutFloatAppends(fl, i, a3, k);
    PutBoolAppends(debug, PutFloat(fl, i, a3), k);
  }

  lemma PutFloatAppends(fl: Floats, x: Float8, a: Bytes, k: Bytes)
    ensures PutFloat(fl, x, a + k) == PutFloat(fl, x, a) + k
  {
    if fl.pack(x).Some? {
      Assoc(fl.pack(x).value, a, k);
    }
  }

  lemma PutJobListAppends(js: seq<RunningJobInfo>, n: nat, k: Bytes)
    ensures PutJobList(js, n, k) == PutJobList(js, n, []) + k
  {
    assert [] + k == k;
    PutNatAppends(n, 4, [], k);
    PutJobsAppends(js, PutNat(n, 4, []), k);
    PutNatAppends(|js|, 4, PutJobs(js, PutNat(n, 4, [])), k);
    hide PutNat, PutJobs;
  }

  /** The id always fits its field. */
  lemma IdFits(m: Message)
    ensures Magnitude(MsgId(m), 4)
  {
    assert MsgId(m) / 256 == 0;
  }

  /** The fields read back from an encoding, whatever bytes come after it. */
  lemma ParseRoundTrip(fl: Floats, m: Message, more: Bytes)
    requires Encodable(fl, m)
    ensures Parse(fl, ProtocolOf(m), Encode(fl, m) + more) == Ok((Erased(fl, m), more))
  {
    hide Put, Get;
    IdFits(m);
    PutAppends(fl, m, more);
    PutNatAppends(MsgId(m), 4, Put(fl, m, []), more);
    GetPutNat(MsgId(m), 4, Put(fl, m, more));
    FieldsRoundTrip(fl, m, more);
    hide PutNat, GetNat;
  }

  lemma {:induction false} ErasedWellFormed(d: Formats, js: seq<RunningJobInfo>)
    ensures JobsWellFormed(d, ErasedJobs(js)) <==> JobsWellFormed(d, js)
    decreases |js|
  {
    if js != [] {
      ErasedWellFormed(d, js[1..]);
      assert ErasedJobs(js)[1..] == ErasedJobs(js[1..]);
    }
  }

  lemma SameFormats(d: Formats, m: Message)
    ensures WellFormed(d, Erased(d.floats, m)) <==> WellFormed(d, m)
  {
    match m
    case ActiveJobsResponse(js, _) => ErasedWellFormed(d, js);
    case ReloadJobsResponse(js, _) => ErasedWellFormed(d, js);
    case _ =>
  }

  /**
    A message read back from its encoding, whatever bytes come after it: only
    accept attributes are lost, and what floats have beyond single precision.
   */
  lemma MessageRoundTrip(d: Formats, m: Message, more: Bytes)
    requires Encodable(d.floats, m) && WellFormed(d, m)
    ensures Decode(d, ProtocolOf(m), Encode(d.floats, m) + more) == Ok((Erased(d.floats, m), more))
  {
    hide Parse, Encode, WellFormed, Encodable, Erased;
    ParseRoundTrip(d.floats, m, more);
    SameFormats(d, m);
  }

  /** A float that packing leaves as it is. */
  predicate IsSingle(fl: Floats, x: Float8) {
    fl.pack(x).Some? && fl.unpack(fl.pack(x).value) == x
  }

  predicate AllSingle(fl: Floats, m: Message) {
    m.InitializeRequest? ==>
      IsSingle(fl, m.pingInterval) && IsSingle(fl, m.pingTimeout) && IsSingle(fl, m.highPingThreshold)
  }

  predicate NoAttributes(m: Message) {
    match m
    case StartJobRequest(j) => j.acceptArguments.attributes.None?
    case ActiveJobsResponse(js, _) => forall j :: j in js ==> j.acceptArguments.attributes.None?
    case ReloadJobsResponse(js, _) => forall j :: j in js ==> j.acceptArguments.attributes.None?
    case _ => true
  }

  lemma {:induction false} ErasedJobsAt(js: seq<RunningJobInfo>)
    ensures forall i :: 0 <= i < |js| ==> ErasedJobs(js)[i] == ErasedJob(js[i])
    decreases |js|
  {
    if js != [] {
      ErasedJobsAt(js[1..]);
      assert forall i :: 0 < i < |js| ==> ErasedJobs(js)[i] == ErasedJobs(js[1..])[i - 1];
    }
  }

  lemma ErasedJobsSame(js: seq<RunningJobInfo>)
    ensures ErasedJobs(js) == js <==> forall j :: j in js ==> j.acceptArguments.attributes.None?
  {
    ErasedJobsAt(js);
    forall j | j in js && ErasedJobs(js) == js
      ensures j.acceptArguments.attributes.None?
    {
      var i :| 0 <= i < |js| && js[i] == j;
      assert ErasedJobs(js)[i] == ErasedJob(j);
    }
  }

  /** The round trip is the identity exactly without accept attributes and with single-precision floats. */
  lemma LosslessIff(d: Formats, m: Message)
    requires Encodable(d.floats, m) && WellFormed(d, m)
    ensures Decode(d, ProtocolOf(m), Encode(d.floats, m)) == Ok((m, [])) <==> NoAttributes(m) && AllSingle(d.floats, m)
  {
    hide *;
    MessageRoundTrip(d, m, []);
    assert Encode(d.floats, m) + [] == Encode(d.floats, m);
    ErasedSame(d.floats, m);
  }

  lemma ErasedSame(fl: Floats, m: Message)
    requires Encodable(fl, m)
    ensures Erased(fl, m) == m <==> NoAttributes(m) && AllSingle(fl, m)
  {
    match m
    case ActiveJobsResponse(js, _) => ErasedJobsSame(js);
    case ReloadJobsResponse(js, _) => ErasedJobsSame(js);
    case _ =>
  }

  /**
    No encoding is confused with another: in one protocol, messages whose encodings start
    the same byte string are the same up to what is lost, and end at the same place.
   */
  lemma EncodingsAreUnambiguous(fl: Floats, m: Message, n: Message, r: Bytes, s: Bytes)
    requires Encodable(fl, m) && Encodable(fl, n) && ProtocolOf(m) == ProtocolOf(n)
    requires Encode(fl, m) + r == Encode(fl, n) + s
    ensures Erased(fl, m) == Erased(fl, n) && r == s
  {
    ParseRoundTrip(fl, m, r);
    ParseRoundTrip(fl, n, s);
  }
}
