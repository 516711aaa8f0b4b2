/** What a failed write can do to a session that goes on: to the client, when part of
    a reply is outstanding; to the server, when the rest of a body looks like a
    request. */
module SessionFaults {
  import opened Wire
  import opened Session
  import opened Framing
  import opened SessionTheorems
  import opened SessionRefinement
  import opened SessionProgress
  import opened SessionRuns
  import opened SessionLimits
  import ResumeDownload

  // ---- the client goes on with a reply outstanding ----

  const BAIT := Response(STATUS_OK, 1, [])

  /** A file that holds a response, and behind it a byte that passes for its data. */
  function Trap(a: byte, b: byte, c: byte, rest: seq<byte>): seq<byte> {
    [a, b] + (EncodeResponse(BAIT) + ([c] + rest))
  }

  lemma TrapParts(a: byte, b: byte, c: byte, rest: seq<byte>)
    ensures var d := Trap(a, b, c, rest);
            && |d| == 2 + RESPONSE_SIZE + 1 + |rest| && d[..1] == [a]
            && d[2..][..RESPONSE_SIZE] == EncodeResponse(BAIT) && d[2..][RESPONSE_SIZE..][..1] == [c]
  {
    hide EncodeResponse;
    var e := EncodeResponse(BAIT);
    var tail := e + ([c] + rest);
    assert Trap(a, b, c, rest)[2..] == tail;
    assert tail[..RESPONSE_SIZE] == e && tail[RESPONSE_SIZE..] == [c] + rest;
  }

  /** A download has begun: the local file is empty, all the data in the channel. */
  lemma Opens(s: State, path: Name, remote: Name) returns (run: seq<Step>, t: State)
    requires Fresh(s) && IsFile(s.disk, remote) && !Denied(remote) && Cut(remote) == remote
    requires 0 < |s.disk[remote].data| < U32_LIMIT
    ensures var data, cmd := s.disk[remote].data, Download(remote, path);
            && IsRun(s, [Begin(cmd)] + run) && Final(s, [Begin(cmd)] + run) == t && AllMove(run)
            && t.client == CBody(cmd, |data|) && t.up && t.server == SHead([]) && t.c2s == [] && t.disk == s.disk
            && path in t.local && t.local[path] == [] && t.s2c == data
  {
    hide EncodeRequest, EncodeResponse, Denied, Leads;
    var data, cmd := s.disk[remote].data, Download(remote, path);
    var s0 := Apply(s, Begin(cmd));
    var v := Fetch(s, cmd, false, remote, 0);
    var (r, sent) := Answered(s.disk, remote, 0);
    assert sent == data[0..] == data && r.dataLen == |data| && r.status == STATUS_OK;
    t := ClientReply(v, cmd, false, r);
    run :| Leads(s0, run, t) && AllMove(run);
    LeadsIsRun(s0, run, t);
    var all := [Begin(cmd)] + run;
    assert all[1..] == run && Legal(s, Begin(cmd));
  }

  /** ... and breaks off when the write of its first two bytes takes only one. */
  lemma BreaksOff(s: State, path: Name, remote: Name) returns (run: seq<Step>, t: State)
    requires Fresh(s) && IsFile(s.disk, remote) && !Denied(remote) && Cut(remote) == remote
    requires 2 < |s.disk[remote].data| < U32_LIMIT
    ensures var data := s.disk[remote].data;
            && IsRun(s, run) && Final(s, run) == t && ResumeDownload.AllowedRun(run, path, remote)
            && t.client.CReady? && t.up && !Settled(t) && t.c2s == [] && t.server == SHead([]) && t.disk == s.disk
            && path in t.local && t.local[path] == data[..1] && t.s2c == data[2..]
  {
    hide Apply, Enabled, Acceptable, NoMagic, CutName, Denied, LinkInv, CodecInv, HistoryInv, Tells;
    var cmd, st := Download(remote, path), ClientReceives(2, 1);
    var moves, u := Opens(s, path, remote);
    var before := [Begin(cmd)] + moves;
    FreshInv(s);
    SessionRun(s, before);
    ShortStep(u, path, remote);
    t := Apply(u, st);
    run := before + [st];
    RunAppend(s, before, st);
    OnlyDownload(run, cmd, path, remote);
  }

  lemma OnlyDownload(run: seq<Step>, cmd: Command, path: Name, remote: Name)
    requires cmd == Download(remote, path) && Cut(remote) == remote
    requires forall i :: 0 <= i < |run| && run[i].Begin? ==> run[i] == Begin(cmd)
    ensures ResumeDownload.AllowedRun(run, path, remote)
  {
  }

  lemma ShortStep(s: State, path: Name, remote: Name)
    requires ClientInv(s) && s.client.CBody? && s.client.cmd == Download(remote, path) && s.client.remaining > 2
    requires |s.s2c| > 2 && path in s.local && s.local[path] == []
    ensures Legal(s, ClientReceives(2, 1))
    ensures var t := Apply(s, ClientReceives(2, 1));
            && t.client.CReady? && !Settled(t) && t.up == s.up && t.c2s == s.c2s && t.server == s.server
            && t.disk == s.disk && path in t.local && t.local[path] == s.s2c[..1] && t.s2c == s.s2c[2..]
  {
    assert s.s2c[..2][..1] == s.s2c[..1] && [] + s.s2c[..1] == s.s2c[..1];
  }

  /** The client takes the bait for the response to its next request, empties the file,
      and writes the byte behind the bait. */
  lemma TakesBait(s: State, path: Name, remote: Name, c: byte) returns (t: State, u: State)
    requires s.client.CReady? && s.up && path in s.local && |s.s2c| > RESPONSE_SIZE
    requires s.s2c[..RESPONSE_SIZE] == EncodeResponse(BAIT) && s.s2c[RESPONSE_SIZE..][..1] == [c]
    ensures var start := Apply(s, Begin(DownloadResume(remote, path)));
            && Can(start, t) && path in t.local && t.local[path] == []
            && Can(start, u) && u.client.CReady? && path in u.local && u.local[path] == [c] && u.disk == s.disk
  {
    hide EncodeRequest, EncodeResponse, DecodeResponse, Can;
    var cmd := CutName(DownloadResume(remote, path));
    var start := Apply(s, Begin(DownloadResume(remote, path)));
    assert start.client == CAwait(cmd, false, []) && start.s2c == s.s2c && start.disk == s.disk;
    assert ValidResponse(BAIT);
    ResponseRoundTrip(BAIT);
    ReadResponse(start);
    t := ClientReply(Took(start, RESPONSE_SIZE), cmd, false, BAIT);
    assert t.client == CBody(cmd, 1) && t.s2c == s.s2c[RESPONSE_SIZE..];
    hide ClientReply, BeginCommand, Apply;
    TakeBody(t);
    u := Grown(t, 1);
    CanThen(start, t, u);
    assert [] + [c] == [c];
  }

  /** A client that goes on after a short write can lose what it has and end up with a
      file that is no prefix: a run of acceptable commands that breaks off a download,
      with the local file a prefix, and an attempt to resume on the same connection. */
  lemma GoingOnCorrupts(s: State, path: Name, remote: Name, a: byte, b: byte, c: byte, rest: seq<byte>)
    returns (run: seq<Step>, mid: State, t: State, u: State)
    requires Fresh(s) && !Denied(remote) && Cut(remote) == remote && a != c && |rest| < U32_LIMIT - 267
    requires remote in s.disk && s.disk[remote] == File(Trap(a, b, c, rest))
    ensures IsRun(s, run) && ResumeDownload.AllowedRun(run, path, remote) && mid == Final(s, run)
    ensures mid.client.CReady? && mid.up && !Settled(mid)
    ensures path in mid.local && mid.local[path] == [a] <= s.disk[remote].data
    ensures var start := Apply(mid, Begin(DownloadResume(remote, path)));
            && Can(start, t) && path in t.local && LocalSize(t.local, path) < LocalSize(mid.local, path)
            && Can(start, u) && u.client.CReady? && u.disk == s.disk
            && path in u.local && !(u.local[path] <= s.disk[remote].data)
  {
    hide Trap, Can, Apply, EncodeResponse, IsRun, Denied;
    TrapParts(a, b, c, rest);
    run, mid := BreaksOff(s, path, remote);
    t, u := TakesBait(mid, path, remote, c);
    assert s.disk[remote].data[0] == s.disk[remote].data[..1][0];
  }

  // ---- the server goes on in an abandoned body ----

  /** No new command and no new connection. */
  predicate SameRequest(run: seq<Step>) {
    forall i :: 0 <= i < |run| ==> !run[i].Begin? && !run[i].Reconnect?
  }

  /** Whatever fails from here on, the server decodes no request but the client's. */
  ghost predicate DecodesOnlySent(s: State) {
    forall run, t :: Leads(s, run, t) && SameRequest(run) ==> t.handled <= t.requests
  }

  /** The upload goes on, or is over. */
  predicate StillUploads(s: State, cmd: Command, body: seq<byte>) {
    && s.x.body == body
    && (|| s.client.CReady? || s.client.CFailed?
        || ((s.client.CSend? || (s.client.CAwait? && !s.client.probe)) && s.client.cmd == cmd))
  }

  predicate Uploading(cmd: Command) { cmd.Upload? || cmd.UploadResume? }

  lemma StepUploads(s: State, st: Step, cmd: Command, body: seq<byte>)
    requires Uploading(cmd) && StillUploads(s, cmd, body) && Enabled(s, st) && !st.Begin? && !st.Reconnect?
    ensures StillUploads(Apply(s, st), cmd, body)
  {
    hide ClientRecv, ServerRecv;
    match st
    case ClientReceives(k, w) => ClientUploads(s, k, w, cmd);
    case ServerReceives(k, w) => ServerUploads(s, k, w);
    case _ =>
  }

  lemma ClientUploads(s: State, k: nat, w: nat, cmd: Command)
    requires CanClientRecv(s, k, w) && Uploading(cmd) && s.client.CAwait? && !s.client.probe && s.client.cmd == cmd
    ensures var t := ClientRecv(s, k, w);
            t.x.body == s.x.body && (t.client.CReady? || (t.client.CAwait? && !t.client.probe && t.client.cmd == cmd))
  {
    hide StartUpload, DecodeResponse;
  }

  lemma ServerUploads(s: State, k: nat, w: nat)
    requires CanServerRecv(s, k, w)
    ensures ServerRecv(s, k, w).x.body == s.x.body
  {
    hide Handle, WriteAt, DecodeRequest;
    if s.server.SHead? && |s.server.buffer| + k == REQUEST_SIZE {
      HandleCounts(Read(s, k), DecodeRequest(s.server.buffer + s.c2s[..k]));
    }
  }

  lemma {:induction false} RunUploads(s: State, run: seq<Step>, t: State, cmd: Command, body: seq<byte>)
    requires Uploading(cmd) && StillUploads(s, cmd, body) && NoMagic(body) && Leads(s, run, t) && SameRequest(run)
    ensures IsRun(s, run) && Final(s, run) == t
    decreases |run|
  {
    hide Enabled, Apply, StillUploads, NoMagic;
    if run == [] {
    } else {
      StepUploads(s, run[0], cmd, body);
      StepIsLegal(s, run[0], cmd, body);
      RunUploads(Apply(s, run[0]), run[1..], t, cmd, body);
    }
  }

  lemma StepIsLegal(s: State, st: Step, cmd: Command, body: seq<byte>)
    requires StillUploads(s, cmd, body) && NoMagic(body) && Enabled(s, st) && !st.Begin?
    ensures Legal(s, st)
  {
    hide NoMagic, Enabled;
  }

  /** An upload of a body is about to be sent, from the offset on, to a server that will
      accept it. */
  ghost predicate Starts(s: State, cmd: Command, offset: nat) {
    && Uploads(s, cmd, offset) && s.s2c == [] && 0 < |s.local[cmd.path]| - offset < U32_LIMIT
    && !Refuses(s.disk, cmd.remote) && (offset > 0 ==> IsFile(s.disk, cmd.remote))
    && SessionInv(StartUpload(s, cmd, cmd.path, cmd.remote, offset))
  }

  lemma StartIs(s: State, cmd: Command, offset: nat)
    requires Uploads(s, cmd, offset) && offset < |s.local[cmd.path]|
    ensures var t := StartUpload(s, cmd, cmd.path, cmd.remote, offset);
            StillUploads(t, cmd, s.local[cmd.path][offset..]) && !t.x.seen && t.handled == s.handled
  {
    hide EncodeRequest;
  }

  lemma NoMagicSuffices(s: State, cmd: Command, offset: nat)
    requires Starts(s, cmd, offset) && NoMagic(s.local[cmd.path][offset..])
    ensures DecodesOnlySent(StartUpload(s, cmd, cmd.path, cmd.remote, offset))
  {
    hide Leads, Apply, NoMagic, Legal, Refuses, StartUpload, LinkInv, ClientInv, CodecInv, Tells;
    StartIs(s, cmd, offset);
    var start := StartUpload(s, cmd, cmd.path, cmd.remote, offset);
    forall run, t | Leads(start, run, t) && SameRequest(run) ensures t.handled <= t.requests {
      RunUploads(start, run, t, cmd, s.local[cmd.path][offset..]);
      SessionRun(start, run);
      assert t.handled <= t.requests;
    }
  }

  /** The server has the request, and the whole body in front of it. */
  lemma UploadArrives(s: State, cmd: Command, offset: nat) returns (t: State)
    requires Starts(s, cmd, offset)
    ensures var start, body := StartUpload(s, cmd, cmd.path, cmd.remote, offset), s.local[cmd.path][offset..];
            && Can(start, t)
            && t.server == SRecv(cmd.remote, offset, offset, |body|) && IsFile(t.disk, cmd.remote) && t.c2s == body
            && |t.requests| == |s.requests| + 1 && |t.handled| == |s.handled| + 1
  {
    hide EncodeRequest, DecodeRequest, Can, StartUpload, Handle, Refuses, SessionInv;
    var start, body := StartUpload(s, cmd, cmd.path, cmd.remote, offset), s.local[cmd.path][offset..];
    var u := SendUpload(s, cmd, offset);
    var r := Ask(CMD_UPLOAD, |body|, offset, cmd.remote);
    var b := EncodeRequest(r);
    assert [] + b + body == b + body;
    assert (b + body)[..REQUEST_SIZE] == b && (b + body)[REQUEST_SIZE..] == body;
    RequestRoundTrip(r);
    ReadHeader(u, b);
    UploadHandled(Read(u, REQUEST_SIZE), r);
    t := Handle(Read(u, REQUEST_SIZE), r);
    CanThen(start, u, t);
  }

  lemma UploadHandled(s: State, r: Request)
    requires r.magic == MAGIC && r.cmd == CMD_UPLOAD && r.dataLen > 0 && !Refuses(s.disk, r.filename)
    ensures var t := Handle(s, r);
            && t.server == SRecv(r.filename, r.offset, r.offset, r.dataLen) && IsFile(t.disk, r.filename) && t.c2s == s.c2s
            && t.requests == s.requests && t.handled == s.handled + [r]
  {
    hide Denied, EncodeResponse;
  }

  /** The write of one byte fails, and the server reads the next bytes as a header. */
  lemma ReadsOn(s: State) returns (t: State)
    requires s.server.SRecv? && s.server.remaining > 0 && IsFile(s.disk, s.server.name)
    requires |s.c2s| >= 1 + REQUEST_SIZE && s.c2s[1..5] == LittleEndian(MAGIC, 4)
    ensures Leads(s, [ServerReceives(1, 0), ServerReceives(REQUEST_SIZE, REQUEST_SIZE)], t)
    ensures |t.handled| == |s.handled| + 1 && t.requests == s.requests
  {
    hide Apply, Enabled, LittleEndian, FromLittleEndian, DecodeRequest, Handle, Leads;
    var first, second := ServerReceives(1, 0), ServerReceives(REQUEST_SIZE, REQUEST_SIZE);
    Abandons(s);
    var u := Apply(s, first);
    var b := u.c2s[..REQUEST_SIZE];
    assert b[..4] == u.c2s[..4] && s.c2s[1..][..4] == s.c2s[1..5];
    RoundTrip32(MAGIC);
    DecodedMagic(b);
    HeaderStep(u);
    HandleCounts(Read(u, REQUEST_SIZE), DecodeRequest(b));
    t := Apply(u, second);
    LeadsStep(s, first);
    LeadsStep(u, second);
    Chain(s, [first], u, [second], t);
    assert [first] + [second] == [first, second];
  }

  lemma Abandons(s: State)
    requires s.server.SRecv? && s.server.remaining > 0 && IsFile(s.disk, s.server.name) && s.c2s != []
    ensures Enabled(s, ServerReceives(1, 0))
    ensures var t := Apply(s, ServerReceives(1, 0));
            t.server == SHead([]) && t.c2s == s.c2s[1..] && t.handled == s.handled && t.requests == s.requests
  {
    hide WriteAt;
  }

  lemma HeaderStep(s: State)
    requires s.server == SHead([]) && |s.c2s| >= REQUEST_SIZE
    ensures var st := ServerReceives(REQUEST_SIZE, REQUEST_SIZE);
            && Enabled(s, st)
            && Apply(s, st) == Handle(Read(s, REQUEST_SIZE), DecodeRequest(s.c2s[..REQUEST_SIZE]))
  {
    hide Handle, DecodeRequest;
    assert [] + s.c2s[..REQUEST_SIZE] == s.c2s[..REQUEST_SIZE];
  }

  lemma DecodedMagic(b: seq<byte>)
    requires |b| == REQUEST_SIZE
    ensures DecodeRequest(b).magic == FromLittleEndian(b[..4])
  {
  }

  lemma HandleCounts(s: State, r: Request)
    ensures var t := Handle(s, r);
            && |t.handled| == |s.handled| + (if r.magic == MAGIC then 1 else 0)
            && t.requests == s.requests && t.x.body == s.x.body
  {
    hide Dispatch, Respond;
    match Dispatch(s.disk, r)
    case Answer(_, _) =>
    case Stream(_, _) =>
    case Receive(_) =>
  }

  /** For every body with the magic bytes at such a place: let the write of the byte
      before it fail, and the server decodes a request that was never sent. */
  lemma MagicIsDecoded(s: State, cmd: Command, offset: nat, i: nat) returns (run: seq<Step>, t: State)
    requires Starts(s, cmd, offset)
    requires var body := s.local[cmd.path][offset..];
             1 <= i <= |body| - REQUEST_SIZE && MagicAt(body, i)
    ensures Leads(StartUpload(s, cmd, cmd.path, cmd.remote, offset), run, t) && SameRequest(run)
    ensures |t.handled| == |s.handled| + 2 && |t.requests| == |s.requests| + 1
  {
    hide Apply, Leads, Refuses, LittleEndian, StartUpload, SessionInv;
    var body, start := s.local[cmd.path][offset..], StartUpload(s, cmd, cmd.path, cmd.remote, offset);
    var u := UploadArrives(s, cmd, offset);
    var v := StoreSome(u, i - 1);
    CanThen(start, u, v);
    assert v.c2s == body[i - 1..] && v.c2s[1..5] == body[i..i + 4];
    t := ReadsOn(v);
    var pre :| Leads(start, pre, v) && AllMove(pre);
    var last := [ServerReceives(1, 0), ServerReceives(REQUEST_SIZE, REQUEST_SIZE)];
    Chain(start, pre, v, last, t);
    run := pre + last;
  }

  /** The condition on failed server writes is exact: an upload, resumed or not, keeps the
      two parties in step through every fault if and only if its body has the magic bytes
      nowhere from the second byte on with a whole header left. */
  lemma MagicIsExact(s: State, cmd: Command, offset: nat)
    requires Starts(s, cmd, offset) && s.handled == s.requests
    ensures NoMagic(s.local[cmd.path][offset..]) <==> DecodesOnlySent(StartUpload(s, cmd, cmd.path, cmd.remote, offset))
  {
    hide Apply, Leads, Refuses, SessionInv, StartUpload;
    var body := s.local[cmd.path][offset..];
    if NoMagic(body) {
      hide NoMagic;
      NoMagicSuffices(s, cmd, offset);
    } else {
      var i :| 1 <= i <= |body| - REQUEST_SIZE && MagicAt(body, i);
      var run, t := MagicIsDecoded(s, cmd, offset, i);
      assert !(t.handled <= t.requests);
    }
  }

  /** In particular for a plain upload at any point of any session. */
  lemma UploadMagicIsExact(s: State, path: Name, remote: Name)
    requires SessionInv(s) && s.client.CReady? && s.up && Settled(s)
    requires path in s.local && 0 < |s.local[path]| < U32_LIMIT && !Refuses(s.disk, remote) && Cut(remote) == remote
    ensures NoMagic(s.local[path]) <==> DecodesOnlySent(Apply(s, Begin(Upload(path, remote))))
  {
    var cmd := Upload(path, remote);
    ReadyIsClean(s);
    InHistory(s);
    UploadIsLegal(s, path, remote);
    SessionStep(s, Begin(cmd));
    BeginsUpload(s, cmd);
    assert CutName(cmd) == cmd && s.local[path][0..] == s.local[path];
    hide SessionInv, NoMagic, Refuses, StartUpload, Legal, DecodesOnlySent;
    MagicIsExact(s, cmd, 0);
  }

  lemma InHistory(s: State)
    requires LinkInv(s) && ClientInv(s) && HistoryInv(s) && s.client.CReady? && s.up && Settled(s)
    ensures s.handled == s.requests
  {
    hide NoMagic;
  }

  lemma UploadIsLegal(s: State, path: Name, remote: Name)
    requires s.client.CReady? && s.up && Settled(s)
    requires path in s.local && |s.local[path]| < U32_LIMIT && !Refuses(s.disk, remote) && Cut(remote) == remote
    ensures Legal(s, Begin(Upload(path, remote)))
  {
    hide Refuses;
  }
}
