/** How far the framing promise goes: a command is carried out in step exactly when
    it is acceptable and the client has read the last reply to its end. */
module SessionLimits {
  import opened Wire
  import opened Session
  import opened Framing
  import opened SessionTheorems
  import opened SessionRefinement
  import opened SessionProgress
  import opened SessionRuns

  /** What one expects of a command while nothing breaks: as long as the client is not
      ready somebody can move, and when it is, both channels are empty and the files are
      what the command means. */
  ghost predicate AsExpected(s: State, cmd: Command, t: State) {
    && (t.client.CReady? ==>
          t.c2s == [] && t.s2c == [] && World(t.local, t.disk) == Exec(World(s.local, s.disk), CutName(cmd)))
    && (t.client.CReady? || exists st :: Moves(t, st))
  }

  ghost predicate Carried(s: State, cmd: Command)
    requires s.client.CReady? && s.up
  {
    forall t :: Can(Apply(s, Begin(cmd)), t) ==> AsExpected(s, cmd, t)
  }

  /** Ready for a command, with nothing in flight. */
  predicate Idle(s: State) {
    s.client.CReady? && s.up && s.server == SHead([]) && s.c2s == [] && s.s2c == []
  }

  // ---- sufficient ----

  lemma {:induction false} LeadsIsRun(s: State, run: seq<Step>, t: State)
    requires Leads(s, run, t) && AllMove(run)
    ensures IsRun(s, run) && Final(s, run) == t
    decreases |run|
  {
    hide Enabled, Apply;
    if run == [] {
    } else {
      assert Legal(s, run[0]);
      LeadsIsRun(Apply(s, run[0]), run[1..], t);
    }
  }

  lemma AcceptableIsCarried(s: State, cmd: Command)
    requires SessionInv(s) && s.client.CReady? && s.up && Settled(s) && Acceptable(s.local, s.disk, CutName(cmd))
    ensures Carried(s, cmd)
  {
    hide SessionInv, Acceptable, CutName, Apply, Leads, Exec;
    forall t | Can(Apply(s, Begin(cmd)), t) ensures AsExpected(s, cmd, t) {
      var run :| Leads(Apply(s, Begin(cmd)), run, t) && AllMove(run);
      LeadsIsRun(Apply(s, Begin(cmd)), run, t);
      CommandCompletes(s, cmd, run);
    }
  }

  // ---- a download request is answered ----

  /** The two parts of the answer to a download request. */
  function Answered(disk: Disk, remote: Name, offset: nat): (Response, seq<byte>) {
    match SendFile(disk, remote, offset)
    case Stream(r, data) => (r, data)
    case Answer(_, r) => (r, [])
    case Receive(_) => (UPLOADED, [])
  }

  lemma AnswerIsValid(disk: Disk, remote: Name, offset: nat)
    ensures ValidResponse(Answered(disk, remote, offset).0)
  {
    hide Denied;
  }

  /** The request lies in front of the server: it answers, and sends all its data. */
  lemma Serve(s: State, r: Request) returns (t: State)
    requires s.server == SHead([]) && s.up && s.c2s == EncodeRequest(r) && ValidRequest(r)
    requires r.magic == MAGIC && r.cmd == CMD_DOWNLOAD
    ensures var (response, data) := Answered(s.disk, r.filename, r.offset);
            && Can(s, t) && t.s2c == s.s2c + (EncodeResponse(response) + data)
            && t.server == SHead([]) && t.c2s == [] && t.up && t.client == s.client && t.local == s.local
            && t.disk == s.disk && t.x.request == s.x.request
  {
    hide EncodeRequest, DecodeRequest, EncodeResponse, Handle, Answered, Can;
    RequestRoundTrip(r);
    var b := EncodeRequest(r);
    ReadHeader(s, b);
    var v := Read(s, REQUEST_SIZE);
    var u := Handle(v, r);
    assert b[REQUEST_SIZE..] == [];
    HandleDownload(v, r);
    t := SendRest(u);
    CanThen(s, u, t);
    var (response, data) := Answered(s.disk, r.filename, r.offset);
    assert s.s2c + EncodeResponse(response) + data == s.s2c + (EncodeResponse(response) + data);
  }

  lemma HandleDownload(s: State, r: Request)
    requires r.magic == MAGIC && r.cmd == CMD_DOWNLOAD && s.up
    ensures var (response, data) := Answered(s.disk, r.filename, r.offset);
            var t := Handle(s, r);
            && t.server == (if data == [] then SHead([]) else SSend(data))
            && t.s2c == s.s2c + EncodeResponse(response) && t.c2s == s.c2s && t.up && t.disk == s.disk
            && t.client == s.client && t.local == s.local && t.x.request == s.x.request
  {
    hide EncodeResponse, Session.SendFile;
  }

  /** ... and the client reads the response. */
  lemma Fetch(s: State, cmd: Command, probe: bool, remote: Name, offset: nat) returns (v: State)
    requires Idle(s) && |remote| < FIELD && NulFree(remote) && offset < U64_LIMIT
    ensures var (response, data) := Answered(s.disk, remote, offset);
            && Can(StartRequest(s, Ask(CMD_DOWNLOAD, 0, offset, remote), [], CAwait(cmd, probe, [])),
                   ClientReply(v, cmd, probe, response))
            && v.s2c == data && v.c2s == [] && v.server == SHead([]) && v.up
            && v.local == s.local && v.disk == s.disk && v.x.request.offset == offset
  {
    hide EncodeRequest, EncodeResponse, DecodeResponse, ClientReply;
    var r := Ask(CMD_DOWNLOAD, 0, offset, remote);
    var s1 := StartRequest(s, r, [], CAwait(cmd, probe, []));
    assert [] + EncodeRequest(r) == EncodeRequest(r);
    var u := Serve(s1, r);
    var (response, data) := Answered(s.disk, remote, offset);
    AnswerIsValid(s.disk, remote, offset);
    ResponseRoundTrip(response);
    var e := EncodeResponse(response);
    assert [] + (e + data) == e + data && (e + data)[..RESPONSE_SIZE] == e && (e + data)[RESPONSE_SIZE..] == data;
    ReadResponse(u);
    v := Took(u, RESPONSE_SIZE);
    CanThen(s1, u, ClientReply(v, cmd, probe, response));
  }

  /** The part of a length that its 32-bit field does not tell. */
  lemma Untold(n: nat)
    ensures U32(n) <= n && (n >= U32_LIMIT ==> n - U32(n) >= U32_LIMIT)
  {
  }

  /** Nothing in flight and nobody about to send: everybody waits. */
  lemma EverybodyWaits(t: State)
    requires t.server == SHead([]) && t.c2s == [] && t.s2c == [] && !t.client.CSend?
    ensures forall st :: !Moves(t, st)
  {
    hide Acceptable, NoMagic, CutName;
  }

  // ---- downloads that are not acceptable ----

  function Offset(s: State, cmd: Command): nat {
    if cmd.DownloadResume? then LocalSize(s.local, cmd.path) else 0
  }

  predicate Downloads(s: State, cmd: Command) {
    && Idle(s) && (cmd.Download? || cmd.DownloadResume?)
    && |cmd.remote| < FIELD && NulFree(cmd.remote) && Offset(s, cmd) < U64_LIMIT
    && !Denied(cmd.remote) && cmd.remote in s.disk
  }

  /** The response of a served download opens the local file. */
  lemma ReplyOpens(s: State, v: State, cmd: Command, r: Response)
    requires (cmd.Download? || cmd.DownloadResume?) && v.local == s.local && v.x.request.offset == Offset(s, cmd)
    requires r.status == if Offset(s, cmd) > 0 then STATUS_PARTIAL else STATUS_OK
    ensures var t := ClientReply(v, cmd, false, r);
            && t.client == (if r.dataLen == 0 then CReady else CBody(cmd, r.dataLen))
            && cmd.path in t.local && t.s2c == v.s2c && t.c2s == v.c2s && t.server == v.server && t.up == v.up
  {
  }

  lemma BeginsFetch(s: State, cmd: Command)
    requires cmd.Download? || cmd.DownloadResume?
    ensures BeginCommand(s, cmd) ==
            StartRequest(s, Ask(CMD_DOWNLOAD, 0, Offset(s, cmd), cmd.remote), [], CAwait(cmd, false, []))
  {
    hide EncodeRequest;
  }

  /** 2^32 bytes or more: the client stops after the remainder that the field tells,
      and the rest of the file stays in its channel. */
  lemma LongDownload(s: State, cmd: Command) returns (t: State)
    requires Downloads(s, cmd) && IsFile(s.disk, cmd.remote)
    requires |s.disk[cmd.remote].data| - Offset(s, cmd) >= U32_LIMIT
    ensures Can(BeginCommand(s, cmd), t) && t.client.CReady? && t.s2c != []
  {
    hide EncodeRequest, Can, ClientReply, BeginCommand, Denied;
    BeginsFetch(s, cmd);
    var offset := Offset(s, cmd);
    var v := Fetch(s, cmd, false, cmd.remote, offset);
    var (r, data) := Answered(s.disk, cmd.remote, offset);
    assert data == s.disk[cmd.remote].data[offset..] && r.dataLen == U32(|data|);
    Untold(|data|);
    ReplyOpens(s, v, cmd, r);
    t := ClientReply(v, cmd, false, r);
    if r.dataLen > 0 {
      var u := t;
      TakeBody(u);
      t := Grown(u, r.dataLen);
      CanThen(BeginCommand(s, cmd), u, t);
    }
  }

  /** A directory is announced as data, and none follows. */
  lemma DirectoryDownload(s: State, cmd: Command) returns (t: State)
    requires Downloads(s, cmd) && IsDir(s.disk, cmd.remote) && Offset(s, cmd) < DIR_SIZE
    ensures Can(BeginCommand(s, cmd), t) && !t.client.CReady? && forall st :: !Moves(t, st)
  {
    hide EncodeRequest, Can, ClientReply, BeginCommand, Denied, Moves;
    BeginsFetch(s, cmd);
    var offset := Offset(s, cmd);
    var v := Fetch(s, cmd, false, cmd.remote, offset);
    var (r, data) := Answered(s.disk, cmd.remote, offset);
    assert data == [] && r.dataLen == DIR_SIZE - offset;
    ReplyOpens(s, v, cmd, r);
    t := ClientReply(v, cmd, false, r);
    EverybodyWaits(t);
  }

  // ---- uploads that are not acceptable ----

  predicate Uploads(s: State, cmd: Command, offset: nat) {
    && s.server == SHead([]) && s.up && s.c2s == []
    && (cmd.Upload? || cmd.UploadResume?) && |cmd.remote| < FIELD && NulFree(cmd.remote)
    && cmd.path in s.local && offset <= |s.local[cmd.path]| && offset < U64_LIMIT
  }

  /** The server reads an upload request and as much of its body as it is told. */
  lemma Deposit(s: State, r: Request, body: seq<byte>) returns (t: State, response: Response)
    requires s.server == SHead([]) && s.up && s.c2s == EncodeRequest(r) + body && ValidRequest(r)
    requires r.magic == MAGIC && r.cmd == CMD_UPLOAD && r.dataLen <= |body|
    ensures Can(s, t) && t.server == SHead([]) && t.s2c == s.s2c + EncodeResponse(response) && ValidResponse(response)
    ensures t.c2s == body[if Refuses(s.disk, r.filename) then 0 else r.dataLen..]
    ensures t.client == s.client && t.local == s.local && t.up
  {
    hide EncodeRequest, DecodeRequest, EncodeResponse, Handle, Refuses, Can;
    RequestRoundTrip(r);
    var b := EncodeRequest(r);
    assert (b + body)[..REQUEST_SIZE] == b && (b + body)[REQUEST_SIZE..] == body;
    ReadHeader(s, b);
    var v := Read(s, REQUEST_SIZE);
    t := Handle(v, r);
    response := HandleUpload(v, r);
    if t.server.SRecv? {
      var u := t;
      t := StoreAll(u);
      CanThen(s, u, t);
    }
  }

  lemma HandleUpload(s: State, r: Request) returns (response: Response)
    requires r.magic == MAGIC && r.cmd == CMD_UPLOAD && s.up
    ensures var t := Handle(s, r);
            && ValidResponse(response) && t.c2s == s.c2s && t.up && t.client == s.client && t.local == s.local
            && if Refuses(s.disk, r.filename) || r.dataLen == 0 then
                 t.server == SHead([]) && t.s2c == s.s2c + EncodeResponse(response)
               else
                 && t.server == SRecv(r.filename, r.offset, r.offset, r.dataLen) && IsFile(t.disk, r.filename)
                 && t.s2c == s.s2c && response == UPLOADED
  {
    hide EncodeResponse, Denied;
    response := match RecvFile(s.disk, r.filename, r.offset) case Answer(_, a) => a case _ => UPLOADED;
  }

  /** A body that is refused, or longer than its field tells, stays in the channel while
      the client has its response. */
  lemma UploadLeftOver(s: State, cmd: Command, offset: nat) returns (t: State)
    requires Uploads(s, cmd, offset) && s.s2c == []
    requires |s.local[cmd.path]| - offset >= U32_LIMIT || (Refuses(s.disk, cmd.remote) && offset < |s.local[cmd.path]|)
    ensures Can(StartUpload(s, cmd, cmd.path, cmd.remote, offset), t) && t.client.CReady? && t.c2s != []
  {
    hide EncodeRequest, EncodeResponse, DecodeResponse, Can, StartUpload, Refuses;
    var start, body := StartUpload(s, cmd, cmd.path, cmd.remote, offset), s.local[cmd.path][offset..];
    var u := SendUpload(s, cmd, offset);
    var r := Ask(CMD_UPLOAD, U32(|body|), offset, cmd.remote);
    assert [] + EncodeRequest(r) + body == EncodeRequest(r) + body;
    Untold(|body|);
    var v, response := Deposit(u, r, body);
    CanThen(start, u, v);
    assert v.s2c == EncodeResponse(response);
    assert v.s2c[..RESPONSE_SIZE] == v.s2c;
    ResponseRoundTrip(response);
    ReadResponse(v);
    t := ClientReply(Took(v, RESPONSE_SIZE), cmd, false, response);
    CanThen(start, v, t);
  }

  /** With old bytes in its channel the client takes them for the response. */
  lemma UploadMisled(s: State, cmd: Command, offset: nat) returns (t: State)
    requires Uploads(s, cmd, offset) && |s.s2c| > RESPONSE_SIZE
    ensures Can(StartUpload(s, cmd, cmd.path, cmd.remote, offset), t) && t.client.CReady? && t.s2c != []
  {
    hide EncodeRequest, DecodeResponse, Can, StartUpload;
    var start := StartUpload(s, cmd, cmd.path, cmd.remote, offset);
    var u := SendUpload(s, cmd, offset);
    ReadResponse(u);
    t := ClientReply(Took(u, RESPONSE_SIZE), cmd, false, DecodeResponse(u.s2c[..RESPONSE_SIZE]));
    CanThen(start, u, t);
  }

  // ---- resumed uploads that are not acceptable ----

  predicate Resumes(s: State, cmd: Command) {
    && Idle(s) && cmd.UploadResume? && |cmd.remote| < FIELD && NulFree(cmd.remote)
    && cmd.path in s.local && |s.local[cmd.path]| < U64_LIMIT
  }

  /** The client after the response to its probe, when there is nothing to skip. */
  function Unprobed(v: State, r: Response): State { v.(replies := v.replies + [r], client := CReady) }

  lemma ProbeReply(v: State, cmd: Command, r: Response)
    requires cmd.UploadResume? && cmd.path in v.local
    ensures ClientReply(v, cmd, true, r) ==
            if r.status == STATUS_OK && r.dataLen > 0 then Unprobed(v, r).(client := CSkip(cmd, r.dataLen, r.dataLen))
            else StartUpload(Unprobed(v, r), cmd, cmd.path, cmd.remote, 0)
  {
    hide StartUpload;
  }

  lemma BeginsProbe(s: State, cmd: Command)
    requires Resumes(s, cmd)
    ensures BeginCommand(s, cmd) == StartRequest(s, Ask(CMD_DOWNLOAD, 0, 0, cmd.remote), [], CAwait(cmd, true, []))
  {
    hide EncodeRequest;
  }

  /** Skipping what the probe announced. */
  lemma SkipProbe(w: State, cmd: Command) returns (t: State)
    requires w.client.CSkip? && w.client.cmd == cmd && cmd.UploadResume? && cmd.path in w.local
    requires 0 < w.client.remaining == w.client.size <= |w.s2c|
    ensures t == Took(w, w.client.size)
    ensures Can(w, if w.client.size < U32(|w.local[cmd.path]|)
                   then StartUpload(t, cmd, cmd.path, cmd.remote, w.client.size) else t.(client := CReady))
  {
    hide Can, StartUpload;
    SkipAll(w);
    t := Took(w, w.client.size);
  }

  lemma ProbedDirectory(s: State, cmd: Command) returns (t: State)
    requires Resumes(s, cmd) && IsDir(s.disk, cmd.remote) && !Denied(cmd.remote)
    ensures Can(BeginCommand(s, cmd), t) && !t.client.CReady? && forall st :: !Moves(t, st)
  {
    hide EncodeRequest, Can, ClientReply, BeginCommand, Denied, Moves;
    BeginsProbe(s, cmd);
    var v := Fetch(s, cmd, true, cmd.remote, 0);
    var (r, data) := Answered(s.disk, cmd.remote, 0);
    assert data == [] && r.status == STATUS_OK && r.dataLen == DIR_SIZE;
    ProbeReply(v, cmd, r);
    t := ClientReply(v, cmd, true, r);
    EverybodyWaits(t);
  }

  lemma ProbedLongFile(s: State, cmd: Command) returns (t: State)
    requires Resumes(s, cmd) && IsFile(s.disk, cmd.remote) && !Denied(cmd.remote)
    requires |s.disk[cmd.remote].data| >= U32_LIMIT
    ensures Can(BeginCommand(s, cmd), t) && t.client.CReady? && t.s2c != []
  {
    hide EncodeRequest, Can, ClientReply, BeginCommand, Denied, StartUpload;
    BeginsProbe(s, cmd);
    var start := BeginCommand(s, cmd);
    var v := Fetch(s, cmd, true, cmd.remote, 0);
    var (r, data) := Answered(s.disk, cmd.remote, 0);
    assert data == s.disk[cmd.remote].data[0..] && r.status == STATUS_OK && r.dataLen == U32(|data|);
    Untold(|data|);
    ProbeReply(v, cmd, r);
    var w := ClientReply(v, cmd, true, r);
    if r.dataLen == 0 {
      t := UploadMisled(Unprobed(v, r), cmd, 0);
      CanThen(start, w, t);
    } else {
      var u := SkipProbe(w, cmd);
      if r.dataLen < U32(|w.local[cmd.path]|) {
        var next := StartUpload(u, cmd, cmd.path, cmd.remote, r.dataLen);
        t := UploadMisled(u, cmd, r.dataLen);
        CanThen(w, next, t);
      } else {
        t := u.(client := CReady);
      }
      CanThen(start, w, t);
    }
  }

  lemma ProbeRefused(s: State, cmd: Command) returns (t: State)
    requires Resumes(s, cmd) && Denied(cmd.remote) && s.local[cmd.path] != []
    ensures Can(BeginCommand(s, cmd), t) && t.client.CReady? && t.c2s != []
  {
    hide EncodeRequest, Can, ClientReply, BeginCommand, Denied, StartUpload;
    BeginsProbe(s, cmd);
    var v := Fetch(s, cmd, true, cmd.remote, 0);
    var (r, data) := Answered(s.disk, cmd.remote, 0);
    assert r.status == STATUS_DENIED && data == [];
    ProbeReply(v, cmd, r);
    t := UploadLeftOver(Unprobed(v, r), cmd, 0);
    CanThen(BeginCommand(s, cmd), ClientReply(v, cmd, true, r), t);
  }

  /** A local file of 2^32 bytes or more: its length wraps, so either too little is sent,
      or nothing because the copy looks longer than it. */
  lemma LongResume(s: State, cmd: Command) returns (t: State)
    requires Resumes(s, cmd) && !Refuses(s.disk, cmd.remote) && |s.local[cmd.path]| >= U32_LIMIT
    requires |FileData(s.disk, cmd.remote)| < U32_LIMIT
    ensures Can(BeginCommand(s, cmd), t) && t.client.CReady?
    ensures t.c2s != [] || World(t.local, t.disk) != Exec(World(s.local, s.disk), cmd)
  {
    hide EncodeRequest, Can, ClientReply, BeginCommand, Denied, StartUpload;
    BeginsProbe(s, cmd);
    var start, z := BeginCommand(s, cmd), |FileData(s.disk, cmd.remote)|;
    var v := Fetch(s, cmd, true, cmd.remote, 0);
    var (r, data) := Answered(s.disk, cmd.remote, 0);
    assert data == FileData(s.disk, cmd.remote) && r.dataLen == z && (z > 0 ==> r.status == STATUS_OK);
    ProbeReply(v, cmd, r);
    var w := ClientReply(v, cmd, true, r);
    if z == 0 {
      t := UploadLeftOver(Unprobed(v, r), cmd, 0);
      CanThen(start, w, t);
    } else {
      var u := SkipProbe(w, cmd);
      Untold(|s.local[cmd.path]|);
      if z < U32(|s.local[cmd.path]|) {
        var next := StartUpload(u, cmd, cmd.path, cmd.remote, z);
        t := UploadLeftOver(u, cmd, z);
        CanThen(w, next, t);
      } else {
        t := u.(client := CReady);
        NotUploaded(World(s.local, s.disk), cmd);
      }
      CanThen(start, w, t);
    }
  }

  lemma NotUploaded(w: World, cmd: Command)
    requires cmd.UploadResume? && cmd.path in w.local && !Refuses(w.disk, cmd.remote)
    requires 0 < |FileData(w.disk, cmd.remote)| < |w.local[cmd.path]|
    ensures Exec(w, cmd).disk != w.disk
  {
    hide Refuses;
    var have := FileData(w.disk, cmd.remote);
    assert |have + w.local[cmd.path][|have|..]| == |w.local[cmd.path]|;
    assert cmd.remote in w.disk;
  }

  // ---- exactly ----

  lemma BadDownload(s: State, cmd: Command) returns (t: State)
    requires Idle(s) && (cmd.Download? || cmd.DownloadResume?) && |cmd.remote| < FIELD && NulFree(cmd.remote)
    requires Offset(s, cmd) < U64_LIMIT && !DownloadOk(s.disk, cmd.remote, Offset(s, cmd))
    ensures Can(BeginCommand(s, cmd), t)
    ensures (t.client.CReady? && t.s2c != []) || (!t.client.CReady? && forall st :: !Moves(t, st))
  {
    hide Can, Moves, BeginCommand, Denied;
    if s.disk[cmd.remote].File? {
      t := LongDownload(s, cmd);
    } else {
      t := DirectoryDownload(s, cmd);
    }
  }

  lemma BadResume(s: State, cmd: Command) returns (t: State)
    requires Resumes(s, cmd)
    requires !UploadOk(s.local, s.disk, cmd.path, cmd.remote) || !DownloadOk(s.disk, cmd.remote, 0)
    ensures Can(BeginCommand(s, cmd), t)
    ensures || (!t.client.CReady? && forall st :: !Moves(t, st))
            || (t.client.CReady? && (t.c2s != [] || t.s2c != [] || World(t.local, t.disk) != Exec(World(s.local, s.disk), cmd)))
  {
    hide Can, Moves, BeginCommand, Denied, Exec;
    if !DownloadOk(s.disk, cmd.remote, 0) {
      if s.disk[cmd.remote].File? {
        t := ProbedLongFile(s, cmd);
      } else {
        t := ProbedDirectory(s, cmd);
      }
    } else if Denied(cmd.remote) && s.local[cmd.path] != [] {
      t := ProbeRefused(s, cmd);
    } else {
      t := LongResume(s, cmd);
    }
  }

  lemma BeginsUpload(s: State, cmd: Command)
    requires cmd.Upload? && cmd.path in s.local
    ensures BeginCommand(s, cmd) == StartUpload(s, cmd, cmd.path, cmd.remote, 0)
  {
    hide StartUpload;
  }

  lemma BadCommand(s: State, cmd: Command) returns (t: State)
    requires Idle(s) && !Acceptable(s.local, s.disk, cmd) && (!cmd.PrintDir? ==> |cmd.remote| < FIELD && NulFree(cmd.remote))
    requires forall p :: p in s.local ==> |s.local[p]| < U64_LIMIT
    ensures Can(BeginCommand(s, cmd), t)
    ensures || (!t.client.CReady? && forall st :: !Moves(t, st))
            || (t.client.CReady? && (t.c2s != [] || t.s2c != [] || World(t.local, t.disk) != Exec(World(s.local, s.disk), cmd)))
  {
    hide Can, Moves, BeginCommand, Denied, Exec, StartUpload;
    if cmd.UploadResume? {
      t := BadResume(s, cmd);
    } else if cmd.Upload? {
      BeginsUpload(s, cmd);
      t := UploadLeftOver(s, cmd, 0);
    } else {
      t := BadDownload(s, cmd);
    }
  }

  /** Acceptable is exact: at any point of any session where the client has read the last
      reply to its end, the next command is carried out as expected, for every chunking,
      if and only if it is acceptable. */
  lemma AcceptableIsExact(s: State, cmd: Command)
    requires SessionInv(s) && s.client.CReady? && s.up && Settled(s)
    requires forall p :: p in s.local ==> |s.local[p]| < U64_LIMIT
    ensures Carried(s, cmd) <==> Acceptable(s.local, s.disk, CutName(cmd))
  {
    if Acceptable(s.local, s.disk, CutName(cmd)) {
      hide SessionInv;
      AcceptableIsCarried(s, cmd);
    } else {
      ReadyIsClean(s);
      hide SessionInv, Acceptable, CutName, BeginCommand, Exec, Can, Moves;
      CutNameFacts(cmd);
      var t := BadCommand(s, CutName(cmd));
      assert Apply(s, Begin(cmd)) == BeginCommand(s, CutName(cmd));
      assert !AsExpected(s, cmd, t);
    }
  }

  // ---- going on after a short write ----

  /** With part of an old reply outstanding even the simplest command leaves as many
      bytes in the client's channel as were there before. */
  lemma GoesOnUnsettled(s: State) returns (t: State)
    requires SessionInv(s) && s.client.CReady? && s.up && !Settled(s)
    ensures Can(BeginCommand(s, PrintDir), t) && t.client.CReady? && |t.s2c| == |s.x.reply| - s.x.got > 0
  {
    Unfinished(s);
    hide SessionInv, EncodeRequest, EncodeResponse, DecodeRequest, DecodeResponse, Can, Handle, BeginCommand, ClientReply;
    var r := Ask(CMD_PWD, 0, 0, []);
    var start := BeginCommand(s, PrintDir);
    BeginsPwd(s);
    var u := SendRest(start);
    RequestRoundTrip(r);
    ReadHeader(u, EncodeRequest(r));
    var v := Handle(Read(u, REQUEST_SIZE), r);
    CanThen(start, u, v);
    HandlePwd(Read(u, REQUEST_SIZE), r);
    ReadResponse(v);
    var response := DecodeResponse(v.s2c[..RESPONSE_SIZE]);
    t := ClientReply(Took(v, RESPONSE_SIZE), PrintDir, false, response);
    PwdReplied(Took(v, RESPONSE_SIZE), response);
    CanThen(start, v, t);
  }

  lemma BeginsPwd(s: State)
    requires s.up && s.c2s == []
    ensures var t := BeginCommand(s, PrintDir);
            && t.c2s == EncodeRequest(Ask(CMD_PWD, 0, 0, [])) && t.client == CAwait(PrintDir, false, [])
            && t.up && t.server == s.server && t.s2c == s.s2c
  {
    hide EncodeRequest;
    var e := EncodeRequest(Ask(CMD_PWD, 0, 0, []));
    assert [] + e == e;
  }

  lemma PwdReplied(s: State, r: Response)
    ensures var t := ClientReply(s, PrintDir, false, r);
            t.client.CReady? && t.s2c == s.s2c
  {
  }

  lemma HandlePwd(s: State, r: Request)
    requires r.magic == MAGIC && r.cmd == CMD_PWD && s.up
    ensures var t := Handle(s, r);
            t.client == s.client && |t.s2c| == |s.s2c| + RESPONSE_SIZE
  {
    hide EncodeResponse;
  }

  /** What is outstanding is in the channel or still in the server's hands. */
  lemma Unfinished(s: State)
    requires LinkInv(s) && ClientInv(s) && s.client.CReady? && s.up && !Settled(s)
    ensures s.c2s == [] && (s.server.SSend? || s.server == SHead([])) && (s.server.SSend? ==> s.server.rest != [])
    ensures |s.s2c| + (if s.server.SSend? then |s.server.rest| else 0) == |s.x.reply| - s.x.got
    ensures s.x.got < |s.x.reply|
  {
    hide NoMagic;
  }

  /** Settled is exact too: at any point of any session, short writes included, the client
      can go on with a command if and only if it has read the last reply to its end. */
  lemma SettledIsExact(s: State)
    requires SessionInv(s) && s.client.CReady? && s.up
    ensures Carried(s, PrintDir) <==> Settled(s)
  {
    if Settled(s) {
      hide SessionInv;
      AcceptableIsCarried(s, PrintDir);
    } else {
      hide SessionInv, Can, BeginCommand, Exec;
      var t := GoesOnUnsettled(s);
      assert Apply(s, Begin(PrintDir)) == BeginCommand(s, PrintDir);
      assert !AsExpected(s, PrintDir, t);
    }
  }
}
