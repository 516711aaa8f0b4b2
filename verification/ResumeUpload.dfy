/** Resumed uploads: the server's copy is always absent or a prefix of the local
    file, and an attempt the server confirms (or finds unnecessary) leaves the
    two equal. */
module ResumeUpload {
  import opened Wire
  import opened Session
  import opened Framing
  import opened SessionTheorems

  /** Commands that may run between the attempts: none of them changes the local
      file or puts anything but that file under the remote name. */
  predicate Allowed(cmd: Command, path: Name, remote: Name) {
    match cmd
    case Download(_, p) => p != path
    case DownloadResume(_, p) => p != path
    case Upload(p, r) => r == remote ==> p == path
    case UploadResume(p, r) => r == remote ==> p == path
    case MakeDir(r) => r != remote
    case _ => true
  }

  ghost predicate InProgress(s: State, path: Name, remote: Name) {
    match s.client
    case CAwait(cmd, _, _) => Allowed(cmd, path, remote)
    case CBody(cmd, _) => Allowed(cmd, path, remote)
    case CSkip(cmd, size, _) =>
      && Allowed(cmd, path, remote)
      && (cmd.UploadResume? && cmd.remote == remote ==>
            IsFile(s.disk, remote) && size == |s.disk[remote].data|)
    case CSend(cmd, _) => Allowed(cmd, path, remote)
    case _ => true
  }

  /** An upload under the remote name carries the local file from its offset on,
      which is where the server's copy ends. */
  ghost predicate UploadInv(s: State, path: Name, remote: Name)
    requires path in s.local
  {
    var x, source := s.x, s.local[path];
    x.outgoing != [] && x.request.cmd == CMD_UPLOAD && x.request.filename == remote ==>
      && x.request.offset <= |source| && x.body == source[x.request.offset..]
      && (!x.seen ==> x.request.offset == 0
                      || (IsFile(s.disk, remote) && |s.disk[remote].data| == x.request.offset))
      && (s.server.SRecv? ==> IsFile(s.disk, remote) && |s.disk[remote].data| == s.server.pos)
      && (x.reply != [] && x.response.status == STATUS_OK ==>
            remote in s.disk && s.disk[remote] == File(source))
  }

  ghost predicate CopyInv(s: State, path: Name, remote: Name) {
    && path in s.local
    && (remote in s.disk ==> s.disk[remote].File? && s.disk[remote].data <= s.local[path])
    && (s.x.request.filename == remote ==> s.x.request.cmd != CMD_MKDIR)
    && UploadInv(s, path, remote)
    && InProgress(s, path, remote)
  }

  // ---- steps of the client ----

  lemma StartUploadUp(s: State, cmd: Command, offset: nat, path: Name, remote: Name)
    requires CopyInv(s, path, remote) && (cmd.Upload? || cmd.UploadResume?) && Allowed(cmd, path, remote)
    requires cmd.path in s.local && offset <= |s.local[cmd.path]|
    requires cmd.remote == remote && offset > 0 ==> IsFile(s.disk, remote) && |s.disk[remote].data| == offset
    requires !s.server.SRecv?
    ensures CopyInv(StartUpload(s, cmd, cmd.path, cmd.remote, offset), path, remote)
  {
    hide EncodeRequest;
  }

  lemma BeginUp(s: State, cmd: Command, path: Name, remote: Name)
    requires CopyInv(s, path, remote) && s.client.CReady? && Allowed(cmd, path, remote) && !s.server.SRecv?
    ensures CopyInv(BeginCommand(s, cmd), path, remote)
  {
    hide EncodeRequest, StartUpload;
    if (cmd.Upload? || cmd.UploadResume?) && cmd.path in s.local {
      StartUploadUp(s, cmd, 0, path, remote);
    }
  }

  lemma ProbeUp(s: State, k: nat, path: Name, remote: Name)
    requires SessionInv(s) && CopyInv(s, path, remote)
    requires s.client.CAwait? && s.client.probe
    requires k <= |s.s2c| && s.x.got + k == RESPONSE_SIZE && s.x.reply != []
    ensures CopyInv(ClientReply(Took(s, k), s.client.cmd, true, s.x.response), path, remote)
  {
    hide LinkInv, CodecInv, HistoryInv, Tells, ClientReply, CopyInv;
    ProbeReports(s);
    Storing(s);
    ProbedUp(s, k, path, remote);
  }

  lemma Storing(s: State)
    requires LinkInv(s) && s.x.reply != []
    ensures !s.server.SRecv?
  {
    hide NoMagic;
  }

  lemma ProbedUp(s: State, k: nat, path: Name, remote: Name)
    requires CopyInv(s, path, remote) && k <= |s.s2c| && !s.server.SRecv?
    requires s.client.CAwait? && s.client.probe && s.client.cmd.UploadResume?
    requires var r, name := s.x.response, s.client.cmd.remote;
             r.status == STATUS_OK && r.dataLen > 0 ==> IsFile(s.disk, name) && r.dataLen == |s.disk[name].data|
    ensures CopyInv(ClientReply(Took(s, k), s.client.cmd, true, s.x.response), path, remote)
  {
    hide StartUpload, UploadInv;
    var cmd, r := s.client.cmd, s.x.response;
    var t := Took(s, k).(replies := s.replies + [r], client := CReady);
    SameUpload(s, t, path, remote);
    if r.status == STATUS_OK && r.dataLen > 0 {
      SameUpload(s, t.(client := CSkip(cmd, r.dataLen, r.dataLen)), path, remote);
    } else if cmd.path in s.local {
      StartUploadUp(t, cmd, 0, path, remote);
    }
  }

  lemma ReplyUp(s: State, k: nat, path: Name, remote: Name)
    requires CopyInv(s, path, remote)
    requires s.client.CAwait? && !s.client.probe && k <= |s.s2c|
    ensures CopyInv(ClientReply(Took(s, k), s.client.cmd, false, s.x.response), path, remote)
  {
    hide EncodeRequest, StartUpload, UploadInv;
    var t := ClientReply(Took(s, k), s.client.cmd, false, s.x.response);
    assert t.local[path] == s.local[path];
    SameUpload(s, t, path, remote);
  }

  lemma SameUpload(s: State, t: State, path: Name, remote: Name)
    requires path in s.local && UploadInv(s, path, remote)
    requires path in t.local && t.local[path] == s.local[path]
    requires t.disk == s.disk && t.server == s.server && t.x == s.x.(got := t.x.got)
    ensures UploadInv(t, path, remote)
  {
  }

  lemma SkipUp(s: State, k: nat, path: Name, remote: Name)
    requires SessionInv(s) && CopyInv(s, path, remote)
    requires s.client.CSkip? && k <= |s.s2c| && k == s.client.remaining
    ensures var t := AfterSkip(Took(s, k), s.client.cmd, s.client.size);
            && CopyInv(t, path, remote)
            && (t.client.CReady? && s.client.cmd == UploadResume(path, remote) ==>
                  remote in t.disk && t.disk[remote] == File(t.local[path]))
  {
    hide EncodeRequest, EncodeResponse, CodecInv, NoMagic, HistoryInv, Tells, StartUpload;
    var cmd, size := s.client.cmd, s.client.size;
    if size < U32(|s.local[cmd.path]|) {
      StartUploadUp(Took(s, k), cmd, size, path, remote);
    }
  }

  lemma ClientUp(s: State, k: nat, w: nat, path: Name, remote: Name)
    requires SessionInv(s) && CopyInv(s, path, remote) && CanClientRecv(s, k, w)
    ensures CopyInv(ClientRecv(s, k, w), path, remote)
  {
    hide EncodeRequest, CodecInv, NoMagic, HistoryInv, Tells, ClientReply, AfterSkip;
    match s.client
    case CAwait(cmd, probe, _) =>
      if s.x.got + k == RESPONSE_SIZE {
        TakeReply(s, k);
        AwaitLast(s, k, w);
        if probe {
          ProbeUp(s, k, path, remote);
        } else {
          ReplyUp(s, k, path, remote);
        }
      }
    case CBody(_, _) =>
    case CSkip(_, _, remaining) =>
      if remaining == k {
        SkipUp(s, k, path, remote);
      }
  }

  // ---- steps of the server ----

  /** What the handlers do to the copy: an accepted upload opens it at its end
      when resuming and empties it otherwise; anything else keeps or removes it. */
  lemma DispatchUp(disk: Disk, r: Request, remote: Name)
    requires Sound(disk, r) && !IsDir(disk, remote) && (r.filename == remote ==> r.cmd != CMD_MKDIR)
    ensures match Dispatch(disk, r)
            case Answer(d, response) =>
              && (remote in d ==> remote in disk && d[remote] == disk[remote])
              && (r.cmd == CMD_UPLOAD ==> response.status != STATUS_OK)
            case Stream(_, _) => r.cmd == CMD_DOWNLOAD
            case Receive(d) =>
              && r.cmd == CMD_UPLOAD
              && if r.filename != remote then (remote in d <==> remote in disk) && (remote in d ==> d[remote] == disk[remote])
                 else if r.offset > 0 && remote in disk then d == disk
                 else remote in d && d[remote] == File([])
  {
    hide Denied, Cut;
  }

  lemma HandleUp(s: State, path: Name, remote: Name)
    requires Shape(s.x) && CodecInv(s.x, s.disk) && CopyInv(s, path, remote)
    requires s.x.outgoing != [] && !s.x.seen && s.x.reply == [] && !s.server.SRecv? && !s.client.CSkip?
    ensures CopyInv(Handle(s, s.x.request), path, remote)
  {
    hide CodecInv, Dispatch, Respond, Sound;
    CodecFacts(s);
    var r := s.x.request;
    DispatchUp(s.disk, r, remote);
    var t := s.(handled := s.handled + [r], x := s.x.(seen := true));
    match Dispatch(s.disk, r)
    case Answer(disk, response) => AnswerUp(s, t.(disk := disk), response, [], path, remote);
    case Stream(response, data) => AnswerUp(s, t, response, data, path, remote);
    case Receive(disk) => ReceiveUp(s, t.(disk := disk), path, remote);
  }

  /** A request that is not an accepted upload keeps the copy or removes it. */
  lemma AnswerUp(s: State, t: State, r: Response, data: seq<byte>, path: Name, remote: Name)
    requires CopyInv(s, path, remote) && !s.x.seen && s.x.reply == [] && !s.server.SRecv? && !s.client.CSkip?
    requires t == s.(disk := t.disk, handled := t.handled, x := s.x.(seen := true))
    requires remote in t.disk ==> remote in s.disk && t.disk[remote] == s.disk[remote]
    requires s.x.request.cmd == CMD_UPLOAD ==> r.status != STATUS_OK
    ensures CopyInv(Respond(t, r, data), path, remote)
  {
    hide EncodeResponse;
  }

  /** An accepted upload: confirmed at once if it is empty, received otherwise. */
  lemma ReceiveUp(s: State, t: State, path: Name, remote: Name)
    requires Shape(s.x) && s.x.outgoing != [] && s.x.request.cmd == CMD_UPLOAD
    requires CopyInv(s, path, remote) && !s.x.seen && s.x.reply == [] && !s.server.SRecv? && !s.client.CSkip?
    requires t == s.(disk := t.disk, handled := t.handled, x := s.x.(seen := true))
    requires var r := s.x.request;
             if r.filename != remote then
               (remote in t.disk <==> remote in s.disk) && (remote in t.disk ==> t.disk[remote] == s.disk[remote])
             else if r.offset > 0 && remote in s.disk then t.disk == s.disk
             else remote in t.disk && t.disk[remote] == File([])
    ensures var r := s.x.request;
            && CopyInv(t.(server := SRecv(r.filename, r.offset, r.offset, r.dataLen)), path, remote)
            && (r.dataLen == 0 ==> CopyInv(Respond(t, UPLOADED, []), path, remote))
  {
    hide EncodeResponse, Reply;
  }

  /** Writing at the end of the file appends. */
  lemma Append(source: seq<byte>, f: seq<byte>, chunk: seq<byte>, w: nat)
    requires f <= source && |f| + |chunk| <= |source| && chunk == source[|f|..|f| + |chunk|] && w <= |chunk|
    ensures WriteAt(f, |f|, chunk[..w]) == source[..|f| + w]
  {
    assert f + chunk[..w] == source[..|f| + w];
    assert WriteAt(f, |f|, chunk[..w]) == f + chunk[..w];
  }

  lemma StoredData(s: State, k: nat, w: nat, path: Name)
    requires LinkInv(s) && path in s.local && UploadInv(s, path, s.x.request.filename)
    requires s.server.SRecv? && k <= |s.c2s| && k <= s.server.remaining && w <= k
    requires IsFile(s.disk, s.server.name) && s.disk[s.server.name].data <= s.local[path]
    ensures s.server.pos + s.server.remaining == |s.local[path]|
    ensures WriteAt(s.disk[s.server.name].data, s.server.pos, s.c2s[..k][..w]) == s.local[path][..s.server.pos + w]
  {
    TakeRequest(s, k);
    hide NoMagic, WriteAt, Channels;
    var source, pos, i := s.local[path], s.server.pos, s.server.pos - s.x.request.offset;
    assert s.c2s[..k] == s.x.body[i..i + k];
    assert s.x.body[i..i + k] == source[pos..pos + k];
    Append(source, s.disk[s.server.name].data, s.c2s[..k], w);
  }

  /** Data arrives: the copy grows along the local file, or is removed. */
  lemma StoreUp(s: State, k: nat, w: nat, path: Name, remote: Name)
    requires SessionInv(s) && CopyInv(s, path, remote) && s.server.SRecv? && CanServerRecv(s, k, w)
    requires s.server.name == remote
    ensures CopyInv(ServerRecv(s, k, w), path, remote)
  {
    hide LinkInv, ClientInv, CodecInv, HistoryInv, Tells, WriteAt, Reply, EncodeResponse, Allowed;
    UploadsTo(s);
    StoredData(s, k, w, path);
  }

  lemma UploadsTo(s: State)
    requires LinkInv(s) && ClientInv(s) && s.server.SRecv?
    ensures s.x.request.cmd == CMD_UPLOAD && s.x.request.filename == s.server.name && s.x.outgoing != [] && s.x.seen
    ensures s.x.reply == [] && s.server.offset == s.x.request.offset && !s.client.CSkip?
  {
    hide NoMagic, Channels, Shape, UploadOk;
  }

  lemma RefuseUp(s: State, r: Request, path: Name, remote: Name)
    requires CopyInv(s, path, remote) && r.magic != MAGIC
    ensures CopyInv(Handle(s, r), path, remote)
  {
    hide EncodeResponse, Dispatch;
  }

  lemma HeadUp(s: State, k: nat, w: nat, path: Name, remote: Name)
    requires SessionInv(s) && CopyInv(s, path, remote) && CanServerRecv(s, k, w)
    requires s.server.SHead? && |s.server.buffer| + k == REQUEST_SIZE
    ensures CopyInv(ServerRecv(s, k, w), path, remote)
  {
    hide EncodeRequest, NoMagic, HistoryInv, Tells, Handle, CodecInv, DecodeRequest;
    if s.x.seen {
      DerailedMagic(s, k);
      RefuseUp(Read(s, k), DecodeRequest(s.server.buffer + s.c2s[..k]), path, remote);
    } else {
      HeadLast(s, k, w);
      CodecFrame(s.x, Read(s, k).x, s.disk);
      HandleUp(Read(s, k), path, remote);
    }
  }

  lemma ServerUp(s: State, k: nat, w: nat, path: Name, remote: Name)
    requires SessionInv(s) && CopyInv(s, path, remote) && CanServerRecv(s, k, w)
    ensures CopyInv(ServerRecv(s, k, w), path, remote)
  {
    hide LinkInv, ClientInv, CodecInv, HistoryInv, Tells, ServerRecv;
    if s.server.SRecv? && s.server.name == remote {
      StoreUp(s, k, w, path, remote);
    } else if s.server.SHead? && |s.server.buffer| + k == REQUEST_SIZE {
      HeadUp(s, k, w, path, remote);
    } else {
      OtherUp(s, k, w, path, remote);
    }
  }

  /** Another file grows, or a header is not complete yet. */
  lemma OtherUp(s: State, k: nat, w: nat, path: Name, remote: Name)
    requires SessionInv(s) && CopyInv(s, path, remote) && CanServerRecv(s, k, w)
    requires s.server.SRecv? ==> s.server.name != remote
    requires s.server.SHead? ==> |s.server.buffer| + k < REQUEST_SIZE
    ensures CopyInv(ServerRecv(s, k, w), path, remote)
  {
    hide NoMagic, HistoryInv, Tells, WriteAt, CodecInv, Handle, Channels, Shape, Respond, ClientInv, Allowed;
    match s.server
    case SHead(_) =>
    case SRecv(_, _, _, _) =>
  }

  lemma UpStep(s: State, st: Step, path: Name, remote: Name)
    requires SessionInv(s) && CopyInv(s, path, remote) && Legal(s, st)
    requires st.Begin? ==> Allowed(CutName(st.cmd), path, remote)
    ensures CopyInv(Apply(s, st), path, remote)
    ensures Apply(s, st).local[path] == s.local[path]
  {
    hide EncodeRequest, CodecInv, NoMagic, HistoryInv, Tells, ClientRecv, ServerRecv, BeginCommand, CutName, Acceptable;
    LocalUp(s, st, path, remote);
    match st
    case Begin(cmd) => BeginUp(s, CutName(cmd), path, remote);
    case ClientReceives(k, w) => ClientUp(s, k, w, path, remote);
    case ServerReceives(k, w) => ServerUp(s, k, w, path, remote);
    case _ =>
  }

  lemma LocalUp(s: State, st: Step, path: Name, remote: Name)
    requires path in s.local && InProgress(s, path, remote) && Enabled(s, st)
    ensures path in Apply(s, st).local && Apply(s, st).local[path] == s.local[path]
  {
    hide ServerRecv, ClientRecv, BeginCommand;
    if st.ClientReceives? {
      LocalRecv(s, st.k, st.w, path, remote);
    }
  }

  lemma LocalRecv(s: State, k: nat, w: nat, path: Name, remote: Name)
    requires path in s.local && InProgress(s, path, remote) && CanClientRecv(s, k, w)
    ensures path in ClientRecv(s, k, w).local && ClientRecv(s, k, w).local[path] == s.local[path]
  {
    hide StartUpload, DecodeResponse;
    match s.client
    case CAwait(cmd, probe, _) =>
      hide ClientReply;
      if |s.client.buffer| + k == RESPONSE_SIZE {
        LocalReply(Took(s, k), cmd, probe, DecodeResponse(s.client.buffer + s.s2c[..k]), path, remote);
      }
    case CBody(_, _) =>
    case CSkip(_, _, _) =>
  }

  lemma LocalReply(s: State, cmd: Command, probe: bool, r: Response, path: Name, remote: Name)
    requires path in s.local && Allowed(cmd, path, remote)
    ensures var t := ClientReply(s, cmd, probe, r);
            path in t.local && t.local[path] == s.local[path]
  {
    hide StartUpload;
  }

  // ---- every run ----

  predicate Uploading(s: State, path: Name, remote: Name) {
    && (s.client.CAwait? || s.client.CSkip? || s.client.CSend?)
    && s.client.cmd in {Upload(path, remote), UploadResume(path, remote)}
  }

  lemma ConfirmedUpload(s: State, k: nat, w: nat, path: Name, remote: Name)
    requires SessionInv(s) && CopyInv(s, path, remote) && CanClientRecv(s, k, w)
    requires Uploading(s, path, remote) && s.client.CAwait? && ClientRecv(s, k, w).client.CReady?
    requires s.x.response.status == STATUS_OK
    ensures ClientRecv(s, k, w).disk == s.disk && remote in s.disk && s.disk[remote] == File(s.local[path])
  {
    assert s.x.got + k == RESPONSE_SIZE;
    hide EncodeRequest, CodecInv, NoMagic, HistoryInv, Tells, ClientReply, ClientRecv;
    AwaitLast(s, k, w);
    ReplyFrame(Took(s, k), s.client.cmd, s.client.probe, s.x.response);
    if s.client.probe {
      ProbeContinues(Took(s, k), s.client.cmd, s.x.response);
    }
  }

  /** An upload that ends with the server's confirmation, or because the probe
      found nothing to send, leaves the two files equal. */
  lemma CompletedUpload(s: State, st: Step, path: Name, remote: Name)
    requires SessionInv(s) && CopyInv(s, path, remote) && Legal(s, st)
    requires Uploading(s, path, remote) && Apply(s, st).client.CReady?
    requires s.client.CAwait? ==> s.x.response.status == STATUS_OK
    ensures remote in Apply(s, st).disk && Apply(s, st).disk[remote] == File(s.local[path])
  {
    OnlyReceiving(s, st);
    if s.client.CAwait? {
      ConfirmedUpload(s, st.k, st.w, path, remote);
    } else {
      SkipUp(s, st.k, path, remote);
    }
    hide EncodeRequest, CodecInv, NoMagic, HistoryInv, Tells, CopyInv, Inv;
  }

  /** A busy client becomes ready only by receiving. */
  lemma OnlyReceiving(s: State, st: Step)
    requires Enabled(s, st) && !s.client.CReady? && !s.client.CFailed? && Apply(s, st).client.CReady?
    ensures st.ClientReceives? && (s.client.CSkip? ==> st.k == s.client.remaining) && !s.client.CSend?
  {
    hide EncodeRequest, ServerRecv, StartUpload;
  }

  lemma ProbeContinues(s: State, cmd: Command, r: Response)
    requires cmd.UploadResume? && cmd.path in s.local
    ensures !ClientReply(s, cmd, true, r).client.CReady?
  {
  }

  predicate AllowedRun(run: seq<Step>, path: Name, remote: Name) {
    forall i :: 0 <= i < |run| && run[i].Begin? ==> Allowed(CutName(run[i].cmd), path, remote)
  }

  lemma {:induction false} UpRun(s: State, run: seq<Step>, path: Name, remote: Name)
    requires SessionInv(s) && CopyInv(s, path, remote) && IsRun(s, run) && AllowedRun(run, path, remote)
    ensures SessionInv(Final(s, run)) && CopyInv(Final(s, run), path, remote)
    ensures Final(s, run).local[path] == s.local[path]
    decreases |run|
  {
    hide SessionInv, Enabled, NoMagic, Acceptable, CutName, Apply, InProgress, UploadInv, Allowed;
    if run == [] {
    } else {
      SessionStep(s, run[0]);
      UpStep(s, run[0], path, remote);
      UpRun(Apply(s, run[0]), run[1..], path, remote);
    }
  }

  /** Any number of attempts, broken anywhere, over any number of connections:
      the local file never changes, the server's copy is absent or a prefix of
      it, and whenever an attempt is confirmed or found unnecessary they are
      equal. */
  lemma ResumeUploadConverges(s: State, run: seq<Step>, path: Name, remote: Name, last: Step)
    requires Fresh(s) && path in s.local
    requires remote in s.disk ==> s.disk[remote].File? && s.disk[remote].data <= s.local[path]
    requires IsRun(s, run) && AllowedRun(run, path, remote)
    ensures var t := Final(s, run);
            && path in t.local && t.local[path] == s.local[path]
            && (remote in t.disk ==> t.disk[remote].File? && t.disk[remote].data <= s.local[path])
            && (Uploading(t, path, remote) && Legal(t, last) && Apply(t, last).client.CReady?
                && (t.client.CAwait? ==> t.x.response.status == STATUS_OK) ==>
                  remote in Apply(t, last).disk && Apply(t, last).disk[remote] == File(s.local[path]))
  {
    UpRun(s, run, path, remote);
    var t := Final(s, run);
    hide SessionInv, Apply, Enabled, NoMagic, Acceptable, UploadInv;
    if Uploading(t, path, remote) && Legal(t, last) && Apply(t, last).client.CReady?
       && (t.client.CAwait? ==> t.x.response.status == STATUS_OK) {
      CompletedUpload(t, last, path, remote);
    }
  }
}
