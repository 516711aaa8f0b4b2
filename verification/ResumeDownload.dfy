/** Resumed downloads: however the stream is cut up and wherever an attempt
    breaks off, the local file stays a prefix of the remote one, and an attempt
    that comes to its end makes them equal. */
module ResumeDownload {
  import opened Wire
  import opened Session
  import opened Framing
  import opened SessionTheorems

  /** Commands that may run between the attempts: none of them changes the remote
      file, and only downloads of that file write the local one. */
  predicate Allowed(cmd: Command, path: Name, remote: Name) {
    match cmd
    case Download(r, p) => p == path ==> r == remote
    case DownloadResume(r, p) => p == path ==> r == remote
    case Upload(_, r) => r != remote
    case UploadResume(_, r) => r != remote
    case Delete(r) => r != remote
    case _ => true
  }

  predicate IsDownload(cmd: Command, path: Name) {
    (cmd.Download? || cmd.DownloadResume?) && cmd.path == path
  }

  predicate Harmless(r: Request, remote: Name) {
    r.filename == remote ==> r.cmd !in {CMD_UPLOAD, CMD_DELETE}
  }

  ghost predicate InProgress(s: State, path: Name, remote: Name)
    requires IsFile(s.disk, remote)
  {
    match s.client
    case CAwait(cmd, _, _) =>
      && Allowed(cmd, path, remote)
      && (cmd.DownloadResume? && cmd.path == path ==> s.x.request.offset == LocalSize(s.local, path))
    case CBody(cmd, _) =>
      && Allowed(cmd, path, remote)
      && (IsDownload(cmd, path) ==>
            path in s.local && s.x.got <= |s.x.reply|
            && s.local[path] + s.x.reply[s.x.got..] == s.disk[remote].data)
    case CSkip(cmd, _, _) => Allowed(cmd, path, remote)
    case CSend(cmd, _) => Allowed(cmd, path, remote)
    case _ => true
  }

  ghost predicate PrefixInv(s: State, path: Name, remote: Name) {
    && IsFile(s.disk, remote)
    && (path in s.local ==> s.local[path] <= s.disk[remote].data)
    && Harmless(s.x.request, remote)
    && InProgress(s, path, remote)
  }

  // ---- steps of the client ----

  lemma BeginDown(s: State, cmd: Command, path: Name, remote: Name)
    requires PrefixInv(s, path, remote) && s.client.CReady? && Allowed(cmd, path, remote)
    ensures PrefixInv(BeginCommand(s, cmd), path, remote)
    ensures BeginCommand(s, cmd).disk == s.disk
  {
    hide EncodeRequest;
  }

  /** The response to a download of the file: the data from the offset on. */
  lemma DownloadReply(s: State, path: Name, remote: Name)
    requires SessionInv(s) && PrefixInv(s, path, remote)
    requires s.client.CAwait? && IsDownload(s.client.cmd, path) && s.x.reply != [] && !Denied(remote)
    ensures var data, offset := s.disk[remote].data, s.x.request.offset;
            && offset <= |data| && s.x.reply[RESPONSE_SIZE..] == data[offset..]
            && s.x.response.status == if offset > 0 then STATUS_PARTIAL else STATUS_OK
    ensures s.x.request.offset > 0 ==> path in s.local && |s.local[path]| == s.x.request.offset
  {
    hide EncodeRequest, EncodeResponse, CodecInv, NoMagic, HistoryInv;
  }

  /** The whole of the file that an opened download starts from and still
      expects: the local part and the data to come make up the remote file. */
  lemma DownloadOpens(s: State, k: nat, path: Name, remote: Name)
    requires SessionInv(s) && PrefixInv(s, path, remote) && !Denied(remote)
    requires s.client.CAwait? && IsDownload(s.client.cmd, path) && k <= |s.s2c| && s.x.got + k == RESPONSE_SIZE
    ensures var t := ClientReply(Took(s, k), s.client.cmd, s.client.probe, s.x.response);
            && path in t.local && t.local[path] + s.x.reply[RESPONSE_SIZE..] == s.disk[remote].data
            && PrefixInv(t, path, remote)
            && (t.client.CReady? ==> t.local[path] == s.disk[remote].data)
  {
    hide LinkInv, CodecInv, HistoryInv, Tells;
    TakeReply(s, k);
    Answering(s, k);
    DownloadReply(s, path, remote);
    Opened(s, k, path, remote);
  }

  /** There are bytes for the client: a reply has been made, of the announced length. */
  lemma Answering(s: State, k: nat)
    requires LinkInv(s) && ClientInv(s) && s.client.CAwait? && k <= |s.s2c| && s.x.got + k == RESPONSE_SIZE
    ensures s.x.reply != [] && |s.x.reply| == RESPONSE_SIZE + s.x.response.dataLen
    ensures s.client.cmd.Download? || s.client.cmd.DownloadResume? ==> !s.client.probe
    ensures s.client.cmd.Download? ==> s.x.request.offset == 0
  {
    hide NoMagic, ServerInv, UploadOk;
  }

  lemma Opened(s: State, k: nat, path: Name, remote: Name)
    requires PrefixInv(s, path, remote) && s.client.CAwait? && IsDownload(s.client.cmd, path) && !s.client.probe
    requires k <= |s.s2c| && s.x.got + k == RESPONSE_SIZE && |s.x.reply| == RESPONSE_SIZE + s.x.response.dataLen
    requires var data, offset := s.disk[remote].data, s.x.request.offset;
             && offset <= |data| && s.x.reply[RESPONSE_SIZE..] == data[offset..]
             && s.x.response.status == (if offset > 0 then STATUS_PARTIAL else STATUS_OK)
             && (offset > 0 ==> path in s.local && |s.local[path]| == offset)
    requires s.client.cmd.Download? ==> s.x.request.offset == 0
    ensures var t := ClientReply(Took(s, k), s.client.cmd, s.client.probe, s.x.response);
            && path in t.local && t.local[path] + s.x.reply[RESPONSE_SIZE..] == s.disk[remote].data
            && PrefixInv(t, path, remote)
            && (t.client.CReady? ==> t.local[path] == s.disk[remote].data)
  {
    var data, offset := s.disk[remote].data, s.x.request.offset;
    assert data == data[..offset] + data[offset..];
    if offset > 0 {
      assert s.local[path] == data[..offset];
    }
  }

  lemma OtherReply(s: State, k: nat, path: Name, remote: Name)
    requires SessionInv(s) && PrefixInv(s, path, remote)
    requires s.client.CAwait? && k <= |s.s2c| && s.x.got + k == RESPONSE_SIZE && s.x.reply != []
    requires Denied(remote) || !IsDownload(s.client.cmd, path)
    ensures var t := ClientReply(Took(s, k), s.client.cmd, s.client.probe, s.x.response);
            PrefixInv(t, path, remote)
  {
    hide LinkInv, CodecInv, HistoryInv, Tells, ClientReply;
    Answering(s, k);
    if IsDownload(s.client.cmd, path) {
      DeniedReply(s, remote);
    }
    ReplyDown(s, k, path, remote);
  }

  /** A denied name is not downloaded. */
  lemma DeniedReply(s: State, remote: Name)
    requires SessionInv(s) && s.client.CAwait? && s.x.reply != [] && Denied(remote)
    requires (s.client.cmd.Download? || s.client.cmd.DownloadResume?) && s.client.cmd.remote == remote
    ensures s.x.response.status == STATUS_DENIED
  {
    hide EncodeRequest, EncodeResponse, CodecInv, NoMagic, HistoryInv, ServerInv, Channels, UploadOk;
  }

  lemma ReplyDown(s: State, k: nat, path: Name, remote: Name)
    requires PrefixInv(s, path, remote) && s.client.CAwait? && k <= |s.s2c|
    requires IsDownload(s.client.cmd, path) ==> s.x.response.status == STATUS_DENIED
    requires s.client.probe ==> s.client.cmd.UploadResume?
    ensures PrefixInv(ClientReply(Took(s, k), s.client.cmd, s.client.probe, s.x.response), path, remote)
  {
    hide EncodeRequest;
  }

  lemma BodyDown(s: State, k: nat, w: nat, path: Name, remote: Name)
    requires LinkInv(s) && ClientInv(s) && PrefixInv(s, path, remote)
    requires s.client.CBody? && CanClientRecv(s, k, w) && IsDownload(s.client.cmd, path)
    ensures PrefixInv(ClientRecv(s, k, w), path, remote)
    ensures ClientRecv(s, k, w).client.CReady? && w == k ==> ClientRecv(s, k, w).local[path] == s.disk[remote].data
  {
    TakeReply(s, k);
    Grow(s.local[path], s.s2c[..k], w, s.x.reply, s.x.got);
    hide LinkInv, Harmless;
    var t := ClientRecv(s, k, w);
    assert t.local[path] == s.local[path] + s.s2c[..k][..w];
    assert t.x.reply == s.x.reply && t.x.got == s.x.got + k && t.disk == s.disk;
    assert t.local[path] <= s.disk[remote].data;
  }

  lemma BodyOther(s: State, k: nat, w: nat, path: Name, remote: Name)
    requires ClientInv(s) && PrefixInv(s, path, remote)
    requires s.client.CBody? && CanClientRecv(s, k, w) && !IsDownload(s.client.cmd, path)
    ensures PrefixInv(ClientRecv(s, k, w), path, remote)
  {
  }

  /** Writing w of the next bytes keeps a prefix; writing them all moves on. */
  lemma Grow(have: seq<byte>, chunk: seq<byte>, w: nat, stream: seq<byte>, i: nat)
    requires i + |chunk| <= |stream| && chunk == stream[i..i + |chunk|] && w <= |chunk|
    ensures have + chunk[..w] <= have + stream[i..]
    ensures w == |chunk| ==> (have + chunk[..w]) + stream[i + w..] == have + stream[i..]
  {
  }

  lemma ClientDown(s: State, k: nat, w: nat, path: Name, remote: Name)
    requires SessionInv(s) && PrefixInv(s, path, remote) && CanClientRecv(s, k, w)
    ensures PrefixInv(ClientRecv(s, k, w), path, remote)
    ensures ClientRecv(s, k, w).disk == s.disk
  {
    hide EncodeRequest, CodecInv, NoMagic, HistoryInv, Tells, ClientReply;
    match s.client
    case CAwait(cmd, probe, _) =>
      if s.x.got + k == RESPONSE_SIZE {
        TakeReply(s, k);
        AwaitLast(s, k, w);
        ReplyFrame(Took(s, k), cmd, probe, s.x.response);
        if IsDownload(cmd, path) && !Denied(remote) {
          DownloadOpens(s, k, path, remote);
        } else {
          OtherReply(s, k, path, remote);
        }
      }
    case CBody(cmd, _) =>
      if IsDownload(cmd, path) {
        BodyDown(s, k, w, path, remote);
      } else {
        BodyOther(s, k, w, path, remote);
      }
    case CSkip(_, _, _) =>
  }

  // ---- steps of the server ----

  lemma HandleDown(s: State, path: Name, remote: Name)
    requires PrefixInv(s, path, remote) && s.x.request.magic == MAGIC && s.x.reply == [] && s.x.got == 0
    requires s.client.CBody? ==> !IsDownload(s.client.cmd, path)
    ensures PrefixInv(Handle(s, s.x.request), path, remote)
    ensures Handle(s, s.x.request).disk[remote] == s.disk[remote]
  {
    hide Respond, Dispatch, Harmless;
    DispatchDown(s.disk, s.x.request, remote);
    match Dispatch(s.disk, s.x.request)
    case Answer(_, _) =>
    case Stream(_, _) =>
    case Receive(_) =>
  }

  lemma DispatchDown(disk: Disk, r: Request, remote: Name)
    requires IsFile(disk, remote) && Harmless(r, remote)
    ensures match Dispatch(disk, r)
            case Answer(d, _) => remote in d && d[remote] == disk[remote]
            case Stream(_, _) => true
            case Receive(d) => remote in d && d[remote] == disk[remote]
  {
    hide Denied, Reply;
  }

  lemma HeadDown(s: State, k: nat, w: nat, path: Name, remote: Name)
    requires SessionInv(s) && PrefixInv(s, path, remote) && CanServerRecv(s, k, w)
    requires s.server.SHead? && |s.server.buffer| + k == REQUEST_SIZE
    ensures PrefixInv(ServerRecv(s, k, w), path, remote)
    ensures ServerRecv(s, k, w).disk[remote] == s.disk[remote]
  {
    hide Handle, NoMagic, HistoryInv, Tells, CodecInv, DecodeRequest, LinkInv;
    if s.x.seen {
      OnlyDerailed(s);
      DerailedMagic(s, k);
      Abandoned(s);
      RefusedDown(Read(s, k), DecodeRequest(s.server.buffer + s.c2s[..k]), path, remote);
    } else {
      Unanswered(s);
      HeadLast(s, k, w);
      HandleDown(Read(s, k), path, remote);
    }
  }

  lemma Abandoned(s: State)
    requires LinkInv(s) && ClientInv(s) && s.server.SHead? && s.x.derailed
    ensures !s.client.CBody?
  {
    hide NoMagic, Ties, UploadOk;
  }

  lemma RefusedDown(s: State, r: Request, path: Name, remote: Name)
    requires PrefixInv(s, path, remote) && r.magic != MAGIC && !s.client.CBody?
    ensures PrefixInv(Handle(s, r), path, remote) && Handle(s, r).disk == s.disk
  {
    hide Respond, Dispatch, Harmless;
  }

  lemma ServerDown(s: State, k: nat, w: nat, path: Name, remote: Name)
    requires SessionInv(s) && PrefixInv(s, path, remote) && CanServerRecv(s, k, w)
    ensures PrefixInv(ServerRecv(s, k, w), path, remote)
    ensures ServerRecv(s, k, w).disk[remote] == s.disk[remote]
  {
    hide EncodeResponse, NoMagic, HistoryInv, Tells, WriteAt, CodecInv, Handle;
    if s.server.SHead? && |s.server.buffer| + k == REQUEST_SIZE {
      HeadDown(s, k, w, path, remote);
    }
  }

  lemma DownStep(s: State, st: Step, path: Name, remote: Name)
    requires SessionInv(s) && PrefixInv(s, path, remote) && Legal(s, st)
    requires st.Begin? ==> Allowed(CutName(st.cmd), path, remote)
    ensures PrefixInv(Apply(s, st), path, remote)
    ensures Apply(s, st).disk[remote] == s.disk[remote]
  {
    hide EncodeRequest, CodecInv, NoMagic, HistoryInv, Tells, ClientRecv, ServerRecv, BeginCommand, CutName, Acceptable;
    match st
    case Begin(cmd) => BeginDown(s, CutName(cmd), path, remote);
    case ClientReceives(k, w) => ClientDown(s, k, w, path, remote);
    case ServerReceives(k, w) => ServerDown(s, k, w, path, remote);
    case _ =>
  }

  // ---- every run ----

  predicate Downloading(s: State, path: Name) {
    (s.client.CAwait? || s.client.CBody?) && IsDownload(s.client.cmd, path)
  }

  /** A download that comes to its end leaves the two files equal. */
  lemma CompletedDownload(s: State, st: Step, path: Name, remote: Name)
    requires SessionInv(s) && PrefixInv(s, path, remote) && Legal(s, st) && !Denied(remote)
    requires Downloading(s, path) && Apply(s, st).client.CReady? && !ShortWrite(s, st)
    ensures path in Apply(s, st).local && Apply(s, st).local[path] == s.disk[remote].data
  {
    hide EncodeRequest, CodecInv, NoMagic, HistoryInv, Tells, ClientReply;
    var k, w := st.k, st.w;
    if s.client.CAwait? {
      TakeReply(s, k);
      AwaitLast(s, k, w);
      DownloadOpens(s, k, path, remote);
    } else {
      BodyDown(s, k, w, path, remote);
    }
  }

  /** A resumed download never gives back bytes it already has. */
  lemma ResumeKeepsProgress(s: State, st: Step, path: Name, remote: Name)
    requires SessionInv(s) && PrefixInv(s, path, remote) && Legal(s, st)
    requires Downloading(s, path) ==> s.client.cmd.DownloadResume?
    ensures LocalSize(s.local, path) <= LocalSize(Apply(s, st).local, path)
  {
    hide EncodeRequest, CodecInv, NoMagic, HistoryInv, ClientReply, Handle, BeginCommand;
    if st.ClientReceives? && s.client.CAwait? && s.x.got + st.k == RESPONSE_SIZE {
      TakeReply(s, st.k);
      AwaitLast(s, st.k, st.w);
      ReplyLocal(s, st.k, path, remote);
    }
  }

  lemma ReplyLocal(s: State, k: nat, path: Name, remote: Name)
    requires SessionInv(s) && PrefixInv(s, path, remote)
    requires s.client.CAwait? && k <= |s.s2c| && s.x.got + k == RESPONSE_SIZE && s.x.reply != []
    requires Downloading(s, path) ==> s.client.cmd.DownloadResume?
    ensures LocalSize(s.local, path)
            <= LocalSize(ClientReply(Took(s, k), s.client.cmd, s.client.probe, s.x.response).local, path)
  {
    hide LinkInv, CodecInv, HistoryInv, Tells;
    Answering(s, k);
    if Downloading(s, path) {
      if Denied(remote) {
        DeniedReply(s, remote);
      } else {
        DownloadReply(s, path, remote);
      }
    }
    hide StartUpload;
  }

  predicate AllowedRun(run: seq<Step>, path: Name, remote: Name) {
    forall i :: 0 <= i < |run| && run[i].Begin? ==> Allowed(CutName(run[i].cmd), path, remote)
  }

  lemma {:induction false} DownRun(s: State, run: seq<Step>, path: Name, remote: Name)
    requires SessionInv(s) && PrefixInv(s, path, remote) && IsRun(s, run) && AllowedRun(run, path, remote)
    ensures SessionInv(Final(s, run)) && PrefixInv(Final(s, run), path, remote)
    ensures Final(s, run).disk[remote] == s.disk[remote]
    decreases |run|
  {
    hide SessionInv, Enabled, NoMagic, Acceptable, CutName, Apply, InProgress, Harmless, Allowed;
    if run == [] {
    } else {
      SessionStep(s, run[0]);
      DownStep(s, run[0], path, remote);
      DownRun(Apply(s, run[0]), run[1..], path, remote);
    }
  }

  /** Any number of attempts, broken anywhere, over any number of connections:
      the local file is always a prefix of the remote one, which never changes,
      and whenever an attempt comes to its end the two are equal. */
  lemma ResumeDownloadConverges(s: State, run: seq<Step>, path: Name, remote: Name, last: Step)
    requires Fresh(s) && IsFile(s.disk, remote) && (path in s.local ==> s.local[path] <= s.disk[remote].data)
    requires IsRun(s, run) && AllowedRun(run, path, remote)
    ensures var t := Final(s, run);
            && remote in t.disk && t.disk[remote] == s.disk[remote]
            && (path in t.local ==> t.local[path] <= s.disk[remote].data)
            && (!Denied(remote) && Downloading(t, path) && Legal(t, last) && Apply(t, last).client.CReady?
                && !ShortWrite(t, last) ==>
                  path in Apply(t, last).local && Apply(t, last).local[path] == s.disk[remote].data)
  {
    DownRun(s, run, path, remote);
    var t := Final(s, run);
    hide SessionInv, Apply, Enabled, NoMagic, Acceptable;
    if !Denied(remote) && Downloading(t, path) && Legal(t, last) && Apply(t, last).client.CReady?
       && !ShortWrite(t, last) {
      CompletedDownload(t, last, path, remote);
    }
  }
}
