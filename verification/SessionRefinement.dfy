/** Without faults a session is the sequential execution of its commands: the
    interleaving of the two parties, the chunking of the streams and the two
    exchanges of a resumed upload leave no trace in the files. */
module SessionRefinement {
  import opened Wire
  import opened Session
  import opened Framing
  import opened SessionTheorems

  datatype World = World(local: Local, disk: Disk)

  function FileData(disk: Disk, n: Name): seq<byte> {
    if IsFile(disk, n) then disk[n].data else []
  }

  /** What one command means for the files, all at once. */
  function Exec(w: World, cmd: Command): World {
    match cmd
    case Download(remote, path) =>
      if IsFile(w.disk, remote) && !Denied(remote) then w.(local := w.local[path := w.disk[remote].data]) else w
    case DownloadResume(remote, path) =>
      var have := if path in w.local then w.local[path] else [];
      if IsFile(w.disk, remote) && !Denied(remote) && |have| <= |w.disk[remote].data| then
        w.(local := w.local[path := have + w.disk[remote].data[|have|..]])
      else w
    case Upload(path, remote) =>
      if path in w.local && !Refuses(w.disk, remote) then w.(disk := w.disk[remote := File(w.local[path])]) else w
    case UploadResume(path, remote) =>
      var have := FileData(w.disk, remote);
      if path in w.local && !Refuses(w.disk, remote) && (have == [] || |have| < |w.local[path]|) then
        w.(disk := w.disk[remote := File(have + w.local[path][|have|..])])
      else w
    case Delete(remote) =>
      if IsFile(w.disk, remote) && !Denied(remote) then w.(disk := w.disk - {remote}) else w
    case MakeDir(remote) =>
      if remote !in w.disk && !Denied(remote) then w.(disk := w.disk[remote := Dir]) else w
    case RemoveDir(remote) =>
      if IsDir(w.disk, remote) && !Denied(remote) then w.(disk := w.disk - {remote}) else w
    case PrintDir => w
  }

  // ---- what is left to happen ----

  /** The disk once the current upload is complete. */
  ghost function Uploaded(s: State): Disk {
    var x := s.x;
    if !x.seen then
      if Refuses(s.disk, x.request.filename) then s.disk else
      s.disk[x.request.filename :=
             File((if x.request.offset > 0 then FileData(s.disk, x.request.filename) else []) + x.body)]
    else if s.server.SRecv? && s.server.remaining <= |x.body| then
      s.disk[s.server.name := File(FileData(s.disk, s.server.name) + x.body[|x.body| - s.server.remaining..])]
    else
      s.disk
  }

  /** A resumed upload continues where the server's copy ends. */
  ghost predicate Aligned(s: State) {
    && (!s.x.seen && s.x.request.offset > 0 ==>
          IsFile(s.disk, s.x.request.filename) && |s.disk[s.x.request.filename].data| == s.x.request.offset)
    && (s.server.SRecv? ==>
          IsFile(s.disk, s.server.name) && |s.disk[s.server.name].data| == s.server.pos)
  }

  /** From s, the current command will end in the files of `goal`. */
  ghost predicate Heads(s: State, goal: World) {
    var now := World(s.local, s.disk);
    match s.client
    case CReady => goal == now
    case CFailed => false
    case CAwait(cmd, probe, _) =>
      if probe || cmd.Download? || cmd.DownloadResume? then
        && goal == Exec(now, cmd)
        && (cmd.DownloadResume? ==> s.x.request.offset == LocalSize(s.local, cmd.path))
      else if cmd.Upload? || cmd.UploadResume? then
        goal == World(s.local, Uploaded(s)) && Aligned(s)
      else
        goal == if s.x.seen then now else Exec(now, cmd)
    case CBody(cmd, _) =>
      && (cmd.Download? || cmd.DownloadResume?) && cmd.path in s.local && s.x.got <= |s.x.reply|
      && goal == World(s.local[cmd.path := s.local[cmd.path] + s.x.reply[s.x.got..]], s.disk)
    case CSkip(cmd, size, _) =>
      && goal == Exec(now, cmd)
      && cmd.UploadResume? && IsFile(s.disk, cmd.remote) && 0 < size == |s.disk[cmd.remote].data|
    case CSend(_, _) => goal == World(s.local, Uploaded(s)) && Aligned(s)
  }

  // ---- steps of the client ----

  lemma StartUploadHeads(s: State, cmd: Command, offset: nat)
    requires (cmd.Upload? || cmd.UploadResume?) && cmd.path in s.local && !s.server.SRecv?
    requires offset <= |s.local[cmd.path]|
    requires offset > 0 ==> |FileData(s.disk, cmd.remote)| == offset
    ensures var base := if offset > 0 then FileData(s.disk, cmd.remote) else [];
            Heads(StartUpload(s, cmd, cmd.path, cmd.remote, offset),
                  World(s.local, if Refuses(s.disk, cmd.remote) then s.disk
                                 else s.disk[cmd.remote := File(base + s.local[cmd.path][offset..])]))
  {
    hide EncodeRequest;
  }

  lemma BeginHeads(s: State, cmd: Command)
    requires s.client.CReady? && !s.server.SRecv?
    ensures Heads(BeginCommand(s, cmd), Exec(World(s.local, s.disk), cmd))
  {
    hide EncodeRequest, StartUpload;
    if cmd.Upload? && cmd.path in s.local {
      StartUploadHeads(s, cmd, 0);
      assert [] + s.local[cmd.path][0..] == s.local[cmd.path];
    }
  }

  /** The two ways a download request can be answered. */
  lemma DownloadAnswer(s: State)
    requires SessionInv(s) && s.client.CAwait? && (s.client.cmd.Download? || s.client.cmd.DownloadResume?)
    requires s.x.reply != []
    ensures var remote, offset, r := s.client.cmd.remote, s.x.request.offset, s.x.response;
            if IsFile(s.disk, remote) && !Denied(remote) && offset <= |s.disk[remote].data| then
              && r.status == (if offset > 0 then STATUS_PARTIAL else STATUS_OK)
              && r.dataLen == |s.disk[remote].data| - offset
              && |s.x.reply| >= RESPONSE_SIZE && s.x.reply[RESPONSE_SIZE..] == s.disk[remote].data[offset..]
            else
              r.status !in {STATUS_OK, STATUS_PARTIAL}
              || (r.status == STATUS_PARTIAL && r.dataLen == 0 && offset > 0 && !IsFile(s.disk, remote))
  {
    hide EncodeRequest, EncodeResponse, CodecInv, NoMagic, HistoryInv, ServerInv, Channels;
  }

  lemma OpenBodyHeads(s: State, cmd: Command, local: Local, goal: World)
    requires (cmd.Download? || cmd.DownloadResume?) && cmd.path in local && s.x.got <= |s.x.reply|
    requires goal == World(local[cmd.path := local[cmd.path] + s.x.reply[s.x.got..]], s.disk)
    ensures Heads(OpenBody(s, cmd, local, |s.x.reply| - s.x.got), goal)
  {
    if s.x.got == |s.x.reply| {
      assert local[cmd.path] + s.x.reply[s.x.got..] == local[cmd.path];
      assert local[cmd.path := local[cmd.path]] == local;
    }
  }

  /** What a served download makes of the local files. */
  lemma DownloadGoal(local: Local, disk: Disk, cmd: Command, offset: nat)
    requires (cmd.Download? && offset == 0) || (cmd.DownloadResume? && offset == LocalSize(local, cmd.path))
    requires IsFile(disk, cmd.remote) && !Denied(cmd.remote) && offset <= |disk[cmd.remote].data|
    ensures var open := if offset > 0 then local else local[cmd.path := []];
            && cmd.path in open
            && Exec(World(local, disk), cmd)
               == World(open[cmd.path := open[cmd.path] + disk[cmd.remote].data[offset..]], disk)
  {
    var data := disk[cmd.remote].data;
    assert data[0..] == data && [] + data == data;
  }

  lemma DownloadHeads(s: State, k: nat, goal: World)
    requires SessionInv(s) && Heads(s, goal) && k <= |s.s2c|
    requires s.client.CAwait? && (s.client.cmd.Download? || s.client.cmd.DownloadResume?)
    requires s.x.reply != [] && s.x.got + k == RESPONSE_SIZE
    ensures Heads(ClientReply(Took(s, k), s.client.cmd, s.client.probe, s.x.response), goal)
  {
    hide SessionInv, Denied;
    DownloadAnswer(s);
    DownloadTies(s);
    var cmd, offset := s.client.cmd, s.x.request.offset;
    if IsFile(s.disk, cmd.remote) && !Denied(cmd.remote) && offset <= |s.disk[cmd.remote].data| {
      ServedHeads(s, k, goal);
    } else {
      UnservedHeads(s, k, goal);
    }
  }

  lemma DownloadTies(s: State)
    requires SessionInv(s) && s.client.CAwait? && s.x.reply != []
    ensures Ties(s.client.cmd, s.client.probe, s.x.request) && |s.x.reply| == RESPONSE_SIZE + s.x.response.dataLen
    ensures (s.client.cmd.Download? || s.client.cmd.DownloadResume?) ==> !s.client.probe
    ensures !s.server.SRecv?
  {
    hide NoMagic, CodecInv, HistoryInv, Tells, Channels, UploadOk;
  }

  /** The file is there: the client opens its local file and expects the data. */
  lemma ServedHeads(s: State, k: nat, goal: World)
    requires Heads(s, goal) && s.client.CAwait? && k <= |s.s2c| && s.x.got + k == RESPONSE_SIZE
    requires var cmd, offset, r := s.client.cmd, s.x.request.offset, s.x.response;
             && (cmd.Download? || cmd.DownloadResume?) && (cmd.Download? ==> offset == 0)
             && IsFile(s.disk, cmd.remote) && !Denied(cmd.remote) && offset <= |s.disk[cmd.remote].data|
             && r.status == (if offset > 0 then STATUS_PARTIAL else STATUS_OK)
             && |s.x.reply| == RESPONSE_SIZE + r.dataLen && s.x.reply[RESPONSE_SIZE..] == s.disk[cmd.remote].data[offset..]
    ensures Heads(ClientReply(Took(s, k), s.client.cmd, s.client.probe, s.x.response), goal)
  {
    var cmd, offset := s.client.cmd, s.x.request.offset;
    DownloadGoal(s.local, s.disk, cmd, offset);
    hide Exec, Denied;
    var local := if offset > 0 then s.local else s.local[cmd.path := []];
    OpenBodyHeads(Took(s, k).(replies := s.replies + [s.x.response], client := CReady), cmd, local, goal);
    hide Heads;
  }

  /** The file is not there, or too short: nothing changes. */
  lemma UnservedHeads(s: State, k: nat, goal: World)
    requires Heads(s, goal) && s.client.CAwait? && k <= |s.s2c|
    requires var cmd, offset, r := s.client.cmd, s.x.request.offset, s.x.response;
             && (cmd.Download? || cmd.DownloadResume?) && (cmd.Download? ==> offset == 0)
             && (!IsFile(s.disk, cmd.remote) || Denied(cmd.remote) || offset > |s.disk[cmd.remote].data|)
             && (r.status !in {STATUS_OK, STATUS_PARTIAL}
                 || (r.status == STATUS_PARTIAL && r.dataLen == 0 && offset > 0 && !IsFile(s.disk, cmd.remote)))
    ensures Heads(ClientReply(Took(s, k), s.client.cmd, s.client.probe, s.x.response), goal)
  {
    hide Denied;
  }

  lemma ProbeHeads(s: State, k: nat, goal: World)
    requires SessionInv(s) && Heads(s, goal) && k <= |s.s2c|
    requires s.client.CAwait? && s.client.probe && s.x.reply != [] && s.x.got + k == RESPONSE_SIZE
    ensures Heads(ClientReply(Took(s, k), s.client.cmd, true, s.x.response), goal)
  {
    hide SessionInv, Heads, ClientReply, Denied;
    ProbeReports(s);
    DownloadTies(s);
    ProbedHeads(s, k, goal);
  }

  /** There is a copy to skip, or the upload starts from nothing. */
  lemma ProbedHeads(s: State, k: nat, goal: World)
    requires Heads(s, goal) && k <= |s.s2c| && !s.server.SRecv?
    requires s.client.CAwait? && s.client.probe && s.client.cmd.UploadResume?
    requires var r, remote := s.x.response, s.client.cmd.remote;
             && (r.status == STATUS_OK && r.dataLen > 0 <==>
                   IsFile(s.disk, remote) && s.disk[remote].data != [] && !Denied(remote))
             && (r.status == STATUS_OK && r.dataLen > 0 ==> r.dataLen == |s.disk[remote].data|)
    ensures Heads(ClientReply(Took(s, k), s.client.cmd, true, s.x.response), goal)
  {
    hide StartUpload, Denied;
    var cmd, r := s.client.cmd, s.x.response;
    if !(r.status == STATUS_OK && r.dataLen > 0) && cmd.path in s.local {
      StartUploadHeads(Took(s, k).(replies := s.replies + [r], client := CReady), cmd, 0);
      if !Refuses(s.disk, cmd.remote) {
        assert FileData(s.disk, cmd.remote) == [];
        assert [] + s.local[cmd.path][0..] == [] + s.local[cmd.path][|FileData(s.disk, cmd.remote)|..];
      }
    }
  }

  lemma OtherHeads(s: State, k: nat, goal: World)
    requires Inv(s) && Heads(s, goal) && k <= |s.s2c|
    requires s.client.CAwait? && !s.client.probe && !s.client.cmd.Download? && !s.client.cmd.DownloadResume?
    requires s.x.reply != [] && s.x.got + k == RESPONSE_SIZE
    ensures Heads(ClientReply(Took(s, k), s.client.cmd, false, s.x.response), goal)
  {
    hide EncodeRequest, EncodeResponse, CodecInv, NoMagic, StartUpload, Exec;
  }

  /** Writing a first part now and the rest later is writing all of it. */
  lemma WriteParts(local: Local, path: Name, stream: seq<byte>, i: nat, k: nat)
    requires path in local && i + k <= |stream|
    ensures var now := local[path := local[path] + stream[i..i + k]];
            && local[path := local[path] + stream[i..]] == now[path := now[path] + stream[i + k..]]
            && (i + k == |stream| ==> local[path := local[path] + stream[i..]] == now)
  {
    assert stream[i..] == stream[i..i + k] + stream[i + k..];
    assert local[path] + stream[i..] == (local[path] + stream[i..i + k]) + stream[i + k..];
    if i + k == |stream| {
      assert stream[i..] == stream[i..i + k];
    }
  }

  lemma BodyHeads(s: State, k: nat, goal: World)
    requires LinkInv(s) && ClientInv(s) && Heads(s, goal) && s.client.CBody? && CanClientRecv(s, k, k)
    ensures Heads(ClientRecv(s, k, k), goal)
  {
    TakeReply(s, k);
    WriteParts(s.local, s.client.cmd.path, s.x.reply, s.x.got, k);
    assert s.s2c[..k][..k] == s.s2c[..k];
    hide LinkInv, Exec, ClientReply, AfterSkip;
  }

  lemma SkipHeads(s: State, k: nat, goal: World)
    requires SessionInv(s) && Heads(s, goal) && s.client.CSkip? && CanClientRecv(s, k, k)
    ensures Heads(ClientRecv(s, k, k), goal)
  {
    hide EncodeRequest, CodecInv, NoMagic, HistoryInv, Tells, StartUpload;
    var cmd, size := s.client.cmd, s.client.size;
    if k == s.client.remaining && size < |s.local[cmd.path]| {
      StartUploadHeads(Took(s, k), cmd, size);
    }
  }

  lemma ClientHeads(s: State, k: nat, goal: World)
    requires SessionInv(s) && Heads(s, goal) && CanClientRecv(s, k, k)
    ensures Heads(ClientRecv(s, k, k), goal)
  {
    hide ClientRecv, Heads, LinkInv, ClientInv, CodecInv, HistoryInv, Tells;
    match s.client
    case CAwait(_, _, _) => AwaitHeads(s, k, goal);
    case CBody(_, _) => BodyHeads(s, k, goal);
    case CSkip(_, _, _) => SkipHeads(s, k, goal);
  }

  lemma AwaitHeads(s: State, k: nat, goal: World)
    requires SessionInv(s) && Heads(s, goal) && s.client.CAwait? && CanClientRecv(s, k, k)
    ensures Heads(ClientRecv(s, k, k), goal)
  {
    hide CodecInv, ServerInv, Channels, HistoryInv, Tells, Exec, ClientReply, Probing, Ties;
    Replying(s, k);
    if s.x.got + k == RESPONSE_SIZE {
      AwaitLast(s, k, k);
      hide ClientRecv, Heads;
      if s.client.probe {
        ProbeHeads(s, k, goal);
      } else if s.client.cmd.Download? || s.client.cmd.DownloadResume? {
        DownloadHeads(s, k, goal);
      } else {
        OtherHeads(s, k, goal);
      }
    }
  }

  /** Bytes on the client's channel are those of a reply. */
  lemma Replying(s: State, k: nat)
    requires LinkInv(s) && 1 <= k <= |s.s2c|
    ensures s.x.reply != []
  {
    hide NoMagic, Shape, ServerInv;
  }

  // ---- steps of the server ----

  /** A request that is served at once has the effect of its command. */
  lemma SimpleHandle(s: State, cmd: Command)
    requires Ties(cmd, false, s.x.request) && s.x.request.magic == MAGIC
    requires !cmd.Download? && !cmd.DownloadResume? && !cmd.Upload? && !cmd.UploadResume?
    ensures Handle(s, s.x.request).disk == Exec(World(s.local, s.disk), cmd).disk
    ensures Handle(s, s.x.request).x.seen
  {
    hide Dispatch, Respond, Exec, Ties;
    SimpleDispatch(s, cmd);
  }

  lemma SimpleDispatch(s: State, cmd: Command)
    requires Ties(cmd, false, s.x.request)
    requires !cmd.Download? && !cmd.DownloadResume? && !cmd.Upload? && !cmd.UploadResume?
    ensures var a := Dispatch(s.disk, s.x.request);
            a.Answer? && a.disk == Exec(World(s.local, s.disk), cmd).disk
  {
    hide Denied, Reply, SendFile, RecvFile;
  }

  lemma DownloadHandle(s: State)
    requires s.x.request.cmd == CMD_DOWNLOAD && s.x.request.magic == MAGIC
    ensures var t := Handle(s, s.x.request);
            t.disk == s.disk && t.x.request == s.x.request
  {
    hide EncodeResponse, SendFile;
  }

  lemma Opened(disk: Disk, r: Request)
    requires r.cmd == CMD_UPLOAD && !Refuses(disk, r.filename)
    requires r.offset > 0 ==> IsFile(disk, r.filename)
    ensures var base := if r.offset > 0 then FileData(disk, r.filename) else [];
            Dispatch(disk, r) == Receive(disk[r.filename := File(base)])
  {
    hide Denied, Reply, SendFile;
    if r.offset > 0 {
      assert disk[r.filename := disk[r.filename]] == disk;
    }
  }

  /** A refused upload changes nothing. */
  lemma RefusedHandle(s: State)
    requires !s.x.seen && s.x.request.cmd == CMD_UPLOAD && s.x.request.magic == MAGIC
    requires Refuses(s.disk, s.x.request.filename) && !s.server.SRecv?
    ensures var t := Handle(s, s.x.request);
            Uploaded(t) == Uploaded(s) && Aligned(t)
  {
    hide EncodeResponse, Reply;
  }

  /** An accepted upload is opened where its data goes. */
  lemma UploadHandle(s: State)
    requires Shape(s.x) && s.x.outgoing != [] && !s.x.seen && s.x.request.cmd == CMD_UPLOAD
    requires s.x.request.magic == MAGIC && Sound(s.disk, s.x.request) && Aligned(s) && !s.server.SRecv?
    ensures Uploaded(Handle(s, s.x.request)) == Uploaded(s) && Aligned(Handle(s, s.x.request))
  {
    var r := s.x.request;
    if Refuses(s.disk, r.filename) {
      RefusedHandle(s);
      return;
    }
    Opened(s.disk, r);
    hide Dispatch, Sound, EncodeResponse, Refuses;
    var base := if r.offset > 0 then FileData(s.disk, r.filename) else [];
    var emptied := s.disk[r.filename := File(base)];
    if r.dataLen == 0 {
      assert base + s.x.body == base;
    } else {
      assert s.x.body[0..] == s.x.body;
      assert emptied[r.filename := File(base + s.x.body)] == s.disk[r.filename := File(base + s.x.body)];
    }
  }

  lemma HandleHeads(s: State, goal: World)
    requires Channels(s) && Shape(s.x) && Busy(s) && CodecInv(s.x, s.disk) && Heads(s, goal)
    requires s.x.outgoing != [] && !s.x.seen && s.x.reply == [] && !s.server.SRecv?
    ensures Heads(Handle(s, s.x.request), goal)
  {
    hide Handle, Channels, CodecInv, Shape, Exec, Uploaded, Aligned, Sound;
    CodecFacts(s);
    if s.x.request.cmd == CMD_UPLOAD {
      UploadHandle(s);
    } else if s.x.request.cmd == CMD_DOWNLOAD {
      DownloadHandle(s);
    } else {
      SimpleHandle(s, s.client.cmd);
      ExecLocal(s, s.client.cmd);
    }
  }

  lemma ExecLocal(s: State, cmd: Command)
    requires !cmd.Download? && !cmd.DownloadResume?
    ensures Exec(World(s.local, s.disk), cmd).local == s.local
  {
  }

  lemma Stored(s: State, k: nat)
    requires Channels(s) && Shape(s.x) && ServerInv(s) && s.server.SRecv? && Aligned(s)
    requires k <= |s.c2s| && k <= s.server.remaining
    ensures var data, i := s.disk[s.server.name].data, |s.x.body| - s.server.remaining;
            && 0 <= i <= i + k <= |s.x.body|
            && WriteAt(data, s.server.pos, s.c2s[..k][..k]) == data + s.x.body[i..i + k]
  {
    TakeRequest(s, k);
    hide NoMagic;
    var i := |s.x.body| - s.server.remaining;
    assert s.c2s[..k] == s.x.body[i..i + k];
    assert s.c2s[..k][..k] == s.c2s[..k];
  }

  lemma StoreUploaded(s: State, k: nat)
    requires Inv(s) && s.server.SRecv? && Aligned(s) && CanServerRecv(s, k, k)
    ensures Uploaded(ServerRecv(s, k, k)) == Uploaded(s) && Aligned(ServerRecv(s, k, k))
  {
    Stored(s, k);
    hide EncodeRequest, EncodeResponse, CodecInv, NoMagic, WriteAt, Channels, ClientInv;
    StoredParts(s.disk, s.server.name, s.x.body, |s.x.body| - s.server.remaining, k);
    hide Shape;
  }

  /** Storing a part now and the rest later is storing both. */
  lemma StoredParts(disk: Disk, name: Name, body: seq<byte>, i: nat, k: nat)
    requires IsFile(disk, name) && i + k <= |body|
    ensures var data := disk[name].data;
            var stored := disk[name := File(data + body[i..i + k])];
            && stored[name := File((data + body[i..i + k]) + body[i + k..])] == disk[name := File(data + body[i..])]
            && (i + k == |body| ==> stored == disk[name := File(data + body[i..])])
  {
    var data := disk[name].data;
    assert body[i..] == body[i..i + k] + body[i + k..];
    assert data + body[i..] == (data + body[i..i + k]) + body[i + k..];
    if i + k == |body| {
      assert body[i..] == body[i..i + k];
    }
  }

  lemma StoreHeads(s: State, k: nat, goal: World)
    requires SessionInv(s) && Heads(s, goal) && s.server.SRecv? && CanServerRecv(s, k, k)
    ensures Heads(ServerRecv(s, k, k), goal)
  {
    hide EncodeRequest, EncodeResponse, CodecInv, NoMagic, HistoryInv, Tells, Exec, Uploaded, Aligned, WriteAt;
    StoreUploaded(s, k);
  }

  lemma HeadMoreHeads(s: State, k: nat, goal: World)
    requires Heads(s, goal) && s.server.SHead? && CanServerRecv(s, k, k) && |s.server.buffer| + k < REQUEST_SIZE
    ensures Heads(ServerRecv(s, k, k), goal)
  {
    hide Handle, Exec;
  }

  lemma HeadLastHeads(s: State, k: nat, goal: World)
    requires SessionInv(s) && Heads(s, goal) && CanServerRecv(s, k, k) && !s.x.derailed
    requires s.server.SHead? && |s.server.buffer| + k == REQUEST_SIZE
    ensures Heads(ServerRecv(s, k, k), goal)
    ensures ServerRecv(s, k, k).up == s.up && !ServerRecv(s, k, k).x.derailed
  {
    HeadLast(s, k, k);
    TakeRequest(s, k);
    CodecFrame(s.x, Read(s, k).x, s.disk);
    ReadHeads(s, k, goal);
    hide ServerRecv, CodecInv, NoMagic, HistoryInv, Tells, Heads, Busy, ClientInv, Dispatch, EncodeResponse, Channels;
    HandleHeads(Read(s, k), goal);
    HandleStaysUp(Read(s, k));
  }

  lemma ReadHeads(s: State, k: nat, goal: World)
    requires Inv(s) && Heads(s, goal) && k <= |s.c2s| && !s.x.seen && s.server.SHead?
    ensures Busy(Read(s, k)) && Heads(Read(s, k), goal)
  {
    hide EncodeRequest, NoMagic, Exec, CodecInv, Channels;
  }

  lemma HandleStaysUp(s: State)
    requires CodecInv(s.x, s.disk) && s.x.outgoing != []
    ensures Handle(s, s.x.request).up == s.up && Handle(s, s.x.request).x.derailed == s.x.derailed
  {
    hide EncodeRequest, Respond, Dispatch, Sound;
    match Dispatch(s.disk, s.x.request)
    case Answer(_, _) =>
    case Stream(_, _) =>
    case Receive(_) =>
  }

  lemma ServerHeads(s: State, k: nat, goal: World)
    requires SessionInv(s) && Heads(s, goal) && CanServerRecv(s, k, k) && !s.x.derailed
    ensures Heads(ServerRecv(s, k, k), goal)
    ensures ServerRecv(s, k, k).up == s.up && !ServerRecv(s, k, k).x.derailed
  {
    hide Heads, SessionInv, Handle, EncodeResponse, WriteAt;
    if s.server.SRecv? {
      StoreHeads(s, k, goal);
    } else if |s.server.buffer| + k == REQUEST_SIZE {
      HeadLastHeads(s, k, goal);
    } else {
      HeadMoreHeads(s, k, goal);
    }
  }

  // ---- every run ----

  /** A step without a fault: nothing breaks and every write is complete. */
  predicate Faultless(st: Step) {
    match st
    case ClientReceives(k, w) => w == k
    case ServerReceives(k, w) => w == k
    case Begin(_) => true
    case ClientSends(_) => true
    case ServerSends(_) => true
    case _ => false
  }

  lemma SendHeads(s: State, st: Step, goal: World)
    requires Heads(s, goal) && Enabled(s, st) && (st.ClientSends? || st.ServerSends?)
    requires st.ClientSends? ==> ClientInv(s)
    ensures Heads(Apply(s, st), goal)
    ensures Apply(s, st).up == s.up && Apply(s, st).x.derailed == s.x.derailed
  {
    hide Heads, ClientSend, ServerSend, ClientInv;
    match st
    case ClientSends(k) => ClientSendHeads(s, k, goal);
    case ServerSends(k) => ServerSendHeads(s, k, goal);
  }

  lemma ClientSendHeads(s: State, k: nat, goal: World)
    requires ClientInv(s) && Heads(s, goal) && CanClientSend(s, k)
    ensures var t := ClientSend(s, k);
            Heads(t, goal) && t.up == s.up && t.x.derailed == s.x.derailed
  {
    hide Exec, UploadOk, Ties, FileData, Refuses;
  }

  lemma ServerSendHeads(s: State, k: nat, goal: World)
    requires Heads(s, goal) && CanServerSend(s, k)
    ensures var t := ServerSend(s, k);
            Heads(t, goal) && t.up == s.up && t.x.derailed == s.x.derailed
  {
    hide Exec, FileData, Refuses;
  }

  lemma HeadsStep(s: State, st: Step, goal: World)
    requires SessionInv(s) && s.up && !s.x.derailed && Heads(s, goal) && Legal(s, st) && Faultless(st)
    ensures Heads(Apply(s, st), if st.Begin? then Exec(goal, CutName(st.cmd)) else goal)
    ensures Apply(s, st).up && !Apply(s, st).x.derailed
  {
    match st
    case Begin(cmd) =>
      assert goal == World(s.local, s.disk) && !s.server.SRecv?;
      BeginHeads(s, CutName(cmd));
      hide BeginCommand, CutName, Exec, Heads, SessionInv, Acceptable;
    case ClientReceives(k, _) =>
      ClientHeads(s, k, goal);
      hide ClientRecv, Heads, SessionInv;
    case ServerReceives(k, _) =>
      ServerHeads(s, k, goal);
      hide ServerRecv, Heads, SessionInv;
    case _ =>
      SendHeads(s, st, goal);
      hide Heads, SessionInv, Apply;
  }

  function ExecAll(w: World, run: seq<Step>): World
    decreases |run|
  {
    if run == [] then w
    else ExecAll(if run[0].Begin? then Exec(w, CutName(run[0].cmd)) else w, run[1..])
  }

  lemma {:induction false} HeadsRun(s: State, run: seq<Step>, goal: World)
    requires SessionInv(s) && s.up && !s.x.derailed && Heads(s, goal) && IsRun(s, run)
    requires forall i :: 0 <= i < |run| ==> Faultless(run[i])
    ensures Heads(Final(s, run), ExecAll(goal, run))
    decreases |run|
  {
    hide SessionInv, Heads, Enabled, NoMagic, Acceptable, CutName, Apply, Exec, Faultless;
    if run == [] {
    } else {
      SessionStep(s, run[0]);
      HeadsStep(s, run[0], goal);
      HeadsRun(Apply(s, run[0]), run[1..], if run[0].Begin? then Exec(goal, CutName(run[0].cmd)) else goal);
    }
  }

  /** Between two commands of a session without faults, the files on both sides
      are what executing the commands one after the other makes of them. */
  lemma SessionIsSequential(s: State, run: seq<Step>)
    requires Fresh(s) && IsRun(s, run) && forall i :: 0 <= i < |run| ==> Faultless(run[i])
    ensures var t := Final(s, run);
            t.client.CReady? ==> World(t.local, t.disk) == ExecAll(World(s.local, s.disk), run)
  {
    HeadsRun(s, run, World(s.local, s.disk));
  }
}
