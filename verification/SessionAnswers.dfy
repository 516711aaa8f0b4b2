/** What the server answers: the status of every response as a fact about the files
    before and after, and that the client of an unbroken command is told exactly that. */
module SessionAnswers {
  import opened Wire
  import opened Session
  import opened Framing
  import opened SessionTheorems
  import opened SessionRefinement
  import opened SessionProgress
  import ResumeUpload

  // ---- one request ----

  /** A name with a slash or two dots in a row in it. */
  ghost predicate LeavesDirectory(n: Name) {
    47 in n || exists i :: 1 <= i < |n| && n[i] == 46 == n[i - 1]
  }

  lemma DeniedIsTraversal(n: Name)
    ensures Denied(n) <==> LeavesDirectory(n)
  {
    if i :| 0 <= i < |n| - 1 && n[i] == 46 && n[i + 1] == 46 {
      assert n[i + 1] == 46 == n[i + 1 - 1];
    }
    if i :| 1 <= i < |n| && n[i] == 46 == n[i - 1] {
      assert n[i - 1] == 46 && n[i - 1 + 1] == 46;
    }
  }

  /** The status that a request gets from a server with these files: 0 success, 1 error,
      2 not found, 3 denied, 4 success from an offset on. The requests are 2 upload,
      3 download, 4 delete, 7 mkdir, 8 rmdir, 9 pwd. */
  ghost function Verdict(disk: Disk, code: nat, n: Name, offset: nat): nat {
    if code == 9 then 0
    else if code !in {2, 3, 4, 7, 8} then 1
    else if LeavesDirectory(n) then 3
    else if code == 2 then if n in disk && disk[n].Dir? then 1 else 0
    else if code == 3 then
      if n !in disk then 2
      else if offset > (if disk[n].File? then |disk[n].data| else 4096) then 1
      else if offset > 0 then 4
      else 0
    else if code == 4 then if n in disk && disk[n].File? then 0 else 2
    else if code == 7 then if n in disk then 1 else 0
    else if n in disk && disk[n].Dir? then 0 else 1
  }

  /** ... and what it makes of the files if it is served at once. */
  ghost function Served(disk: Disk, code: nat, n: Name, offset: nat): Disk {
    if Verdict(disk, code, n, offset) != 0 then disk
    else if code == 4 || code == 8 then disk - {n}
    else if code == 7 then disk[n := Dir]
    else disk
  }

  lemma DispatchAnswers(disk: Disk, r: Request)
    ensures var v, d := Verdict(disk, r.cmd, r.filename, r.offset), Served(disk, r.cmd, r.filename, r.offset);
            match Dispatch(disk, r)
            case Answer(d', a) => a.status == v && a.dataLen == 0 && d' == d && (r.cmd == 2 ==> v != 0)
            case Stream(a, data) =>
              && r.cmd == 3 && a.status == v && d == disk
              && (r.filename in disk && disk[r.filename].File? ==>
                    r.offset <= |disk[r.filename].data| && data == disk[r.filename].data[r.offset..])
            case Receive(d') =>
              && r.cmd == 2 && v == 0 && r.filename in d'
              && (forall m :: m != r.filename ==> (m in d' <==> m in disk) && (m in d' ==> d'[m] == disk[m]))
              && d'[r.filename] == (if r.offset > 0 && r.filename in disk then disk[r.filename] else File([]))
  {
    hide Denied, Cut;
    DeniedIsTraversal(r.filename);
    hide LeavesDirectory;
  }

  /** Whatever request the server decodes: it answers at once with the status that the files
      call for, and the files change accordingly; an upload with a body is received first. */
  lemma HandleAnswers(s: State, r: Request)
    requires r.magic == MAGIC && s.x.reply == []
    ensures var v, t := Verdict(s.disk, r.cmd, r.filename, r.offset), Handle(s, r);
            && t.x.seen && t.replies == s.replies
            && (r.cmd != 2 || v != 0 ==> t.disk == Served(s.disk, r.cmd, r.filename, r.offset))
            && if r.cmd == 2 && v == 0 && r.dataLen > 0 then
                 t.server == SRecv(r.filename, r.offset, r.offset, r.dataLen) && t.x.reply == [] && t.answers == s.answers
               else
                 t.x.reply != [] && t.x.response.status == v && t.answers == s.answers + [t.x.response]
  {
    hide Dispatch, EncodeResponse, Served, Verdict;
    DispatchAnswers(s.disk, r);
    UploadedIsOk();
    match Dispatch(s.disk, r)
    case Answer(_, _) =>
    case Stream(_, _) =>
    case Receive(_) =>
  }

  lemma UploadedIsOk()
    ensures UPLOADED.status == 0 && UPLOADED.dataLen == 0
  {
  }

  /** The upload whose last bytes are stored is confirmed, with status OK. */
  lemma StoredIsConfirmed(s: State, k: nat)
    requires s.server.SRecv? && CanServerRecv(s, k, k) && k == s.server.remaining
    ensures var t := ServerRecv(s, k, k);
            && t.x.reply != [] && t.x.response.status == 0 && t.answers == s.answers + [t.x.response]
            && IsFile(t.disk, s.server.name) && t.replies == s.replies && t.x.seen == s.x.seen
            && t.disk[s.server.name].data == WriteAt(s.disk[s.server.name].data, s.server.pos, s.c2s[..k])
  {
    hide WriteAt, EncodeResponse;
    UploadedIsOk();
    assert s.c2s[..k][..k] == s.c2s[..k];
  }

  /** A write that fails is not confirmed. */
  lemma AbandonedIsNotConfirmed(s: State, k: nat, w: nat)
    requires s.server.SRecv? && CanServerRecv(s, k, w) && w < k
    ensures ServerRecv(s, k, w).answers == s.answers && ServerRecv(s, k, w).x.reply == s.x.reply
  {
  }

  /** A header without the magic number is refused with an error, unread, and the server
      hangs up. */
  lemma WrongMagicIsRefused(s: State, r: Request)
    requires r.magic != 0x46535256
    ensures var t := Handle(s, r);
            && t.x.response.status == 1 && t.answers == s.answers + [t.x.response] && t.server.SClosed? && !t.up
            && t.disk == s.disk && t.handled == s.handled
  {
    hide Dispatch, EncodeResponse, Cut;
  }

  /** Every command opens with the bytes of the magic number, lowest first. */
  lemma HeaderStart(code: nat, dataLen: nat, offset: nat, name: Name)
    requires ValidRequest(Ask(code, dataLen, offset, name))
    ensures EncodeRequest(Ask(code, dataLen, offset, name))[..4] == [0x56, 0x52, 0x53, 0x46]
  {
    var r := Ask(code, dataLen, offset, name);
    hide EncodeRequest;
    forall i: nat | i < 4 ensures EncodeRequest(r)[i] == [0x56, 0x52, 0x53, 0x46][i] {
      RequestBytes(r, i);
      MagicBytes(i);
    }
  }

  lemma MagicBytes(i: nat)
    requires i < 4
    ensures MAGIC / Pow256(i) % 256 == [0x56, 0x52, 0x53, 0x46][i]
  {
    assert Pow256(1) == 256 && Pow256(2) == 256 * Pow256(1) && Pow256(3) == 256 * Pow256(2);
  }

  /** No receive step overruns its buffer: headers and responses are put together in
      structs of 280 and 264 bytes, file data passes through 4096. */
  lemma ReceivesFitBuffers(s: State, k: nat, w: nat)
    ensures Enabled(s, ServerReceives(k, w)) ==>
              if s.server.SHead? then |s.server.buffer| + k <= 280 else s.server.SRecv? && k <= 4096 && k <= s.server.remaining
    ensures Enabled(s, ClientReceives(k, w)) ==>
              if s.client.CAwait? then |s.client.buffer| + k <= 264
              else (s.client.CBody? || s.client.CSkip?) && k <= 4096 && k <= s.client.remaining
  {
  }

  // ---- one command ----

  /** The statuses that the client is told in the course of a command. */
  ghost function Told(local: Local, disk: Disk, cmd: Command): seq<nat> {
    match cmd
    case Download(remote, _) => [Verdict(disk, 3, remote, 0)]
    case DownloadResume(remote, path) => [Verdict(disk, 3, remote, if path in local then |local[path]| else 0)]
    case Upload(path, remote) => if path in local then [Verdict(disk, 2, remote, 0)] else []
    case UploadResume(path, remote) =>
      if path in local then [Verdict(disk, 3, remote, 0)] + Second(local, disk, cmd) else []
    case Delete(remote) => [Verdict(disk, 4, remote, 0)]
    case MakeDir(remote) => [Verdict(disk, 7, remote, 0)]
    case RemoveDir(remote) => [Verdict(disk, 8, remote, 0)]
    case PrintDir => [0]
  }

  /** A resumed upload sends what the server's copy lacks, if that is anything. */
  ghost function Second(local: Local, disk: Disk, cmd: Command): seq<nat>
    requires cmd.UploadResume? && cmd.path in local
  {
    if Resumable(disk, cmd.remote) && |disk[cmd.remote].data| >= |local[cmd.path]| then []
    else [Verdict(disk, 2, cmd.remote, 0)]
  }

  predicate Resumable(disk: Disk, remote: Name) {
    IsFile(disk, remote) && disk[remote].data != [] && !Denied(remote)
  }

  /** The status of the current exchange: as it is, or as it will be. */
  ghost function Current(s: State): nat {
    var r := s.x.request;
    if s.x.reply != [] then s.x.response.status
    else if s.x.seen then 0
    else Verdict(s.disk, r.cmd, r.filename, r.offset)
  }

  /** What the client has yet to be told. */
  ghost function Due(s: State): seq<nat> {
    match s.client
    case CAwait(cmd, probe, _) =>
      if probe && cmd.UploadResume? && cmd.path in s.local then [Current(s)] + Second(s.local, s.disk, cmd)
      else [Current(s)]
    case CSkip(cmd, _, _) => if cmd.UploadResume? && cmd.path in s.local then Second(s.local, s.disk, cmd) else []
    case CSend(_, _) => [Current(s)]
    case _ => []
  }

  function Codes(rs: seq<Response>): seq<nat> { seq(|rs|, i requires 0 <= i < |rs| => rs[i].status) }

  lemma CodesAppend(rs: seq<Response>, r: Response)
    ensures Codes(rs + [r]) == Codes(rs) + [r.status]
  {
  }

  /** Everything told so far and still due. */
  ghost function Account(s: State): seq<nat> { Codes(s.replies) + Due(s) }

  lemma BeginTells(s: State, cmd: Command)
    requires s.client.CReady?
    ensures Account(BeginCommand(s, cmd)) == Codes(s.replies) + Told(s.local, s.disk, cmd)
    ensures BeginCommand(s, cmd).replies == s.replies
  {
    hide EncodeRequest, LeavesDirectory, Codes, Second;
  }

  /** The probe has been answered: skip the copy, or upload from the start. */
  lemma ProbeTells(s: State, k: nat)
    requires SessionInv(s) && s.client.CAwait? && s.client.probe && k <= |s.s2c| && s.x.reply != []
    ensures Account(ClientReply(Took(s, k), s.client.cmd, true, s.x.response)) == Account(s)
  {
    hide SessionInv, Verdict, ClientReply, Codes, Denied, Second;
    ProbeReports(s);
    ProbesLocal(s);
    ProbedDue(s, k);
    var a, t := Codes(s.replies), ClientReply(Took(s, k), s.client.cmd, true, s.x.response);
    ReplyFrame(Took(s, k), s.client.cmd, true, s.x.response);
    CodesAppend(s.replies, s.x.response);
    assert a + ([s.x.response.status] + Due(t)) == a + [s.x.response.status] + Due(t);
  }

  lemma ProbedDue(s: State, k: nat)
    requires s.client.CAwait? && s.client.cmd.UploadResume? && s.client.cmd.path in s.local && k <= |s.s2c|
    requires var r := s.x.response;
             && (r.status == STATUS_OK && r.dataLen > 0 <==> Resumable(s.disk, s.client.cmd.remote))
    ensures Due(ClientReply(Took(s, k), s.client.cmd, true, s.x.response)) == Second(s.local, s.disk, s.client.cmd)
  {
    hide Verdict, EncodeRequest, Denied;
  }

  lemma UploadVerdict(disk: Disk, remote: Name, offset: nat)
    ensures Verdict(disk, 2, remote, offset) == Verdict(disk, 2, remote, 0)
  {
    hide LeavesDirectory;
  }

  lemma ProbesLocal(s: State)
    requires SessionInv(s) && ((s.client.CAwait? && s.client.probe) || s.client.CSkip?)
    ensures s.client.cmd.UploadResume? && s.client.cmd.path in s.local && |s.local[s.client.cmd.path]| < U32_LIMIT
  {
    hide Ties, LinkInv, CodecInv, HistoryInv, Tells;
  }

  lemma ReplyTells(s: State, k: nat)
    requires s.client.CAwait? && !s.client.probe && k <= |s.s2c| && s.x.reply != []
    ensures Account(ClientReply(Took(s, k), s.client.cmd, false, s.x.response)) == Account(s)
  {
    hide Verdict, Codes, StartUpload;
    CodesAppend(s.replies, s.x.response);
    var t := ClientReply(Took(s, k), s.client.cmd, false, s.x.response);
    assert t.replies == s.replies + [s.x.response];
    assert Codes(s.replies) + [s.x.response.status] + [] == Codes(s.replies) + [s.x.response.status];
  }

  lemma AwaitTells(s: State, k: nat)
    requires SessionInv(s) && s.client.CAwait? && CanClientRecv(s, k, k)
    ensures Account(ClientRecv(s, k, k)) == Account(s)
  {
    hide CodecInv, ServerInv, Channels, HistoryInv, Tells, ClientReply, Probing, Ties, Verdict, Second, Codes;
    if s.x.got + k == RESPONSE_SIZE {
      Replying(s, k);
      AwaitLast(s, k, k);
      hide ClientRecv, Account;
      if s.client.probe {
        ProbeTells(s, k);
      } else {
        ReplyTells(s, k);
      }
    }
  }

  /** The copy has been skipped: the rest follows if the local file is longer. */
  lemma SkipTells(s: State, k: nat, goal: World)
    requires SessionInv(s) && Heads(s, goal) && s.client.CSkip? && CanClientRecv(s, k, k) && Resumable(s.disk, s.client.cmd.remote)
    ensures Account(ClientRecv(s, k, k)) == Account(s)
  {
    hide Verdict, EncodeRequest, Codes, Denied, SessionInv, Exec;
    ProbesLocal(s);
    UploadVerdict(s.disk, s.client.cmd.remote, s.client.size);
  }

  /** While a copy is skipped, there is one. */
  ghost predicate SkipsCopy(s: State) { s.client.CSkip? ==> s.client.cmd.UploadResume? && Resumable(s.disk, s.client.cmd.remote) }

  lemma ClientTells(s: State, k: nat, goal: World)
    requires SessionInv(s) && Heads(s, goal) && CanClientRecv(s, k, k) && SkipsCopy(s)
    ensures Account(ClientRecv(s, k, k)) == Account(s) && SkipsCopy(ClientRecv(s, k, k))
  {
    hide Account, Heads, SessionInv, ClientReply, StartUpload, Resumable;
    SkipsOn(s, k);
    match s.client
    case CAwait(_, _, _) => AwaitTells(s, k);
    case CBody(_, _) => BodyTells(s, k);
    case CSkip(_, _, _) => SkipTells(s, k, goal);
  }

  lemma SkipsOn(s: State, k: nat)
    requires SessionInv(s) && CanClientRecv(s, k, k) && SkipsCopy(s)
    ensures SkipsCopy(ClientRecv(s, k, k))
  {
    hide CodecInv, ServerInv, Channels, HistoryInv, Tells, ClientReply, Probing, Ties, Denied, Shape;
    if s.client.CAwait? && s.x.got + k == RESPONSE_SIZE {
      Replying(s, k);
      AwaitLast(s, k, k);
      hide ClientRecv;
      if s.client.probe {
        ProbeReports(s);
        ProbeSkips(s, k);
      } else {
        ReplySkips(s, k);
      }
    }
  }

  lemma ProbeSkips(s: State, k: nat)
    requires s.client.CAwait? && k <= |s.s2c| && s.client.cmd.UploadResume?
    requires s.x.response.status == STATUS_OK && s.x.response.dataLen > 0 ==> Resumable(s.disk, s.client.cmd.remote)
    ensures SkipsCopy(ClientReply(Took(s, k), s.client.cmd, true, s.x.response))
  {
    hide EncodeRequest, Resumable;
  }

  lemma ReplySkips(s: State, k: nat)
    requires s.client.CAwait? && k <= |s.s2c|
    ensures !ClientReply(Took(s, k), s.client.cmd, false, s.x.response).client.CSkip?
  {
    hide StartUpload;
  }

  lemma BodyTells(s: State, k: nat)
    requires s.client.CBody? && CanClientRecv(s, k, k)
    ensures Account(ClientRecv(s, k, k)) == Account(s)
  {
  }

  // ---- the server's steps ----

  lemma HeadTells(s: State, k: nat)
    requires SessionInv(s) && !s.x.derailed && CanServerRecv(s, k, k)
    requires s.server.SHead? && |s.server.buffer| + k == REQUEST_SIZE
    ensures Account(ServerRecv(s, k, k)) == Account(s) && SkipsCopy(ServerRecv(s, k, k)) == SkipsCopy(s)
  {
    hide EncodeRequest, NoMagic, HistoryInv, Tells, Handle, CodecInv, DecodeRequest, Verdict, Codes, Second, Resumable, ServerRecv;
    NotSeen(s);
    Unanswered(s);
    HeadLast(s, k, k);
    HandleAnswers(Read(s, k), s.x.request);
    HandlesProbe(s);
    hide SessionInv;
  }

  /** A server that reads a header has none of it decoded. */
  lemma NotSeen(s: State)
    requires SessionInv(s) && !s.x.derailed && s.server.SHead? && s.c2s != []
    ensures !s.x.seen
  {
    hide CodecInv, NoMagic, HistoryInv, Tells, ClientInv;
  }

  /** The request of a probe does not change the files. */
  lemma HandlesProbe(s: State)
    requires SessionInv(s) && !s.x.seen && s.x.reply == []
    ensures !s.client.CSkip?
    ensures s.client.CAwait? && s.client.probe ==>
              var r := s.x.request; r.cmd == 3 && Served(s.disk, r.cmd, r.filename, r.offset) == s.disk
  {
    hide CodecInv, NoMagic, HistoryInv, Tells, Verdict, UploadOk;
  }

  lemma StoreTells(s: State, k: nat)
    requires SessionInv(s) && CanServerRecv(s, k, k) && s.server.SRecv?
    ensures Account(ServerRecv(s, k, k)) == Account(s) && SkipsCopy(ServerRecv(s, k, k))
  {
    hide EncodeResponse, CodecInv, NoMagic, HistoryInv, Tells, WriteAt, Verdict, Codes, Second, Resumable;
    assert s.x.seen && s.x.reply == [] && !s.client.CSkip? && (s.client.CAwait? ==> !s.client.probe);
    if k == s.server.remaining {
      StoredIsConfirmed(s, k);
    }
    hide SessionInv;
  }

  lemma ServerTells(s: State, k: nat)
    requires SessionInv(s) && !s.x.derailed && CanServerRecv(s, k, k) && SkipsCopy(s)
    ensures Account(ServerRecv(s, k, k)) == Account(s) && SkipsCopy(ServerRecv(s, k, k))
  {
    hide SessionInv, Handle, DecodeRequest, Resumable, Verdict, Codes, Second;
    if s.server.SRecv? {
      StoreTells(s, k);
    } else if |s.server.buffer| + k == REQUEST_SIZE {
      HeadTells(s, k);
    }
  }

  // ---- every run ----

  lemma MoveTells(s: State, st: Step, goal: World)
    requires SessionInv(s) && !s.x.derailed && Heads(s, goal) && SkipsCopy(s) && Moves(s, st)
    ensures Account(Apply(s, st)) == Account(s) && SkipsCopy(Apply(s, st))
  {
    hide SessionInv, Heads, ClientRecv, ServerRecv, Verdict, Codes, Second, Resumable;
    match st
    case ClientReceives(k, _) => ClientTells(s, k, goal);
    case ServerReceives(k, _) => ServerTells(s, k);
    case _ =>
  }

  lemma {:induction false} RunTells(s: State, run: seq<Step>, goal: World)
    requires SessionInv(s) && s.up && !s.x.derailed && Heads(s, goal) && SkipsCopy(s) && IsRun(s, run) && AllMove(run)
    ensures Account(Final(s, run)) == Account(s)
    decreases |run|
  {
    hide SessionInv, Heads, Enabled, Acceptable, NoMagic, CutName, Apply, Faultless, Account, SkipsCopy;
    if run == [] {
    } else {
      SessionStep(s, run[0]);
      HeadsStep(s, run[0], goal);
      MoveTells(s, run[0], goal);
      RunTells(Apply(s, run[0]), run[1..], goal);
    }
  }

  /** Every acceptable command, at any point of any session and however its bytes are cut
      up: while nothing breaks, the client is told a part of the statuses that the files at
      its beginning call for, and exactly those when it is ready again. */
  lemma CommandIsAnswered(s: State, cmd: Command, run: seq<Step>)
    requires SessionInv(s) && s.client.CReady? && s.up && Settled(s) && Acceptable(s.local, s.disk, CutName(cmd))
    requires IsRun(Apply(s, Begin(cmd)), run) && AllMove(run)
    ensures var t, told := Final(Apply(s, Begin(cmd)), run), Codes(s.replies) + Told(s.local, s.disk, CutName(cmd));
            && Account(t) == told && Codes(t.replies) <= told
            && (t.client.CReady? ==> Codes(t.replies) == told)
  {
    hide SessionInv, Heads, Acceptable, CutName, BeginCommand, Exec, Codes, Told, AllMove, IsRun;
    BeginIsLegal(s, cmd);
    var t0 := Apply(s, Begin(cmd));
    SessionStep(s, Begin(cmd));
    Clean(s);
    HeadsStep(s, Begin(cmd), World(s.local, s.disk));
    BeginTells(s, CutName(cmd));
    BeginSkipsNothing(s, CutName(cmd));
    RunTells(t0, run, Exec(World(s.local, s.disk), CutName(cmd)));
  }

  lemma Clean(s: State)
    requires SessionInv(s) && s.client.CReady? && s.up && Settled(s)
    ensures !s.x.derailed && Heads(s, World(s.local, s.disk))
  {
    hide LinkInv, ClientInv, CodecInv, HistoryInv, Tells, Heads;
    ReadyIsClean(s);
  }

  lemma BeginSkipsNothing(s: State, cmd: Command)
    requires s.client.CReady?
    ensures SkipsCopy(BeginCommand(s, cmd))
  {
    hide EncodeRequest;
  }

  /** An upload to a name that the server takes is confirmed: whenever the client waits for
      the answer and there is one, it is OK, and the last status it is told is OK. */
  lemma UploadIsConfirmed(s: State, cmd: Command, run: seq<Step>)
    requires SessionInv(s) && s.client.CReady? && s.up && Settled(s) && Acceptable(s.local, s.disk, CutName(cmd))
    requires (cmd.Upload? || cmd.UploadResume?) && cmd.path in s.local && !Refuses(s.disk, Cut(cmd.remote))
    requires IsRun(Apply(s, Begin(cmd)), run) && AllMove(run)
    ensures var t := Final(Apply(s, Begin(cmd)), run);
            && (t.client.CAwait? && !t.client.probe && t.x.reply != [] ==> t.x.response.status == STATUS_OK)
            && (t.client.CReady? ==> t.replies != [] && t.replies[|t.replies| - 1].status == STATUS_OK)
  {
    hide SessionInv, Acceptable, Apply, Told, AllMove, IsRun, Cut;
    CommandIsAnswered(s, cmd, run);
    var t, told := Final(Apply(s, Begin(cmd)), run), Codes(s.replies) + Told(s.local, s.disk, CutName(cmd));
    ToldLast(s.local, s.disk, CutName(cmd));
    assert told[|told| - 1] == 0;
    if t.client.CAwait? && !t.client.probe && t.x.reply != [] {
      assert Account(t)[|told| - 1] == t.x.response.status;
    }
    if t.client.CReady? {
      assert Codes(t.replies)[|told| - 1] == t.replies[|t.replies| - 1].status;
    }
  }

  lemma ToldLast(local: Local, disk: Disk, cmd: Command)
    requires (cmd.Upload? || cmd.UploadResume?) && cmd.path in local && !Refuses(disk, cmd.remote)
    ensures var told := Told(local, disk, cmd); told != [] && told[|told| - 1] == 0
  {
    hide Denied, LeavesDirectory;
    DeniedIsTraversal(cmd.remote);
  }

  // ---- uploads meet the conditions of CompletedUpload ----

  /** The client is about this command, or done with it. */
  predicate About(s: State, cmd: Command) {
    match s.client
    case CReady => true
    case CFailed => false
    case CAwait(c, _, _) => c == cmd
    case CBody(c, _) => c == cmd
    case CSkip(c, _, _) => c == cmd
    case CSend(c, _) => c == cmd
  }

  lemma BeginIsAbout(s: State, cmd: Command)
    requires s.client.CReady?
    ensures About(BeginCommand(s, cmd), cmd)
  {
    hide EncodeRequest;
  }

  lemma MoveIsAbout(s: State, st: Step, cmd: Command)
    requires About(s, cmd) && Moves(s, st)
    ensures About(Apply(s, st), cmd)
  {
    hide EncodeRequest, ServerRecv, ClientRecv;
    if st.ClientReceives? {
      RecvIsAbout(s, st.k, st.w, cmd);
    }
  }

  lemma RecvIsAbout(s: State, k: nat, w: nat, cmd: Command)
    requires About(s, cmd) && CanClientRecv(s, k, w)
    ensures About(ClientRecv(s, k, w), cmd)
  {
    hide EncodeRequest, DecodeResponse, ClientReply;
    match s.client
    case CAwait(_, probe, buffer) =>
      if |buffer| + k == RESPONSE_SIZE {
        ReplyIsAbout(Took(s, k), cmd, probe, DecodeResponse(buffer + s.s2c[..k]));
      }
    case _ =>
  }

  lemma ReplyIsAbout(s: State, cmd: Command, probe: bool, r: Response)
    ensures About(ClientReply(s, cmd, probe, r), cmd)
  {
    hide EncodeRequest;
  }

  lemma {:induction false} RunIsAbout(s: State, run: seq<Step>, cmd: Command)
    requires About(s, cmd) && IsRun(s, run) && AllMove(run)
    ensures About(Final(s, run), cmd)
    decreases |run|
  {
    hide Enabled, Acceptable, NoMagic, CutName, Apply, Faultless, About;
    if run == [] {
    } else {
      MoveIsAbout(s, run[0], cmd);
      RunIsAbout(Apply(s, run[0]), run[1..], cmd);
    }
  }

  /** The answer that ends an upload is the one to its body, not to the probe. */
  lemma EndsWithAnswer(s: State, st: Step)
    requires SessionInv(s) && s.client.CAwait? && Moves(s, st) && Apply(s, st).client.CReady?
    ensures !s.client.probe && s.x.reply != []
  {
    hide CodecInv, NoMagic, HistoryInv, Tells, ServerRecv, ClientReply, Channels, Shape, ServerInv;
    Replying(s, st.k);
    assert s.x.got + st.k == RESPONSE_SIZE;
    AwaitLast(s, st.k, st.w);
    if s.client.probe {
      ResumeUpload.ProbeContinues(Took(s, st.k), s.client.cmd, s.x.response);
    }
  }

  /** The step that ends an unbroken upload meets the conditions of CompletedUpload, so the
      server's copy is then the local file. */
  lemma UnbrokenUploadCompletes(s: State, cmd: Command, run: seq<Step>, t: State, last: Step)
    requires SessionInv(s) && s.client.CReady? && s.up && Settled(s) && Acceptable(s.local, s.disk, cmd) && CutName(cmd) == cmd
    requires (cmd.Upload? || cmd.UploadResume?) && !Denied(cmd.remote) && ResumeUpload.CopyInv(s, cmd.path, cmd.remote)
    requires IsRun(Apply(s, Begin(cmd)), run) && AllMove(run) && t == Final(Apply(s, Begin(cmd)), run)
    requires !t.client.CReady? && Moves(t, last) && Apply(t, last).client.CReady?
    ensures SessionInv(t) && ResumeUpload.CopyInv(t, cmd.path, cmd.remote) && ResumeUpload.Uploading(t, cmd.path, cmd.remote)
    ensures t.client.CAwait? ==> t.x.response.status == STATUS_OK
    ensures cmd.remote in Apply(t, last).disk && Apply(t, last).disk[cmd.remote] == File(s.local[cmd.path])
  {
    hide SessionInv, Acceptable, Apply, AllMove, IsRun, Final, CutName, ResumeUpload.CopyInv, Denied, About, Enabled, Faultless;
    Uploads(s, cmd, run);
    AtWork(t, cmd);
    if t.client.CAwait? {
      EndsWithAnswer(t, last);
    }
    ResumeUpload.CompletedUpload(t, last, cmd.path, cmd.remote);
  }

  lemma AtWork(s: State, cmd: Command)
    requires SessionInv(s) && About(s, cmd) && !s.client.CReady? && (cmd.Upload? || cmd.UploadResume?)
    ensures ResumeUpload.Uploading(s, cmd.path, cmd.remote)
  {
    hide LinkInv, CodecInv, HistoryInv, Tells, Ties;
  }

  /** What the run keeps. */
  lemma Uploads(s: State, cmd: Command, run: seq<Step>)
    requires SessionInv(s) && s.client.CReady? && s.up && Settled(s) && Acceptable(s.local, s.disk, cmd) && CutName(cmd) == cmd
    requires (cmd.Upload? || cmd.UploadResume?) && !Denied(cmd.remote) && ResumeUpload.CopyInv(s, cmd.path, cmd.remote)
    requires IsRun(Apply(s, Begin(cmd)), run) && AllMove(run)
    ensures var t := Final(Apply(s, Begin(cmd)), run);
            && SessionInv(t) && ResumeUpload.CopyInv(t, cmd.path, cmd.remote) && About(t, cmd)
            && cmd.path in t.local && t.local[cmd.path] == s.local[cmd.path]
            && (t.client.CAwait? && !t.client.probe && t.x.reply != [] ==> t.x.response.status == STATUS_OK)
  {
    hide SessionInv, Acceptable, BeginCommand, IsRun, Final, CutName, Denied, About, ResumeUpload.UploadInv, ResumeUpload.InProgress;
    assert Cut(cmd.remote) == cmd.remote by { CutNames(cmd); }
    UploadIsConfirmed(s, cmd, run);
    BeginIsLegal(s, cmd);
    SessionStep(s, Begin(cmd));
    ResumeUpload.UpStep(s, Begin(cmd), cmd.path, cmd.remote);
    ResumeUpload.UpRun(Apply(s, Begin(cmd)), run, cmd.path, cmd.remote);
    BeginIsAbout(s, cmd);
    RunIsAbout(Apply(s, Begin(cmd)), run, cmd);
  }

  lemma CutNames(cmd: Command)
    requires !cmd.PrintDir?
    ensures CutName(cmd).remote == Cut(cmd.remote)
  {
    hide Cut;
  }
}
