/** Session framing, over every run with any chunking and any faults: the server
    decodes the requests the client sent, and the client the responses the
    server sent, in order and without a byte left over. */
module SessionTheorems {
  import opened Wire
  import opened Session
  import opened Framing

  ghost predicate HistoryInv(s: State) {
    && s.requests == s.handled + (if s.x.seen then [] else [s.x.request])
    && s.answers == s.replies + (if s.x.reply != [] && s.x.got < RESPONSE_SIZE then [s.x.response] else [])
  }

  /** Either the exchange goes on, or a new request has just been sent. */
  ghost predicate SameOrNew(s: State, t: State) {
    && t.disk == s.disk && t.handled == s.handled && t.answers == s.answers
    && (|| (t.x == s.x && t.requests == s.requests)
        || (!t.x.seen && t.x.reply == [] && t.requests == s.requests + [t.x.request]))
  }

  lemma ReplyFrame(s: State, cmd: Command, probe: bool, r: Response)
    ensures SameOrNew(s, ClientReply(s, cmd, probe, r))
    ensures ClientReply(s, cmd, probe, r).replies == s.replies + [r]
  {
    hide EncodeRequest;
  }

  lemma AfterSkipFrame(s: State, cmd: Command, size: nat)
    requires cmd.UploadResume?
    ensures SameOrNew(s, AfterSkip(s, cmd, size)) && AfterSkip(s, cmd, size).replies == s.replies
  {
    hide EncodeRequest;
  }

  lemma HistoryClientRecv(s: State, k: nat, w: nat)
    requires Inv(s) && HistoryInv(s) && CanClientRecv(s, k, w)
    ensures HistoryInv(ClientRecv(s, k, w))
  {
    hide CodecInv, NoMagic, ClientReply, AfterSkip, ServerInv;
    var t := Took(s, k);
    match s.client
    case CAwait(cmd, probe, buffer) => HistoryAwait(s, k, w);
    case CBody(cmd, remaining) =>
    case CSkip(cmd, size, remaining) => AfterSkipFrame(t, cmd, size);
  }

  lemma HistoryAwait(s: State, k: nat, w: nat)
    requires Inv(s) && HistoryInv(s) && CanClientRecv(s, k, w) && s.client.CAwait?
    ensures HistoryInv(ClientRecv(s, k, w))
  {
    hide CodecInv, NoMagic, ClientReply, ServerInv, Probing, Ties;
    if s.x.got + k == RESPONSE_SIZE {
      AwaitLast(s, k, w);
      ReplyFrame(Took(s, k), s.client.cmd, s.client.probe, s.x.response);
      hide ClientRecv;
    }
  }

  lemma HistoryHandle(s: State)
    requires HistoryInv(s) && !s.x.seen && s.x.reply == [] && s.x.got == 0 && s.x.request.magic == MAGIC
    ensures HistoryInv(Handle(s, s.x.request))
  {
    hide Dispatch, Respond;
    var r := s.x.request;
    var t := s.(handled := s.handled + [r], x := s.x.(seen := true));
    match Dispatch(s.disk, r)
    case Answer(disk, response) => HistoryRespond(t.(disk := disk), response, []);
    case Stream(response, data) => HistoryRespond(t, response, data);
    case Receive(disk) => HistoryRespond(t.(disk := disk), UPLOADED, []);
  }

  lemma HistoryRespond(s: State, r: Response, data: seq<byte>)
    requires HistoryInv(s) && s.x.seen && s.x.reply == [] && s.x.got == 0
    ensures HistoryInv(Respond(s, r, data))
  {
  }

  lemma HistoryHead(s: State, k: nat, w: nat)
    requires Inv(s) && HistoryInv(s) && CanServerRecv(s, k, w)
    requires s.server.SHead? && |s.server.buffer| + k == REQUEST_SIZE
    ensures HistoryInv(ServerRecv(s, k, w))
  {
    hide NoMagic, Handle, CodecInv, DecodeRequest;
    if s.x.seen {
      HistoryDerailed(s, k, w);
    } else {
      Unanswered(s);
      HeadLast(s, k, w);
      HistoryHandle(Read(s, k));
    }
  }

  lemma Unanswered(s: State)
    requires Inv(s) && s.server.SHead? && !s.x.seen
    ensures s.x.reply == [] && s.x.got == 0 && s.x.request.magic == MAGIC
  {
    hide NoMagic, EncodeRequest, ClientInv;
  }

  lemma HistoryDerailed(s: State, k: nat, w: nat)
    requires Inv(s) && HistoryInv(s) && CanServerRecv(s, k, w) && s.x.seen
    requires s.server.SHead? && |s.server.buffer| + k == REQUEST_SIZE
    ensures HistoryInv(ServerRecv(s, k, w))
  {
    hide NoMagic, EncodeResponse, Dispatch, DecodeRequest, CodecInv, ClientInv;
    OnlyDerailed(s);
    DerailedMagic(s, k);
  }

  lemma HistoryServerRecv(s: State, k: nat, w: nat)
    requires Inv(s) && HistoryInv(s) && CanServerRecv(s, k, w)
    ensures HistoryInv(ServerRecv(s, k, w))
  {
    hide NoMagic, CodecInv, EncodeResponse, Handle, WriteAt;
    if s.server.SHead? && |s.server.buffer| + k == REQUEST_SIZE {
      HistoryHead(s, k, w);
    }
  }

  lemma HistoryBegin(s: State, cmd: Command)
    requires Inv(s) && HistoryInv(s) && s.client.CReady? && s.up
    ensures HistoryInv(BeginCommand(s, cmd))
  {
    hide EncodeRequest, CodecInv, NoMagic;
  }

  lemma HistoryStep(s: State, st: Step)
    requires Inv(s) && HistoryInv(s) && Legal(s, st)
    ensures HistoryInv(Apply(s, st))
  {
    hide ClientRecv, ServerRecv, BeginCommand, CodecInv, NoMagic, CutName, Acceptable;
    match st
    case Begin(cmd) => HistoryBegin(s, CutName(cmd));
    case ClientReceives(k, w) => HistoryClientRecv(s, k, w);
    case ServerReceives(k, w) => HistoryServerRecv(s, k, w);
    case _ =>
  }

  // ---- a download reply describes the file ----

  /** The reply to a download request is the one the file as it is now calls for. */
  ghost predicate Tells(s: State) {
    s.x.reply != [] && s.x.request.cmd == CMD_DOWNLOAD ==>
      match SendFile(s.disk, s.x.request.filename, s.x.request.offset)
      case Stream(r, data) => s.x.response == r && s.x.reply == EncodeResponse(r) + data
      case Answer(_, r) => s.x.response == r && |s.x.reply| == RESPONSE_SIZE
      case Receive(_) => false
  }

  lemma TellsFrame(s: State, t: State)
    requires Tells(s) && (t.x.reply == [] || t.x.request.cmd != CMD_DOWNLOAD ||
                          (t.disk == s.disk && t.x.reply == s.x.reply && t.x.request == s.x.request
                           && t.x.response == s.x.response))
    ensures Tells(t)
  {
  }

  lemma TellsHandle(s: State)
    requires s.x.request.magic == MAGIC && s.x.reply == []
    ensures Tells(Handle(s, s.x.request))
  {
    hide SendFile, RecvFile, DeleteFile, MakeDirectory, RemoveDirectory, EncodeResponse, Reply;
  }

  lemma TellsClientRecv(s: State, k: nat, w: nat)
    requires Inv(s) && Tells(s) && CanClientRecv(s, k, w)
    ensures Tells(ClientRecv(s, k, w))
  {
    hide EncodeRequest, CodecInv, NoMagic, ClientReply, AfterSkip, Tells;
    var t := Took(s, k);
    match s.client {
      case CAwait(cmd, probe, buffer) =>
        if s.x.got + k == RESPONSE_SIZE {
          AwaitLast(s, k, w);
          ReplyFrame(t, cmd, probe, s.x.response);
        }
      case CBody(cmd, remaining) =>
      case CSkip(cmd, size, remaining) => AfterSkipFrame(t, cmd, size);
    }
    TellsFrame(s, ClientRecv(s, k, w));
  }

  lemma TellsServerRecv(s: State, k: nat, w: nat)
    requires Inv(s) && Tells(s) && CanServerRecv(s, k, w)
    ensures Tells(ServerRecv(s, k, w))
  {
    hide Dispatch, NoMagic, Sound, EncodeRequest, Tells;
    if s.server.SHead? && |s.server.buffer| + k == REQUEST_SIZE {
      if s.x.seen {
        DerailedMagic(s, k);
        TellsFrame(s, ServerRecv(s, k, w));
      } else {
        HeadLast(s, k, w);
        TellsHandle(Read(s, k));
      }
    } else {
      TellsFrame(s, ServerRecv(s, k, w));
    }
  }

  lemma TellsStep(s: State, st: Step)
    requires Inv(s) && Tells(s) && Legal(s, st)
    ensures Tells(Apply(s, st))
  {
    hide ClientRecv, ServerRecv, EncodeRequest, CodecInv, NoMagic, CutName, Acceptable, Tells;
    match st
    case ClientReceives(k, w) => TellsClientRecv(s, k, w);
    case ServerReceives(k, w) => TellsServerRecv(s, k, w);
    case _ => TellsFrame(s, Apply(s, st));
  }

  // ---- every run ----

  /** A connection just opened. */
  ghost predicate Fresh(s: State) {
    && s.client.CReady? && s.server == SHead([]) && s.up
    && s.c2s == [] && s.s2c == [] && s.x == IDLE
    && s.requests == [] && s.handled == [] && s.answers == [] && s.replies == []
  }

  ghost predicate SessionInv(s: State) {
    Inv(s) && HistoryInv(s) && Tells(s)
  }

  lemma FreshInv(s: State)
    requires Fresh(s)
    ensures SessionInv(s)
  {
  }

  lemma SessionStep(s: State, st: Step)
    requires SessionInv(s) && Legal(s, st)
    ensures SessionInv(Apply(s, st))
  {
    hide Inv, HistoryInv, Tells, Legal, Apply;
    StepKeeps(s, st);
    HistoryStep(s, st);
    TellsStep(s, st);
  }

  predicate IsRun(s: State, run: seq<Step>)
    decreases |run|
  {
    run == [] || (Legal(s, run[0]) && IsRun(Apply(s, run[0]), run[1..]))
  }

  function Final(s: State, run: seq<Step>): State
    requires IsRun(s, run)
    decreases |run|
  {
    if run == [] then s else Final(Apply(s, run[0]), run[1..])
  }

  lemma {:induction false} RunAppend(s: State, run: seq<Step>, st: Step)
    requires IsRun(s, run) && Legal(Final(s, run), st)
    ensures IsRun(s, run + [st]) && Final(s, run + [st]) == Apply(Final(s, run), st)
    decreases |run|
  {
    hide Enabled, Acceptable, NoMagic, CutName, Apply;
    if run == [] {
      assert run + [st] == [st] && [st][1..] == [];
    } else {
      assert (run + [st])[1..] == run[1..] + [st];
      RunAppend(Apply(s, run[0]), run[1..], st);
    }
  }

  lemma {:induction false} SessionRun(s: State, run: seq<Step>)
    requires SessionInv(s) && IsRun(s, run)
    ensures SessionInv(Final(s, run))
    decreases |run|
  {
    hide SessionInv, Enabled, NoMagic, Acceptable, CutName, Apply;
    if run == [] {
    } else {
      SessionStep(s, run[0]);
      SessionRun(Apply(s, run[0]), run[1..]);
    }
  }

  /** At every point of every run the server has decoded a prefix of what the
      client sent on this connection and the client a prefix of what the server
      answered; between two commands no request or response is outstanding, and
      exactly when the last reply was received to its end both channels are empty
      and the server waits for a fresh header. */
  lemma SessionFraming(s: State, run: seq<Step>)
    requires Fresh(s) && IsRun(s, run)
    ensures var t := Final(s, run);
            && t.handled <= t.requests && t.replies <= t.answers
            && (t.client.CReady? && t.up ==>
                  && t.handled == t.requests && t.replies == t.answers
                  && (Settled(t) <==> t.c2s == [] && t.s2c == [] && t.server == SHead([])))
  {
    SessionRun(s, run);
    hide EncodeRequest, CodecInv, NoMagic, Tells;
  }

  /** The probe of a resumed upload answers OK with a positive length exactly when there
      is something to resume, and the length is then that of the server's copy. */
  lemma ProbeReports(s: State)
    requires SessionInv(s) && s.client.CAwait? && s.client.probe && s.x.reply != []
    ensures var r, remote := s.x.response, s.x.request.filename;
            && s.client.cmd.UploadResume? && s.client.cmd.remote == remote
            && (r.status == STATUS_OK && r.dataLen > 0 <==>
                  IsFile(s.disk, remote) && s.disk[remote].data != [] && !Denied(remote))
            && (r.status == STATUS_OK && r.dataLen > 0 ==> r.dataLen == |s.disk[remote].data|)
  {
    hide EncodeRequest, CodecInv, NoMagic, HistoryInv, ServerInv, Channels, Denied;
  }
}
