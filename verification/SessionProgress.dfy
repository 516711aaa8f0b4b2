/** Commands come to an end: while nothing breaks, some party can always move a
    byte, every move uses up some of a fixed amount of work, and when no move is
    left the command has had its whole effect. */
module SessionProgress {
  import opened Wire
  import opened Session
  import opened Framing
  import opened SessionTheorems
  import opened SessionRefinement

  // ---- somebody can move ----

  /** A step of the current command, without a fault. */
  predicate Moves(s: State, st: Step) {
    Legal(s, st) && Faultless(st) && !st.Begin?
  }

  /** Empty channels: what was sent has been read. */
  lemma Delivered(s: State)
    requires Channels(s) && s.up
    ensures s.s2c == [] ==> s.x.got == s.x.produced
    ensures s.x.read < s.x.sent ==> |s.c2s| > 0
  {
  }

  /** A server that is not sending has not read the whole request of a waiting client. */
  lemma Unread(s: State)
    requires Shape(s.x) && ServerInv(s) && ClientInv(s) && s.up && !s.x.derailed && s.x.got == s.x.produced && !s.server.SSend?
    requires s.client.CAwait? || s.client.CBody? || s.client.CSkip?
    ensures s.x.read < |s.x.outgoing| == s.x.sent && (s.server.SHead? || s.server.SRecv?)
    ensures s.server.SHead? ==> |s.server.buffer| < REQUEST_SIZE
    ensures s.server.SRecv? ==> s.server.remaining > 0 && IsFile(s.disk, s.server.name)
  {
    hide NoMagic, Probing, Ties;
  }

  lemma ServerCanMove(s: State) returns (st: Step)
    requires LinkInv(s) && ClientInv(s) && s.up && !s.x.derailed && s.s2c == []
    requires s.client.CAwait? || s.client.CBody? || s.client.CSkip?
    ensures Moves(s, st)
  {
    hide Channels, Shape, ServerInv, ClientInv, NoMagic;
    Delivered(s);
    if s.server.SSend? {
      st := ServerSends(1);
      assert s.server.rest != [] by { SendsSomething(s); }
    } else {
      Unread(s);
      st := ServerReceives(1, 1);
    }
  }

  lemma SendsSomething(s: State)
    requires ServerInv(s) && s.server.SSend?
    ensures s.server.rest != []
  {
    hide NoMagic;
  }

  /** No deadlock: in the middle of a command on a working connection somebody can
      send or receive. */
  lemma NeverStuck(s: State) returns (st: Step)
    requires LinkInv(s) && ClientInv(s) && s.up && !s.x.derailed && !s.client.CReady? && !s.client.CFailed?
    ensures Moves(s, st)
  {
    hide LinkInv, EncodeRequest, CodecInv, NoMagic, UploadOk, Ties;
    if s.client.CSend? {
      st := ClientSends(1);
    } else if s.s2c != [] {
      st := ClientReceives(1, 1);
    } else {
      st := ServerCanMove(s);
    }
  }

  // ---- how much is left to do ----

  /** The length of the reply: as it is, or as it will be. */
  function ReplyLength(s: State): nat {
    if s.x.reply != [] then |s.x.reply|
    else if s.x.seen then RESPONSE_SIZE
    else
      match Dispatch(s.disk, s.x.request)
      case Stream(_, data) => RESPONSE_SIZE + |data|
      case _ => RESPONSE_SIZE
  }

  /** Bytes of the current exchange still to be sent and received, at both ends. */
  function Pending(s: State): int {
    2 * |s.x.outgoing| - s.x.sent - s.x.read + 2 * ReplyLength(s) - s.x.produced - s.x.got
  }

  /** The exchange that may still follow the probe of a resumed upload. */
  function Following(s: State): nat {
    if ((s.client.CAwait? && s.client.probe) || s.client.CSkip?) && s.client.cmd.UploadResume?
    then 2 * (REQUEST_SIZE + LocalSize(s.local, s.client.cmd.path)) + 2 * RESPONSE_SIZE
    else 0
  }

  function Work(s: State): int { Pending(s) + Following(s) }

  lemma WorkIsNat(s: State)
    requires LinkInv(s)
    ensures Work(s) >= 0
  {
    hide NoMagic, EncodeRequest, Dispatch, ServerInv;
  }

  lemma StartUploadWork(s: State, cmd: Command, offset: nat)
    requires (cmd.Upload? || cmd.UploadResume?) && cmd.path in s.local && offset <= |s.local[cmd.path]|
    ensures Work(StartUpload(s, cmd, cmd.path, cmd.remote, offset))
            < 2 * (REQUEST_SIZE + |s.local[cmd.path]|) + 2 * RESPONSE_SIZE
  {
    hide EncodeRequest, Denied;
  }

  lemma ClientMoves(s: State, k: nat)
    requires Inv(s) && CanClientRecv(s, k, k)
    ensures Work(ClientRecv(s, k, k)) < Work(s)
  {
    hide CodecInv, NoMagic, Dispatch, StartUpload, ServerInv, ClientReply;
    match s.client
    case CAwait(_, _, _) => AwaitMoves(s, k);
    case CBody(cmd, remaining) =>
    case CSkip(cmd, size, remaining) =>
      if remaining == k && cmd.path in s.local && size < U32(|s.local[cmd.path]|) {
        StartUploadWork(Took(s, k), cmd, size);
      }
  }

  lemma AwaitMoves(s: State, k: nat)
    requires Inv(s) && s.client.CAwait? && CanClientRecv(s, k, k)
    ensures Work(ClientRecv(s, k, k)) < Work(s)
  {
    hide CodecInv, NoMagic, Dispatch, ServerInv, ClientReply, UploadOk;
    if s.x.got + k == RESPONSE_SIZE {
      AwaitLast(s, k, k);
      hide ClientRecv;
      ReplyWork(Took(s, k), s.client.cmd, s.client.probe, s.x.response);
    }
  }

  lemma ReplyWork(s: State, cmd: Command, probe: bool, r: Response)
    requires s.client.CAwait? && s.client.cmd == cmd && s.client.probe == probe && s.x.reply != []
    requires Pending(s) >= 0 && (probe ==> cmd.UploadResume?)
    ensures Work(ClientReply(s, cmd, probe, r)) <= Work(s)
  {
    hide EncodeRequest, Dispatch, StartUpload;
    if cmd.UploadResume? && probe && !(r.status == STATUS_OK && r.dataLen > 0) && cmd.path in s.local {
      StartUploadWork(s.(replies := s.replies + [r], client := CReady), cmd, 0);
    }
  }

  lemma HandleWork(s: State)
    requires !s.x.seen && s.x.reply == [] && s.x.produced == 0 && s.x.request.magic == MAGIC
    ensures Work(Handle(s, s.x.request)) <= Work(s)
  {
    hide Dispatch, Respond, Pending, Following;
    var r := s.x.request;
    var t := s.(handled := s.handled + [r], x := s.x.(seen := true));
    match Dispatch(s.disk, r)
    case Answer(disk, response) => RespondWork(s, t.(disk := disk), response, []);
    case Stream(response, data) => RespondWork(s, t, response, data);
    case Receive(disk) =>
      if r.dataLen == 0 {
        RespondWork(s, t.(disk := disk), UPLOADED, []);
      } else {
        ReceiveWork(s, t.(disk := disk, server := SRecv(r.filename, r.offset, r.offset, r.dataLen)));
      }
  }

  /** The reply has the length that was predicted, and part of it is on its way. */
  lemma RespondWork(s: State, t: State, r: Response, data: seq<byte>)
    requires !s.x.seen && s.x.reply == [] && s.x.produced == 0 && ReplyLength(s) == RESPONSE_SIZE + |data|
    requires t.x == s.x.(seen := true) && t.client == s.client && t.local == s.local
    ensures Work(Respond(t, r, data)) <= Work(s)
  {
    hide Dispatch, EncodeResponse;
  }

  lemma ReceiveWork(s: State, t: State)
    requires !s.x.seen && s.x.reply == [] && ReplyLength(s) == RESPONSE_SIZE
    requires t.x == s.x.(seen := true) && t.client == s.client && t.local == s.local
    ensures Work(t) <= Work(s)
  {
    hide Dispatch;
  }

  lemma HeadMoves(s: State, k: nat)
    requires Inv(s) && !s.x.derailed && CanServerRecv(s, k, k)
    requires s.server.SHead? && |s.server.buffer| + k == REQUEST_SIZE
    ensures Work(ServerRecv(s, k, k)) < Work(s)
  {
    hide Inv, Handle, ServerRecv, Work;
    HeadWaits(s);
    HeadLast(s, k, k);
    ReadWork(s, k);
    HandleWork(Read(s, k));
  }

  /** A server that reads a header has not answered its request. */
  lemma HeadWaits(s: State)
    requires Inv(s) && !s.x.derailed && s.server.SHead? && s.c2s != []
    ensures !s.x.seen && s.x.reply == [] && s.x.produced == 0 && s.x.request.magic == MAGIC
  {
    hide EncodeRequest, EncodeResponse, NoMagic, ClientInv, Sound;
  }

  lemma ReadWork(s: State, k: nat)
    requires 1 <= k <= |s.c2s|
    ensures Work(Read(s, k)) < Work(s)
  {
    hide Dispatch;
  }

  lemma ServerMoves(s: State, k: nat)
    requires Inv(s) && !s.x.derailed && CanServerRecv(s, k, k)
    ensures Work(ServerRecv(s, k, k)) < Work(s)
  {
    hide EncodeRequest, EncodeResponse, NoMagic, Dispatch, Handle, ClientInv, CodecInv;
    if s.server.SHead? && |s.server.buffer| + k == REQUEST_SIZE {
      HeadMoves(s, k);
    }
  }

  /** Every move uses up some of the work. */
  lemma MoveWorks(s: State, st: Step)
    requires Inv(s) && !s.x.derailed && Moves(s, st)
    ensures Work(Apply(s, st)) < Work(s)
  {
    hide LinkInv, ClientInv, CodecInv, ClientRecv, ServerRecv, ClientSend, ServerSend, Work, NoMagic, Acceptable, CutName;
    match st
    case ClientReceives(k, _) => ClientMoves(s, k);
    case ServerReceives(k, _) => ServerMoves(s, k);
    case ClientSends(k) => SendWorks(s, k);
    case ServerSends(k) => ReplyWorks(s, k);
  }

  lemma SendWorks(s: State, k: nat)
    requires CanClientSend(s, k)
    ensures Work(ClientSend(s, k)) < Work(s)
  {
    hide Dispatch;
  }

  lemma ReplyWorks(s: State, k: nat)
    requires CanServerSend(s, k)
    ensures Work(ServerSend(s, k)) < Work(s)
  {
    hide Dispatch;
  }

  // ---- every run ----

  predicate AllMove(run: seq<Step>) {
    forall i :: 0 <= i < |run| ==> Faultless(run[i]) && !run[i].Begin?
  }

  /** Without a short write the client is ready only when it has the whole reply. */
  predicate ReadyIsSettled(s: State) { s.client.CReady? ==> Settled(s) }

  lemma MoveSettles(s: State, st: Step)
    requires Inv(s) && s.up && ReadyIsSettled(s) && Moves(s, st)
    ensures ReadyIsSettled(Apply(s, st))
  {
    hide EncodeRequest, EncodeResponse, CodecInv, NoMagic, ClientReply, Handle, StartUpload, Probing;
    if st.ClientReceives? && s.client.CAwait? && s.x.got + st.k == RESPONSE_SIZE {
      AwaitLast(s, st.k, st.w);
      TakeReply(s, st.k);
      ReplySettles(Took(s, st.k), s.client.cmd, s.client.probe);
    }
  }

  lemma ReplySettles(s: State, cmd: Command, probe: bool)
    requires Shape(s.x) && s.x.reply != [] && s.x.got == RESPONSE_SIZE && Ties(cmd, probe, s.x.request)
    ensures ReadyIsSettled(ClientReply(s, cmd, probe, s.x.response))
  {
    hide EncodeRequest;
  }

  lemma {:induction false} RunIsBounded(s: State, run: seq<Step>, goal: World)
    requires SessionInv(s) && s.up && !s.x.derailed && Heads(s, goal) && IsRun(s, run) && AllMove(run)
    requires ReadyIsSettled(s)
    ensures |run| <= Work(s)
    ensures var t := Final(s, run);
            SessionInv(t) && t.up && !t.x.derailed && Heads(t, goal) && ReadyIsSettled(t)
    decreases |run|
  {
    hide LinkInv, ClientInv, CodecInv, HistoryInv, Tells, Heads, Enabled, Acceptable, NoMagic, CutName, Apply, Work, Faultless;
    if run == [] {
      WorkIsNat(s);
    } else {
      MoveWorks(s, run[0]);
      MoveSettles(s, run[0]);
      SessionStep(s, run[0]);
      HeadsStep(s, run[0], goal);
      RunIsBounded(Apply(s, run[0]), run[1..], goal);
    }
  }

  /** Every acceptable command completes: started on a working connection at any point
      of any session, and however its bytes are cut up, it makes at most Work moves
      while nothing breaks, and when no move is left it has had exactly its effect. */
  lemma CommandCompletes(s: State, cmd: Command, run: seq<Step>)
    requires SessionInv(s) && s.client.CReady? && s.up && Settled(s) && Acceptable(s.local, s.disk, CutName(cmd))
    requires IsRun(Apply(s, Begin(cmd)), run) && AllMove(run)
    ensures var t := Final(Apply(s, Begin(cmd)), run);
            && |run| <= Work(Apply(s, Begin(cmd)))
            && (t.client.CReady? || exists st :: Moves(t, st))
            && (t.client.CReady? ==>
                  && World(t.local, t.disk) == Exec(World(s.local, s.disk), CutName(cmd))
                  && t.c2s == [] && t.s2c == [] && t.server == SHead([]))
  {
    hide CodecInv, HistoryInv, Tells, Legal, Apply, Work, Exec, Channels, Shape, ServerInv, Acceptable, CutName;
    var st := Begin(cmd);
    assert Legal(s, st) by { BeginIsLegal(s, cmd); }
    var t0, goal := Apply(s, st), Exec(World(s.local, s.disk), CutName(cmd));
    SessionStep(s, st);
    ReadyIsClean(s);
    HeadsStep(s, st, World(s.local, s.disk));
    BeginSettles(s, cmd);
    RunIsBounded(t0, run, goal);
    var t := Final(t0, run);
    if t.client.CReady? {
      ReadyIsClean(t);
    } else {
      var next := NeverStuck(t);
    }
  }

  lemma BeginIsLegal(s: State, cmd: Command)
    requires s.client.CReady? && s.up && Settled(s) && Acceptable(s.local, s.disk, CutName(cmd))
    ensures Legal(s, Begin(cmd))
  {
  }

  lemma ReadyIsClean(s: State)
    requires LinkInv(s) && ClientInv(s) && s.client.CReady? && s.up && Settled(s)
    ensures !s.x.derailed && Heads(s, World(s.local, s.disk))
    ensures s.c2s == [] && s.s2c == [] && s.server == SHead([])
  {
    hide NoMagic;
  }

  lemma BeginSettles(s: State, cmd: Command)
    requires s.client.CReady? && s.up && Settled(s)
    ensures ReadyIsSettled(Apply(s, Begin(cmd)))
  {
    hide EncodeRequest;
  }
}
