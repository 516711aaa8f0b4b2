/** What every step of a session keeps: each channel carries exactly the bytes
    of the current exchange that one side has sent and the other not yet read. */
module Framing {
  import opened Wire
  import opened Session

  // ---- which commands keep the two parties in step ----

  /** Every length fits the 32-bit field and no body is left undrained. */
  predicate Sound(disk: Disk, r: Request) {
    match Dispatch(disk, r)
    case Stream(response, data) => response.dataLen == |data|
    case Answer(_, _) => r.cmd == CMD_UPLOAD ==> r.dataLen == 0
    case Receive(_) => true
  }

  /** The server refuses to store anything under this name. */
  predicate Refuses(disk: Disk, remote: Name) { Denied(remote) || IsDir(disk, remote) }

  /** The server would accept this upload, or there is no body to drain. */
  predicate UploadOk(local: Local, disk: Disk, path: Name, remote: Name) {
    path in local ==> |local[path]| < U32_LIMIT && (Refuses(disk, remote) ==> local[path] == [])
  }

  /** The announced length is the length of the data that follows. */
  predicate DownloadOk(disk: Disk, remote: Name, offset: nat) {
    && offset < U64_LIMIT
    && (|| Denied(remote)
        || remote !in disk
        || (if disk[remote].File? then |disk[remote].data| - offset < U32_LIMIT else offset >= DIR_SIZE))
  }

  /** A command the server carries out or refuses without losing step: lengths
      fit their fields, no directory is announced as data, and uploads are not
      refused before their body is read. */
  predicate Acceptable(local: Local, disk: Disk, cmd: Command) {
    match cmd
    case Download(remote, _) => DownloadOk(disk, remote, 0)
    case DownloadResume(remote, path) => DownloadOk(disk, remote, LocalSize(local, path))
    case Upload(path, remote) => UploadOk(local, disk, path, remote)
    case UploadResume(path, remote) =>
      path in local ==> UploadOk(local, disk, path, remote) && DownloadOk(disk, remote, 0)
    case _ => true
  }

  /** No place in the data where the server could take it for a header: it has
      read at least one byte before, and a whole header is left. */
  predicate NoMagic(data: seq<byte>) {
    forall i :: 1 <= i <= |data| - REQUEST_SIZE ==> !MagicAt(data, i)
  }

  predicate MagicAt(data: seq<byte>, i: nat)
    requires i + 4 <= |data|
  {
    data[i..i + 4] == LittleEndian(MAGIC, 4)
  }

  /** write() took only part of a received chunk: the receive loop breaks off. */
  predicate ShortWrite(s: State, st: Step) { st.ClientReceives? && s.client.CBody? && st.w < st.k }

  /** The client has received the last reply to its end: its receive loop ended with
      nothing remaining, or the write that failed was of the last chunk. */
  predicate Settled(s: State) { s.x.got == |s.x.reply| }

  predicate Legal(s: State, st: Step) {
    && Enabled(s, st)
    && (st.Begin? ==> Settled(s) && Acceptable(s.local, s.disk, CutName(st.cmd)))
    && (st.ServerReceives? && st.w < st.k && s.server.SRecv? ==> NoMagic(s.x.body))
  }

  // ---- the invariant ----

  ghost predicate Channels(s: State) {
    && s.x.read <= s.x.sent <= |s.x.outgoing|
    && s.x.got <= s.x.produced <= |s.x.reply|
    && (if s.up then
          s.c2s == s.x.outgoing[s.x.read..s.x.sent] && s.s2c == s.x.reply[s.x.got..s.x.produced]
        else
          s.c2s <= s.x.outgoing[s.x.read..s.x.sent] && s.s2c <= s.x.reply[s.x.got..s.x.produced])
  }

  function BodyLength(r: Request): nat { if r.cmd == CMD_UPLOAD then r.dataLen else 0 }

  /** Sizes of the two byte streams of an exchange. */
  ghost predicate Shape(x: Exchange) {
    && (x.outgoing != [] ==>
          && |x.header| == REQUEST_SIZE && x.outgoing == x.header + x.body
          && |x.body| == BodyLength(x.request))
    && (x.reply != [] ==>
          && x.seen && |x.reply| == RESPONSE_SIZE + x.response.dataLen
          && (x.response.dataLen > 0 ==>
                x.request.cmd == CMD_DOWNLOAD
                && x.response.status == if x.request.offset > 0 then STATUS_PARTIAL else STATUS_OK)
          && (x.derailed || x.read == |x.outgoing|))
  }

  /** The streams encode the request and the response, and the request will be
      served soundly. */
  ghost predicate CodecInv(x: Exchange, disk: Disk) {
    && (x.outgoing != [] ==>
          && ValidRequest(x.request) && x.request.magic == MAGIC && x.header == EncodeRequest(x.request)
          && (!x.seen ==> Sound(disk, x.request)))
    && (x.reply != [] ==>
          && ValidResponse(x.response)
          && EncodeResponse(x.response) <= x.reply)
  }

  ghost predicate ServerInv(s: State) {
    var x := s.x;
    && (s.server.SClosed? ==> !s.up)
    && (x.derailed ==> x.outgoing != [] && x.seen && x.request.cmd == CMD_UPLOAD && NoMagic(x.body))
    && match s.server
       case SClosed => true
       case SHead(g) =>
         if !x.seen then
           && x.outgoing != [] && x.reply == [] && !x.derailed
           && x.read < REQUEST_SIZE && x.read <= |x.outgoing| && g == x.outgoing[..x.read]
         else if x.derailed then
           && x.reply == [] && |g| < REQUEST_SIZE
           && REQUEST_SIZE < x.read - |g| && x.read <= |x.outgoing| && g == x.outgoing[x.read - |g|..x.read]
         else
           g == [] && x.read == |x.outgoing| && x.produced == |x.reply| && (x.outgoing != [] ==> x.reply != [])
       case SSend(rest) =>
         && x.seen && !x.derailed && x.read == |x.outgoing| && x.outgoing != []
         && RESPONSE_SIZE <= x.produced < |x.reply| && rest == x.reply[x.produced..]
       case SRecv(name, offset, pos, remaining) =>
         && x.seen && !x.derailed && x.reply == [] && x.outgoing != []
         && x.request.cmd == CMD_UPLOAD && name == x.request.filename && offset == x.request.offset
         && 0 < remaining <= x.request.dataLen
         && x.read == REQUEST_SIZE + x.request.dataLen - remaining
         && pos == offset + x.request.dataLen - remaining
         && IsFile(s.disk, name)
  }

  /** Everything that does not depend on what the client does next. */
  ghost predicate LinkInv(s: State) {
    Channels(s) && Shape(s.x) && ServerInv(s)
  }

  /** The request the client has sent for a command. */
  predicate Ties(cmd: Command, probe: bool, r: Request) {
    match cmd
    case Download(remote, _) => r.cmd == CMD_DOWNLOAD && r.offset == 0 && r.filename == remote
    case DownloadResume(remote, _) => r.cmd == CMD_DOWNLOAD && r.filename == remote
    case Upload(_, remote) => r.cmd == CMD_UPLOAD && r.offset == 0 && r.filename == remote
    case UploadResume(_, remote) =>
      r.filename == remote && if probe then r.cmd == CMD_DOWNLOAD && r.offset == 0 else r.cmd == CMD_UPLOAD
    case Delete(remote) => r.cmd == CMD_DELETE && r.filename == remote
    case MakeDir(remote) => r.cmd == CMD_MKDIR && r.filename == remote
    case RemoveDir(remote) => r.cmd == CMD_RMDIR && r.filename == remote
    case PrintDir => r.cmd == CMD_PWD
  }

  ghost predicate AtRest(s: State) {
    && s.server == SHead([])
    && s.x.seen && !s.x.derailed
    && s.x.read == |s.x.outgoing|
    && s.x.got == |s.x.reply|
  }

  /** The source of a resumed upload, while the server is being probed. */
  ghost predicate Probing(s: State, cmd: Command) {
    && cmd.UploadResume? && cmd.path in s.local
    && UploadOk(s.local, s.disk, cmd.path, cmd.remote)
    && |cmd.remote| < FIELD && NulFree(cmd.remote)
  }

  ghost predicate ClientInv(s: State) {
    var x := s.x;
    match s.client
    case CReady => s.server.SClosed? || AtRest(s) || RESPONSE_SIZE <= x.got < |x.reply|
    case CFailed => true
    case CAwait(cmd, probe, buffer) =>
      && x.outgoing != [] && x.sent == |x.outgoing| && Ties(cmd, probe, x.request)
      && x.got < RESPONSE_SIZE && x.got <= |x.reply| && buffer == x.reply[..x.got]
      && (probe ==> Probing(s, cmd))
    case CBody(cmd, remaining) =>
      && x.outgoing != [] && x.sent == |x.outgoing| && Ties(cmd, false, x.request)
      && RESPONSE_SIZE <= x.got && 0 < remaining == |x.reply| - x.got
      && (cmd.Download? || cmd.DownloadResume?) && cmd.path in s.local
    case CSkip(cmd, size, remaining) =>
      && x.outgoing != [] && x.sent == |x.outgoing| && Ties(cmd, true, x.request)
      && RESPONSE_SIZE <= x.got && 0 < remaining == |x.reply| - x.got
      && Probing(s, cmd)
    case CSend(cmd, pos) =>
      && x.outgoing != [] && x.got == 0 && Ties(cmd, false, x.request)
      && (cmd.Upload? || cmd.UploadResume?) && cmd.path in s.local
      && x.request.offset <= pos < |s.local[cmd.path]|
      && x.body == s.local[cmd.path][x.request.offset..]
      && x.sent == REQUEST_SIZE + pos - x.request.offset
  }

  ghost predicate Inv(s: State) {
    LinkInv(s) && ClientInv(s) && CodecInv(s.x, s.disk)
  }

  // ---- starting a request ----

  ghost predicate Clear(s: State) {
    && s.c2s == [] && s.s2c == []
    && (s.server == SHead([]) || (s.server.SClosed? && !s.up))
  }

  lemma StartKeeps(s: State, r: Request, body: seq<byte>, pc: ClientPc)
    requires Clear(s)
    requires ValidRequest(r) && r.magic == MAGIC && |body| == BodyLength(r) && Sound(s.disk, r)
    ensures var t := StartRequest(s, r, body, pc);
            LinkInv(t) && CodecInv(t.x, t.disk)
  {
    var header := EncodeRequest(r);
    assert (header + body)[0..REQUEST_SIZE] == header;
  }

  lemma StartUploadKeeps(s: State, cmd: Command, offset: nat)
    requires Clear(s)
    requires (cmd.Upload? || cmd.UploadResume?) && cmd.path in s.local && offset <= |s.local[cmd.path]|
    requires cmd.Upload? ==> offset == 0
    requires UploadOk(s.local, s.disk, cmd.path, cmd.remote) && |cmd.remote| < FIELD && NulFree(cmd.remote)
    ensures var t := StartUpload(s, cmd, cmd.path, cmd.remote, offset);
            LinkInv(t) && CodecInv(t.x, t.disk) && ClientInv(t)
  {
    hide EncodeRequest, EncodeResponse, NoMagic;
    var data := s.local[cmd.path][offset..];
    var r := Ask(CMD_UPLOAD, U32(|data|), offset, cmd.remote);
    SoundUpload(s.disk, r);
    StartKeeps(s, r, data, if data == [] then CAwait(cmd, false, []) else CSend(cmd, offset));
  }

  lemma SoundUpload(disk: Disk, r: Request)
    requires r.cmd == CMD_UPLOAD && (Refuses(disk, r.filename) ==> r.dataLen == 0)
    ensures Sound(disk, r)
  {
  }

  lemma SoundDownload(disk: Disk, remote: Name, offset: nat)
    requires DownloadOk(disk, remote, offset)
    ensures Sound(disk, Ask(CMD_DOWNLOAD, 0, offset, remote))
  {
  }

  /** A request without a body, after which the client awaits the response. */
  lemma AwaitKeeps(s: State, r: Request, cmd: Command, probe: bool)
    requires Clear(s) && ValidRequest(r) && r.magic == MAGIC && BodyLength(r) == 0 && Sound(s.disk, r)
    requires Ties(cmd, probe, r) && (probe ==> Probing(s, cmd))
    ensures Inv(StartRequest(s, r, [], CAwait(cmd, probe, [])))
  {
    StartKeeps(s, r, [], CAwait(cmd, probe, []));
    hide LinkInv, CodecInv, Ties, EncodeRequest;
  }

  lemma BeginDownload(s: State, remote: Name, offset: nat, cmd: Command, probe: bool)
    requires Clear(s) && DownloadOk(s.disk, remote, offset) && |remote| < FIELD && NulFree(remote)
    requires Ties(cmd, probe, Ask(CMD_DOWNLOAD, 0, offset, remote)) && (probe ==> Probing(s, cmd))
    ensures Inv(StartRequest(s, Ask(CMD_DOWNLOAD, 0, offset, remote), [], CAwait(cmd, probe, [])))
  {
    hide Inv, Ties;
    SoundDownload(s.disk, remote, offset);
    AwaitKeeps(s, Ask(CMD_DOWNLOAD, 0, offset, remote), cmd, probe);
  }

  lemma BeginSimple(s: State, code: nat, name: Name, cmd: Command)
    requires Clear(s) && code in {CMD_DELETE, CMD_MKDIR, CMD_RMDIR, CMD_PWD} && |name| < FIELD && NulFree(name)
    requires Ties(cmd, false, Ask(code, 0, 0, name))
    ensures Inv(StartRequest(s, Ask(code, 0, 0, name), [], CAwait(cmd, false, [])))
  {
    hide Inv, Ties;
    AwaitKeeps(s, Ask(code, 0, 0, name), cmd, false);
  }

  lemma SettledIsClear(s: State)
    requires LinkInv(s) && ClientInv(s) && s.client.CReady? && s.up && Settled(s)
    ensures Clear(s)
  {
    hide NoMagic;
  }

  lemma BeginKeeps(s: State, cmd: Command)
    requires Inv(s) && s.client.CReady? && s.up && Settled(s) && Acceptable(s.local, s.disk, cmd)
    requires !cmd.PrintDir? ==> |cmd.remote| < FIELD && NulFree(cmd.remote)
    ensures Inv(BeginCommand(s, cmd))
  {
    hide LinkInv, ClientInv, CodecInv, StartRequest, StartUpload, Clear;
    SettledIsClear(s);
    match cmd
    case Download(remote, _) => BeginDownload(s, remote, 0, cmd, false);
    case DownloadResume(remote, path) => BeginDownload(s, remote, LocalSize(s.local, path), cmd, false);
    case Upload(path, remote) =>
      if path in s.local {
        StartUploadKeeps(s, cmd, 0);
      }
    case UploadResume(path, remote) =>
      if path in s.local {
        BeginDownload(s, remote, 0, cmd, true);
      }
    case Delete(remote) => BeginSimple(s, CMD_DELETE, remote, cmd);
    case MakeDir(remote) => BeginSimple(s, CMD_MKDIR, remote, cmd);
    case RemoveDir(remote) => BeginSimple(s, CMD_RMDIR, remote, cmd);
    case PrintDir => BeginSimple(s, CMD_PWD, [], cmd);
  }

  // ---- the client receives ----

  lemma TakeBytes(channel: seq<byte>, stream: seq<byte>, i: nat, j: nat, k: nat)
    requires i <= j <= |stream| && channel <= stream[i..j] && k <= |channel|
    ensures channel[..k] == stream[i..i + k]
    ensures channel[k..] <= stream[i + k..j]
  {
    var left := stream[i..j];
    assert channel[..k] == left[..k];
    assert channel[k..] <= left[k..];
  }

  /** What the client takes from its channel is the next part of the reply. */
  lemma TakeReply(s: State, k: nat)
    requires LinkInv(s) && k <= |s.s2c|
    ensures s.s2c[..k] == s.x.reply[s.x.got..s.x.got + k]
    ensures LinkInv(Took(s, k))
  {
    hide NoMagic;
    TakeBytes(s.s2c, s.x.reply, s.x.got, s.x.produced, k);
  }

  /** A reply received to its end leaves the connection clean. */
  lemma Drained(s: State)
    requires LinkInv(s) && s.x.reply != [] && s.x.got == |s.x.reply|
    ensures s.server.SClosed? || AtRest(s)
    ensures s.x.request.cmd == CMD_DOWNLOAD ==> Clear(s)
  {
  }

  ghost predicate Replied(s: State, cmd: Command, probe: bool) {
    && s.x.reply != [] && s.x.got == RESPONSE_SIZE
    && s.x.outgoing != [] && s.x.sent == |s.x.outgoing| && Ties(cmd, probe, s.x.request)
    && (probe ==> Probing(s, cmd))
  }

  lemma ProbeReplyKeeps(s: State, cmd: Command)
    requires LinkInv(s) && CodecInv(s.x, s.disk) && Replied(s, cmd, true)
    ensures Inv(ClientReply(s, cmd, true, s.x.response))
  {
    var r := s.x.response;
    if r.dataLen == 0 {
      Drained(s);
      StartUploadKeeps(s.(replies := s.replies + [r], client := CReady), cmd, 0);
    }
  }

  lemma ReplyKeeps(s: State, cmd: Command)
    requires LinkInv(s) && Replied(s, cmd, false)
    ensures var t := ClientReply(s, cmd, false, s.x.response);
            LinkInv(t) && ClientInv(t) && t.x == s.x && t.disk == s.disk
  {
    hide NoMagic;
    if s.x.response.dataLen == 0 {
      Drained(s);
    }
    assert |s.x.reply| == RESPONSE_SIZE + s.x.response.dataLen;
    ReplyKeepsLink(s, cmd);
    LinkFrame(s, ClientReply(s, cmd, false, s.x.response));
    hide LinkInv;
  }

  lemma ReplyKeepsLink(s: State, cmd: Command)
    ensures var t := ClientReply(s, cmd, false, s.x.response);
            t.x == s.x && t.disk == s.disk && t.server == s.server && t.up == s.up && t.c2s == s.c2s && t.s2c == s.s2c
  {
  }

  /** The link does not depend on what the client does. */
  lemma LinkFrame(s: State, t: State)
    requires LinkInv(s) && t.x == s.x && t.disk == s.disk && t.server == s.server && t.up == s.up
    requires t.c2s == s.c2s && t.s2c == s.s2c
    ensures LinkInv(t)
  {
    hide NoMagic, Shape;
  }

  /** The response the client assembles is the one the server sent. */
  lemma AssembledResponse(s: State, k: nat)
    requires LinkInv(s) && ClientInv(s) && CodecInv(s.x, s.disk)
    requires s.client.CAwait? && k <= |s.s2c|
    ensures s.client.buffer + s.s2c[..k] == s.x.reply[..s.x.got + k]
    ensures s.x.got + k == RESPONSE_SIZE ==>
              DecodeResponse(s.client.buffer + s.s2c[..k]) == s.x.response
  {
    hide DecodeResponse, EncodeResponse, Sound, EncodeRequest, Probing, Ties;
    TakeReply(s, k);
    var reply, i := s.x.reply, s.x.got;
    Splice(reply, 0, i, i + k);
    hide LinkInv;
    assert reply[0..i] == reply[..i] && reply[0..i + k] == reply[..i + k];
    if i + k == RESPONSE_SIZE {
      assert reply[..RESPONSE_SIZE] == EncodeResponse(s.x.response);
      ResponseRoundTrip(s.x.response);
    }
  }

  lemma AwaitMore(s: State, k: nat, w: nat)
    requires LinkInv(s) && ClientInv(s) && s.client.CAwait? && CanClientRecv(s, k, w)
    requires s.x.got + k < RESPONSE_SIZE
    requires s.client.buffer + s.s2c[..k] == s.x.reply[..s.x.got + k]
    ensures LinkInv(ClientRecv(s, k, w)) && ClientInv(ClientRecv(s, k, w))
    ensures ClientRecv(s, k, w).x == s.x.(got := s.x.got + k) && ClientRecv(s, k, w).disk == s.disk
  {
    TakeReply(s, k);
  }

  lemma AwaitLast(s: State, k: nat, w: nat)
    requires Inv(s) && s.client.CAwait? && CanClientRecv(s, k, w) && s.x.got + k == RESPONSE_SIZE
    ensures Inv(ClientRecv(s, k, w))
    ensures ClientRecv(s, k, w) == ClientReply(Took(s, k), s.client.cmd, s.client.probe, s.x.response)
  {
    AssembledResponse(s, k);
    TakeReply(s, k);
    var t := Took(s, k);
    CodecFrame(s.x, t.x, s.disk);
    assert ClientRecv(s, k, w) == ClientReply(t, s.client.cmd, s.client.probe, s.x.response);
    hide ClientRecv, ClientReply, CodecInv, LinkInv;
    if s.client.probe {
      ProbeReplyKeeps(t, s.client.cmd);
    } else {
      ReplyKeeps(t, s.client.cmd);
    }
  }

  lemma CodecFrame(x: Exchange, y: Exchange, disk: Disk)
    requires CodecInv(x, disk)
    requires y == x.(sent := y.sent, read := y.read, produced := y.produced, got := y.got)
    ensures CodecInv(y, disk)
  {
  }

  lemma BodyKeeps(s: State, k: nat, w: nat)
    requires LinkInv(s) && ClientInv(s) && s.client.CBody? && CanClientRecv(s, k, w)
    ensures LinkInv(ClientRecv(s, k, w)) && ClientInv(ClientRecv(s, k, w))
    ensures ClientRecv(s, k, w).x == s.x.(got := s.x.got + k) && ClientRecv(s, k, w).disk == s.disk
  {
    TakeReply(s, k);
    if s.client.remaining == k {
      Drained(Took(s, k));
    }
  }

  lemma AfterSkipKeeps(s: State, cmd: Command, size: nat)
    requires LinkInv(s) && CodecInv(s.x, s.disk) && s.x.reply != [] && s.x.got == |s.x.reply|
    requires s.x.request.cmd == CMD_DOWNLOAD && Probing(s, cmd)
    ensures Inv(AfterSkip(s, cmd, size))
  {
    Drained(s);
    if size < U32(|s.local[cmd.path]|) {
      StartUploadKeeps(s, cmd, size);
    }
  }

  lemma SkipMore(s: State, k: nat, w: nat)
    requires LinkInv(s) && ClientInv(s) && s.client.CSkip? && CanClientRecv(s, k, w)
    requires k < s.client.remaining
    ensures LinkInv(ClientRecv(s, k, w)) && ClientInv(ClientRecv(s, k, w))
    ensures ClientRecv(s, k, w).x == s.x.(got := s.x.got + k) && ClientRecv(s, k, w).disk == s.disk
  {
    TakeReply(s, k);
  }

  lemma SkipLast(s: State, k: nat, w: nat)
    requires Inv(s) && s.client.CSkip? && CanClientRecv(s, k, w) && k == s.client.remaining
    ensures Inv(ClientRecv(s, k, w))
  {
    TakeReply(s, k);
    var t := Took(s, k);
    CodecFrame(s.x, t.x, s.disk);
    AfterSkipKeeps(t, s.client.cmd, s.client.size);
  }

  lemma ClientRecvKeeps(s: State, k: nat, w: nat)
    requires Inv(s) && CanClientRecv(s, k, w)
    ensures Inv(ClientRecv(s, k, w))
  {
    hide LinkInv, CodecInv, ClientRecv;
    if s.client.CAwait? && s.x.got + k == RESPONSE_SIZE {
      AwaitLast(s, k, w);
    } else if s.client.CSkip? && k == s.client.remaining {
      SkipLast(s, k, w);
    } else {
      match s.client {
        case CAwait(_, _, _) =>
          AssembledResponse(s, k);
          AwaitMore(s, k, w);
        case CBody(_, _) => BodyKeeps(s, k, w);
        case CSkip(_, _, _) => SkipMore(s, k, w);
      }
      CodecFrame(s.x, ClientRecv(s, k, w).x, s.disk);
    }
  }

  // ---- the client sends ----

  lemma Splice(s: seq<byte>, i: nat, j: nat, k: nat)
    requires i <= j <= k <= |s|
    ensures s[i..j] + s[j..k] == s[i..k]
  {
  }

  /** The next k bytes of the request on the channel, and the client at pc. */
  ghost function Sent(s: State, k: nat, pc: ClientPc): State
    requires s.x.sent + k <= |s.x.outgoing|
  {
    var chunk := s.x.outgoing[s.x.sent..s.x.sent + k];
    s.(c2s := if s.up then s.c2s + chunk else s.c2s, x := s.x.(sent := s.x.sent + k), client := pc)
  }

  lemma PutRequest(s: State, k: nat, pc: ClientPc)
    requires LinkInv(s) && s.x.sent + k <= |s.x.outgoing|
    ensures LinkInv(Sent(s, k, pc))
  {
    hide NoMagic;
    Splice(s.x.outgoing, s.x.read, s.x.sent, s.x.sent + k);
  }

  /** The chunk read from the file is the next part of the exchange. */
  lemma NextChunk(s: State, k: nat)
    requires Shape(s.x) && ClientInv(s) && CanClientSend(s, k)
    ensures s.x.sent + k <= |s.x.outgoing|
    ensures s.local[s.client.cmd.path][s.client.pos..s.client.pos + k] == s.x.outgoing[s.x.sent..s.x.sent + k]
  {
    hide Probing, Ties;
    var i := s.x.sent - REQUEST_SIZE;
    SliceBehind(s.x.header, s.x.body, i, k);
    SliceFrom(s.local[s.client.cmd.path], s.x.request.offset, i, k);
  }

  lemma SliceBehind(a: seq<byte>, b: seq<byte>, i: nat, k: nat)
    requires i + k <= |b|
    ensures (a + b)[|a| + i..|a| + i + k] == b[i..i + k]
  {
  }

  lemma SliceFrom(s: seq<byte>, offset: nat, i: nat, k: nat)
    requires offset + i + k <= |s|
    ensures s[offset..][i..i + k] == s[offset + i..offset + i + k]
  {
  }

  lemma SentInv(s: State, k: nat)
    requires Shape(s.x) && ClientInv(s) && CanClientSend(s, k)
    ensures ClientInv(ClientSend(s, k))
  {
    hide Probing, Ties;
    assert s.x.reply[..0] == [];
  }

  lemma ClientSendKeeps(s: State, k: nat)
    requires LinkInv(s) && ClientInv(s) && CanClientSend(s, k)
    ensures LinkInv(ClientSend(s, k)) && ClientInv(ClientSend(s, k))
  {
    hide Channels, ServerInv, Ties;
    SentInv(s, k);
    ClientSendIs(s, k);
    hide ClientInv, Shape, ClientSend, Sent;
    PutRequest(s, k, ClientSend(s, k).client);
  }

  lemma ClientSendIs(s: State, k: nat)
    requires Shape(s.x) && ClientInv(s) && CanClientSend(s, k)
    ensures s.x.sent + k <= |s.x.outgoing| && ClientSend(s, k) == Sent(s, k, ClientSend(s, k).client)
  {
    NextChunk(s, k);
    hide ClientInv, Shape;
  }

  // ---- the server sends ----

  lemma ServerSendKeeps(s: State, k: nat)
    requires LinkInv(s) && ClientInv(s) && CanServerSend(s, k)
    ensures LinkInv(ServerSend(s, k)) && ClientInv(ServerSend(s, k))
  {
    hide NoMagic, Probing, Ties;
    var reply, p := s.x.reply, s.x.produced;
    Splice(reply, s.x.got, p, p + k);
    Split(reply, p, k);
    ProducedInv(s, k);
    hide ClientInv;
  }

  lemma Split(s: seq<byte>, p: nat, k: nat)
    requires p + k <= |s|
    ensures s[p..][..k] == s[p..p + k] && s[p..][k..] == s[p + k..]
  {
  }

  lemma ProducedInv(s: State, k: nat)
    requires LinkInv(s) && ClientInv(s) && CanServerSend(s, k)
    ensures ClientInv(ServerSend(s, k))
  {
    hide NoMagic, Ties, Channels;
  }

  // ---- the server receives ----

  /** What the server takes from its channel is the next part of the request. */
  lemma TakeRequest(s: State, k: nat)
    requires Channels(s) && k <= |s.c2s|
    ensures s.c2s[..k] == s.x.outgoing[s.x.read..s.x.read + k]
    ensures Channels(Read(s, k))
  {
    TakeBytes(s.c2s, s.x.outgoing, s.x.read, s.x.sent, k);
  }

  /** The client is in the middle of a command. */
  ghost predicate Busy(s: State) { ClientInv(s) && !s.client.CReady? }

  lemma RespondKeeps(s: State, r: Response, data: seq<byte>)
    requires Channels(s) && Shape(s.x) && Busy(s) && CodecInv(s.x, s.disk)
    requires s.x.reply == [] && s.x.outgoing != [] && s.x.seen && !s.x.derailed
    requires s.x.read == |s.x.outgoing|
    requires ValidResponse(r) && r.dataLen == |data|
    requires r.dataLen > 0 ==>
               s.x.request.cmd == CMD_DOWNLOAD
               && r.status == if s.x.request.offset > 0 then STATUS_PARTIAL else STATUS_OK
    ensures Inv(Respond(s, r, data))
  {
    var e := EncodeResponse(r);
    assert (e + data)[0..RESPONSE_SIZE] == e;
  }

  lemma DispatchFacts(disk: Disk, r: Request)
    requires ValidRequest(r) && Sound(disk, r)
    ensures match Dispatch(disk, r)
            case Answer(_, response) =>
              ValidResponse(response) && response.dataLen == 0 && (r.cmd == CMD_UPLOAD ==> r.dataLen == 0)
            case Stream(response, data) =>
              && ValidResponse(response) && r.cmd == CMD_DOWNLOAD && response.dataLen == |data|
              && response.status == if r.offset > 0 then STATUS_PARTIAL else STATUS_OK
            case Receive(d) => r.cmd == CMD_UPLOAD && IsFile(d, r.filename)
    ensures r.cmd == CMD_DOWNLOAD && Dispatch(disk, r).Answer? ==> Dispatch(disk, r).disk == disk
  {
  }

  lemma HandleKeeps(s: State)
    requires Channels(s) && Shape(s.x) && Busy(s) && CodecInv(s.x, s.disk)
    requires s.x.outgoing != [] && !s.x.seen && !s.x.derailed && s.x.reply == [] && s.x.read == REQUEST_SIZE
    ensures Inv(Handle(s, s.x.request))
  {
    hide EncodeRequest, Dispatch, Respond, Busy, Channels, Inv, CodecInv, Sound;
    var r := s.x.request;
    CodecFacts(s);
    WaitsFor(s);
    DispatchFacts(s.disk, r);
    var t := s.(handled := s.handled + [r], x := s.x.(seen := true));
    match Dispatch(s.disk, r)
    case Answer(disk, response) =>
      Decoded(s, disk);
      RespondKeeps(t.(disk := disk), response, []);
    case Stream(response, data) =>
      Decoded(s, s.disk);
      RespondKeeps(t, response, data);
    case Receive(disk) =>
      Decoded(s, disk);
      if r.dataLen == 0 {
        UploadedIsValid();
        RespondKeeps(t.(disk := disk), UPLOADED, []);
      } else {
        ReceiveKeeps(t.(disk := disk));
      }
  }

  lemma WaitsFor(s: State)
    requires Busy(s) && s.x.reply == []
    ensures !s.client.CSkip? && (s.client.CAwait? && s.client.probe ==> s.x.request.cmd == CMD_DOWNLOAD)
  {
    hide UploadOk;
  }

  lemma UploadedIsValid()
    ensures ValidResponse(UPLOADED) && UPLOADED.dataLen == 0
  {
  }

  lemma CodecFacts(s: State)
    requires CodecInv(s.x, s.disk) && s.x.outgoing != [] && !s.x.seen
    ensures ValidRequest(s.x.request) && s.x.request.magic == MAGIC && Sound(s.disk, s.x.request)
  {
    hide EncodeRequest, Sound;
  }

  /** The request has been decoded; the handler may have changed the disk. */
  lemma Decoded(s: State, disk: Disk)
    requires Channels(s) && Shape(s.x) && Busy(s) && CodecInv(s.x, s.disk) && s.x.reply == [] && !s.x.seen
    requires !s.client.CSkip? && (s.client.CAwait? && s.client.probe ==> disk == s.disk)
    ensures var t := s.(disk := disk, handled := s.handled + [s.x.request], x := s.x.(seen := true));
            Channels(t) && Shape(t.x) && Busy(t) && CodecInv(t.x, t.disk)
  {
    hide EncodeRequest, Ties, Sound;
  }

  /** An accepted upload with a body: the server goes on to receive it. */
  lemma ReceiveKeeps(s: State)
    requires Channels(s) && Shape(s.x) && Busy(s) && CodecInv(s.x, s.disk)
    requires s.x.outgoing != [] && s.x.seen && !s.x.derailed && s.x.reply == [] && s.x.read == REQUEST_SIZE
    requires var r := s.x.request; r.cmd == CMD_UPLOAD && r.dataLen > 0 && IsFile(s.disk, r.filename)
    ensures var r := s.x.request;
            Inv(s.(server := SRecv(r.filename, r.offset, r.offset, r.dataLen)))
  {
    hide EncodeRequest, CodecInv, NoMagic, Ties, UploadOk;
  }

  /** A header is not complete yet. */
  lemma HeadMore(s: State, k: nat, w: nat)
    requires LinkInv(s) && ClientInv(s) && s.server.SHead? && CanServerRecv(s, k, w)
    requires |s.server.buffer| + k < REQUEST_SIZE
    ensures LinkInv(ServerRecv(s, k, w)) && ClientInv(ServerRecv(s, k, w))
    ensures ServerRecv(s, k, w).x == s.x.(read := s.x.read + k) && ServerRecv(s, k, w).disk == s.disk
  {
    hide NoMagic, Handle, DecodeRequest, UploadOk, Ties;
    TakeRequest(s, k);
    HeaderGrows(s, k);
    hide Channels, Shape;
  }

  /** The bytes taken so far, with the next ones behind them. */
  lemma HeaderGrows(s: State, k: nat)
    requires LinkInv(s) && s.server.SHead? && 1 <= k <= |s.c2s| && |s.server.buffer| + k < REQUEST_SIZE
    ensures ServerInv(Read(s, k).(server := SHead(s.server.buffer + s.c2s[..k])))
    ensures s.x.outgoing != [] && s.x.read < |s.x.outgoing|
  {
    hide NoMagic;
    TakeRequest(s, k);
    var n := s.x.read - |s.server.buffer|;
    Splice(s.x.outgoing, n, s.x.read, s.x.read + k);
    assert s.x.outgoing[..s.x.read] == s.x.outgoing[0..s.x.read] && s.x.outgoing[..s.x.read + k] == s.x.outgoing[0..s.x.read + k];
    hide Channels, Shape;
  }

  lemma AssembledHeader(s: State, k: nat)
    requires LinkInv(s) && s.server.SHead? && !s.x.seen
    requires k <= |s.c2s| && |s.server.buffer| + k == REQUEST_SIZE
    ensures s.server.buffer + s.c2s[..k] == s.x.header && s.x.read + k == REQUEST_SIZE && s.x.outgoing != []
  {
    TakeRequest(s, k);
    hide NoMagic, Channels;
    assert s.server.buffer + s.c2s[..k] == s.x.outgoing[..REQUEST_SIZE];
  }

  /** The header the server assembles is the one the client sent. */
  lemma AssembledRequest(s: State, k: nat)
    requires LinkInv(s) && CodecInv(s.x, s.disk) && s.server.SHead? && !s.x.seen
    requires k <= |s.c2s| && |s.server.buffer| + k == REQUEST_SIZE
    ensures DecodeRequest(s.server.buffer + s.c2s[..k]) == s.x.request && s.x.read + k == REQUEST_SIZE
  {
    hide LinkInv, DecodeRequest, EncodeRequest, Sound;
    AssembledHeader(s, k);
    RequestRoundTrip(s.x.request);
  }

  lemma HeadLast(s: State, k: nat, w: nat)
    requires Inv(s) && s.server.SHead? && CanServerRecv(s, k, w) && !s.x.seen
    requires |s.server.buffer| + k == REQUEST_SIZE
    ensures Inv(ServerRecv(s, k, w))
    ensures ServerRecv(s, k, w) == Handle(Read(s, k), s.x.request)
  {
    hide CodecInv, DecodeRequest, EncodeRequest;
    AssembledRequest(s, k);
    TakeRequest(s, k);
    var t := Read(s, k);
    assert ServerRecv(s, k, w) == Handle(t, s.x.request);
    CodecFrame(s.x, t.x, s.disk);
    HandleKeeps(t);
  }

  lemma {:induction false} FromLittleEndianInjective(s: seq<byte>)
    ensures LittleEndian(FromLittleEndian(s), |s|) == s
  {
    if s == [] {
    } else {
      FromLittleEndianInjective(s[1..]);
      assert FromLittleEndian(s) / 256 == FromLittleEndian(s[1..]);
    }
  }

  /** File data read as a header does not carry the magic number. */
  lemma DerailedMagic(s: State, k: nat)
    requires LinkInv(s) && s.server.SHead? && s.x.derailed
    requires k <= |s.c2s| && |s.server.buffer| + k == REQUEST_SIZE
    ensures DecodeRequest(s.server.buffer + s.c2s[..k]).magic != MAGIC
  {
    hide LinkInv, MagicAt, LittleEndian, FromLittleEndian;
    var i := BodyAsHeader(s, k);
    var b := s.server.buffer + s.c2s[..k];
    FromLittleEndianInjective(b[..4]);
    NoMagicAt(s.x.body, i, b[..4]);
  }

  /** What a derailed server reads as a header is a part of the body, at a place that
      does not hold the magic bytes. */
  lemma BodyAsHeader(s: State, k: nat) returns (i: nat)
    requires LinkInv(s) && s.server.SHead? && s.x.derailed
    requires k <= |s.c2s| && |s.server.buffer| + k == REQUEST_SIZE
    ensures i + 4 <= |s.x.body| && (s.server.buffer + s.c2s[..k])[..4] == s.x.body[i..i + 4] && !MagicAt(s.x.body, i)
  {
    hide MagicAt;
    TakeRequest(s, k);
    var b := s.server.buffer + s.c2s[..k];
    i := s.x.read + k - REQUEST_SIZE - REQUEST_SIZE;
    assert b == s.x.outgoing[i + REQUEST_SIZE..i + REQUEST_SIZE + REQUEST_SIZE];
    assert b[..4] == s.x.body[i..i + 4];
  }

  lemma NoMagicAt(data: seq<byte>, i: nat, b: seq<byte>)
    requires i + 4 <= |data| && b == data[i..i + 4] && !MagicAt(data, i)
    ensures b != LittleEndian(MAGIC, 4)
  {
    hide LittleEndian;
  }

  lemma RefuseKeeps(s: State, r: Request)
    requires Channels(s) && Shape(s.x) && Busy(s) && CodecInv(s.x, s.disk) && r.magic != MAGIC
    requires s.x.derailed && s.x.seen && s.x.outgoing != [] && s.x.request.cmd == CMD_UPLOAD && NoMagic(s.x.body)
    requires s.x.reply == []
    ensures Inv(Handle(s, r))
  {
    hide NoMagic, Dispatch, Sound, EncodeRequest;
    var e := EncodeResponse(BAD_MAGIC);
    assert e + [] == e;
    assert ValidResponse(BAD_MAGIC);
  }

  /** ... so it is refused, and the connection closed. */
  lemma DerailedHead(s: State, k: nat, w: nat)
    requires Inv(s) && s.server.SHead? && CanServerRecv(s, k, w) && s.x.derailed
    requires |s.server.buffer| + k == REQUEST_SIZE
    ensures Inv(ServerRecv(s, k, w))
    ensures ServerRecv(s, k, w).handled == s.handled && ServerRecv(s, k, w).disk == s.disk
  {
    hide DecodeRequest, NoMagic, CodecInv;
    DerailedMagic(s, k);
    TakeRequest(s, k);
    var t := Read(s, k);
    var r := DecodeRequest(s.server.buffer + s.c2s[..k]);
    assert ServerRecv(s, k, w) == Handle(t, r);
    CodecFrame(s.x, t.x, s.disk);
    RefuseKeeps(t, r);
  }

  /** A part of the upload body arrives: written, or abandoned midway. */
  lemma StoreMore(s: State, k: nat, w: nat)
    requires LinkInv(s) && ClientInv(s) && s.server.SRecv? && CanServerRecv(s, k, w)
    requires w < k ==> NoMagic(s.x.body)
    requires w < k || k < s.server.remaining
    ensures LinkInv(ServerRecv(s, k, w)) && ClientInv(ServerRecv(s, k, w))
    ensures ServerRecv(s, k, w).x == s.x.(read := s.x.read + k, derailed := w < k)
  {
    hide NoMagic, WriteAt;
    TakeRequest(s, k);
  }

  /** The last part arrives and is written. */
  lemma StoreLast(s: State, k: nat)
    requires Inv(s) && s.server.SRecv? && CanServerRecv(s, k, k) && k == s.server.remaining
    ensures Inv(ServerRecv(s, k, k))
    ensures ServerRecv(s, k, k).x.request == s.x.request
  {
    hide WriteAt, CodecInv;
    TakeRequest(s, k);
    var disk := s.disk[s.server.name := File(WriteAt(s.disk[s.server.name].data, s.server.pos, s.c2s[..k][..k]))];
    var t := Read(s, k).(disk := disk);
    SeenCodec(s.x, t.x, s.disk, disk);
    assert ServerRecv(s, k, k) == Respond(t, UPLOADED, []);
    RespondKeeps(t, UPLOADED, []);
  }

  /** Once the request has been decoded, the disk may change. */
  lemma SeenCodec(x: Exchange, y: Exchange, disk: Disk, disk': Disk)
    requires CodecInv(x, disk) && x.seen
    requires y == x.(sent := y.sent, read := y.read, produced := y.produced, got := y.got, derailed := y.derailed)
    ensures CodecInv(y, disk')
  {
  }

  lemma Receiving(s: State)
    requires LinkInv(s) && s.server.SRecv?
    ensures s.x.seen
  {
    hide NoMagic;
  }

  /** Between requests there is nothing to read, unless a body was abandoned. */
  lemma OnlyDerailed(s: State)
    requires LinkInv(s) && s.server.SHead? && s.x.seen && s.c2s != []
    ensures s.x.derailed
  {
    hide NoMagic;
  }

  lemma ServerRecvKeeps(s: State, k: nat, w: nat)
    requires Inv(s) && CanServerRecv(s, k, w)
    requires s.server.SRecv? && w < k ==> NoMagic(s.x.body)
    ensures Inv(ServerRecv(s, k, w))
  {
    hide CodecInv, ServerRecv, ClientInv, NoMagic, LinkInv;
    if s.server.SRecv? {
      if w < k || k < s.server.remaining {
        Receiving(s);
        StoreMore(s, k, w);
        SeenCodec(s.x, ServerRecv(s, k, w).x, s.disk, ServerRecv(s, k, w).disk);
      } else {
        StoreLast(s, k);
      }
    } else if |s.server.buffer| + k < REQUEST_SIZE {
      HeadMore(s, k, w);
      CodecFrame(s.x, ServerRecv(s, k, w).x, s.disk);
    } else if s.x.seen {
      OnlyDerailed(s);
      DerailedHead(s, k, w);
    } else {
      HeadLast(s, k, w);
    }
  }

  // ---- faults ----

  lemma BreakKeeps(s: State, i: nat, j: nat)
    requires LinkInv(s) && ClientInv(s) && s.up && i <= |s.c2s| && j <= |s.s2c|
    ensures var t := s.(up := false, c2s := s.c2s[..i], s2c := s.s2c[..j]);
            LinkInv(t) && ClientInv(t)
  {
    hide NoMagic, Ties, UploadOk, Shape;
  }

  lemma ServerFailsKeeps(s: State)
    requires Inv(s) && Enabled(s, ServerFails)
    ensures Inv(Apply(s, ServerFails))
  {
    hide NoMagic, CodecInv, UploadOk;
    var t := Apply(s, ServerFails);
    if s.x.seen {
      SeenCodec(s.x, s.x, s.disk, t.disk);
    }
    assert s.client.CSkip? || (s.client.CAwait? && s.client.probe) ==> t.disk == s.disk;
    hide Channels, Shape;
  }

  lemma ClientFailsKeeps(s: State)
    requires Inv(s)
    ensures Inv(s.(client := CFailed))
  {
    hide CodecInv, Channels, Shape, ServerInv;
    LinkFrame(s, s.(client := CFailed));
  }

  lemma FaultKeeps(s: State, st: Step)
    requires Inv(s) && Enabled(s, st) && (st.Break? || st.ClientFails? || st.ServerFails?)
    ensures Inv(Apply(s, st))
  {
    hide LinkInv, ClientInv, CodecInv;
    match st
    case Break(i, j) => BreakKeeps(s, i, j);
    case ServerFails => ServerFailsKeeps(s);
    case ClientFails => ClientFailsKeeps(s);
  }

  lemma ReconnectKeeps(s: State)
    requires Enabled(s, Reconnect)
    ensures Inv(Apply(s, Reconnect))
  {
  }

  // ---- every run ----

  lemma StepKeeps(s: State, st: Step)
    requires Inv(s) && Legal(s, st)
    ensures Inv(Apply(s, st))
  {
    hide Inv, ClientRecv, ServerRecv, ClientSend, ServerSend, BeginCommand, CutName, Acceptable, NoMagic;
    match st
    case Begin(cmd) => CutNameFacts(cmd); BeginKeeps(s, CutName(cmd));
    case ClientReceives(k, w) => ClientRecvKeeps(s, k, w);
    case ClientSends(k) => SendKeeps(s, st);
    case ServerReceives(k, w) => ServerRecvKeeps(s, k, w);
    case ServerSends(k) => SendKeeps(s, st);
    case Reconnect => ReconnectKeeps(s);
    case _ => FaultKeeps(s, st);
  }

  lemma CutNameFacts(cmd: Command)
    ensures CutName(cmd).PrintDir? == cmd.PrintDir?
    ensures !cmd.PrintDir? ==> |CutName(cmd).remote| < FIELD && NulFree(CutName(cmd).remote)
  {
  }

  lemma SendKeeps(s: State, st: Step)
    requires Inv(s) && Enabled(s, st) && (st.ClientSends? || st.ServerSends?)
    ensures Inv(Apply(s, st))
  {
    hide LinkInv, ClientInv, CodecInv;
    CodecFrame(s.x, Apply(s, st).x, s.disk);
    match st
    case ClientSends(k) => ClientSendKeeps(s, k);
    case ServerSends(k) => ServerSendKeeps(s, k);
  }
}
