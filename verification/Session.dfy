/** One linux-file-server connection as a two-party step system: a client that
    issues commands, a server thread that serves them, and two FIFO byte
    channels that may deliver any amount at a time and may break at any point.

    The client is client.c, the server is server_handle_client with the
    handlers it dispatches to. One step is one send, recv or write. */
module Session {
  import opened Wire

  const MAGIC := 0x46535256

  const CMD_UPLOAD := 2
  const CMD_DOWNLOAD := 3
  const CMD_DELETE := 4
  const CMD_MKDIR := 7
  const CMD_RMDIR := 8
  const CMD_PWD := 9

  const STATUS_OK := 0
  const STATUS_ERROR := 1
  const STATUS_NOT_FOUND := 2
  const STATUS_DENIED := 3
  const STATUS_PARTIAL := 4

  const BUFFER_SIZE := 4096

  /** st_size of a directory; its contents cannot be read. */
  const DIR_SIZE := 4096

  datatype Node = File(data: seq<byte>) | Dir

  /** The server's shared directory and the client's local files. */
  type Disk = map<Name, Node>
  type Local = map<Name, seq<byte>>

  /** The fixed texts of the server's responses, by number: their wording plays
      no part in the protocol. */
  datatype Text =
    | InvalidName | NotFound | OffsetTooLarge | CannotCreate | CannotResume | Uploaded | Deleted
    | DirectoryExists | DirectoryCreated | NoDirectory | NotADirectory | DirectoryRemoved
    | SharedDirectory | UnknownCommand | InvalidProtocol | FileFollows

  function Wording(t: Text): (s: seq<byte>)
    ensures |s| == 1 && NulFree(s)
  {
    match t
    case InvalidName => [1] case NotFound => [2] case OffsetTooLarge => [3] case CannotCreate => [4]
    case CannotResume => [5] case Uploaded => [6] case Deleted => [7] case DirectoryExists => [8]
    case DirectoryCreated => [9] case NoDirectory => [10] case NotADirectory => [11]
    case DirectoryRemoved => [12] case SharedDirectory => [13] case UnknownCommand => [14]
    case InvalidProtocol => [15] case FileFollows => [16]
  }

  /** A response header; its message is cut to the field. */
  function Reply(status: nat, dataLen: nat, text: Text, detail: seq<byte> := []): Response {
    Response(status, dataLen, Cut(Wording(text) + detail))
  }

  // ---- the server's handlers ----

  predicate Denied(n: Name) {
    || (exists i :: 0 <= i < |n| && n[i] == 47)
    || (exists i :: 0 <= i < |n| - 1 && n[i] == 46 && n[i + 1] == 46)
  }

  predicate IsDir(disk: Disk, n: Name) { n in disk && disk[n].Dir? }
  predicate IsFile(disk: Disk, n: Name) { n in disk && disk[n].File? }

  /** What a handler does before it returns to the header loop. */
  datatype Reaction =
    | Answer(disk: Disk, response: Response)             // a bare response
    | Stream(response: Response, data: seq<byte>)        // a response, then file data
    | Receive(disk: Disk)                                // read dataLen bytes into the file

  const UPLOADED := Reply(STATUS_OK, 0, Uploaded)
  const BAD_MAGIC := Reply(STATUS_ERROR, 0, InvalidProtocol)

  function SendFile(disk: Disk, n: Name, offset: nat): (r: Reaction)
    ensures !r.Receive?
    ensures r.Answer? ==> r.disk == disk
  {
    if Denied(n) then Answer(disk, Reply(STATUS_DENIED, 0, InvalidName))
    else if n !in disk then Answer(disk, Reply(STATUS_NOT_FOUND, 0, NotFound))
    else
      var size := if disk[n].File? then |disk[n].data| else DIR_SIZE;
      if offset > size then Answer(disk, Reply(STATUS_ERROR, 0, OffsetTooLarge))
      else
        Stream(Reply(if offset > 0 then STATUS_PARTIAL else STATUS_OK, U32(size - offset),
                        FileFollows, n),
               if disk[n].File? then disk[n].data[offset..] else [])
  }

  function RecvFile(disk: Disk, n: Name, offset: nat): Reaction {
    if Denied(n) then Answer(disk, Reply(STATUS_DENIED, 0, InvalidName))
    else if IsDir(disk, n) then
      Answer(disk, Reply(STATUS_ERROR, 0, if offset > 0 then CannotResume else CannotCreate))
    else if offset > 0 && n in disk then Receive(disk)
    else Receive(disk[n := File([])])
  }

  function DeleteFile(disk: Disk, n: Name): Reaction {
    if Denied(n) then Answer(disk, Reply(STATUS_DENIED, 0, InvalidName))
    else if IsFile(disk, n) then Answer(disk - {n}, Reply(STATUS_OK, 0, Deleted))
    else Answer(disk, Reply(STATUS_NOT_FOUND, 0, NotFound))
  }

  function MakeDirectory(disk: Disk, n: Name): Reaction {
    if Denied(n) then Answer(disk, Reply(STATUS_DENIED, 0, InvalidName))
    else if n in disk then Answer(disk, Reply(STATUS_ERROR, 0, DirectoryExists))
    else Answer(disk[n := Dir], Reply(STATUS_OK, 0, DirectoryCreated))
  }

  function RemoveDirectory(disk: Disk, n: Name): Reaction {
    if Denied(n) then Answer(disk, Reply(STATUS_DENIED, 0, InvalidName))
    else if IsDir(disk, n) then Answer(disk - {n}, Reply(STATUS_OK, 0, DirectoryRemoved))
    else
      Answer(disk, Reply(STATUS_ERROR, 0, if n in disk then NotADirectory else NoDirectory))
  }

  function Dispatch(disk: Disk, r: Request): Reaction {
    if r.cmd == CMD_DOWNLOAD then SendFile(disk, r.filename, r.offset)
    else if r.cmd == CMD_UPLOAD then RecvFile(disk, r.filename, r.offset)
    else if r.cmd == CMD_DELETE then DeleteFile(disk, r.filename)
    else if r.cmd == CMD_MKDIR then MakeDirectory(disk, r.filename)
    else if r.cmd == CMD_RMDIR then RemoveDirectory(disk, r.filename)
    else if r.cmd == CMD_PWD then Answer(disk, Reply(STATUS_OK, 0, SharedDirectory))
    else Answer(disk, Reply(STATUS_ERROR, 0, UnknownCommand))
  }

  // ---- the two parties ----

  datatype Command =
    | Download(remote: Name, path: Name)
    | DownloadResume(remote: Name, path: Name)
    | Upload(path: Name, remote: Name)
    | UploadResume(path: Name, remote: Name)
    | Delete(remote: Name)
    | MakeDir(remote: Name)
    | RemoveDir(remote: Name)
    | PrintDir

  datatype ClientPc =
    | CReady                                            // between two commands
    | CFailed                                           // the connection is gone; must reconnect
    | CAwait(cmd: Command, probe: bool, buffer: seq<byte>)   // recv_all of a response
    | CBody(cmd: Command, remaining: nat)               // receiving and writing file data
    | CSkip(cmd: Command, size: nat, remaining: nat)    // discarding the probed file
    | CSend(cmd: Command, pos: nat)                     // sending file data

  datatype ServerPc =
    | SHead(buffer: seq<byte>)                          // recv_all of a header
    | SSend(rest: seq<byte>)                            // sending file data
    | SRecv(name: Name, offset: nat, pos: nat, remaining: nat)   // receiving and writing
    | SClosed

  /** History of the current request: every byte it puts on the two channels,
      and how far each end has got. */
  datatype Exchange = Exchange(
    request: Request,
    header: seq<byte>,     // the encoded request
    body: seq<byte>,       // the upload body behind it
    outgoing: seq<byte>,   // both; [] on a fresh connection
    sent: nat,             // ... handed to the connection by the client
    read: nat,             // ... taken from it by the server
    seen: bool,            // the server has decoded the request
    derailed: bool,        // the server abandoned the upload body midway
    response: Response,    // the response, once decided
    reply: seq<byte>,      // ... with the download data behind it, [] before
    produced: nat,         // ... handed to the connection by the server
    got: nat               // ... taken from it by the client
  )

  const IDLE := Exchange(Request(MAGIC, CMD_PWD, 0, 0, 0, []), [], [], [], 0, 0, true, false, Response(0, 0, []), [], 0, 0)

  datatype State = State(
    local: Local,
    disk: Disk,
    client: ClientPc,
    server: ServerPc,
    up: bool,
    c2s: seq<byte>,
    s2c: seq<byte>,
    x: Exchange,
    requests: seq<Request>,    // history of this connection: sent by the client
    handled: seq<Request>,     // ... decoded by the server
    answers: seq<Response>,    // ... sent by the server
    replies: seq<Response>     // ... decoded by the client
  )

  // ---- client actions ----

  function Ask(cmd: nat, dataLen: nat, offset: nat, name: Name): Request {
    Request(MAGIC, cmd, dataLen, 0, offset, name)
  }

  /** The remote name as strncpy leaves it in the header field. */
  function CutName(cmd: Command): Command {
    if cmd.PrintDir? then cmd else cmd.(remote := Cut(cmd.remote))
  }

  /** send() of the header; on a broken connection the bytes are lost. */
  function StartRequest(s: State, r: Request, body: seq<byte>, pc: ClientPc): State {
    var header := EncodeRequest(r);
    s.(client := pc,
       c2s := if s.up then s.c2s + header else s.c2s,
       x := Exchange(r, header, body, header + body, REQUEST_SIZE, 0, false, false, Response(0, 0, []), [], 0, 0),
       requests := s.requests + [r])
  }

  function StartUpload(s: State, cmd: Command, path: Name, remote: Name, offset: nat): (t: State)
    requires path in s.local && offset <= |s.local[path]|
    ensures !t.client.CReady? && t.disk == s.disk && t.local == s.local
    ensures t.up == s.up && t.server == s.server && (t.x.derailed ==> s.x.derailed)
  {
    var data := s.local[path][offset..];
    StartRequest(s, Ask(CMD_UPLOAD, U32(|data|), offset, remote), data,
                 if data == [] then CAwait(cmd, false, []) else CSend(cmd, offset))
  }

  function LocalSize(local: Local, path: Name): nat {
    if path in local then |local[path]| else 0
  }

  function BeginCommand(s: State, cmd: Command): (t: State)
    ensures t.disk == s.disk && t.local == s.local
    ensures t.up == s.up && t.server == s.server && (t.x.derailed ==> s.x.derailed)
  {
    var await := CAwait(cmd, false, []);
    match cmd
    case Download(remote, _) => StartRequest(s, Ask(CMD_DOWNLOAD, 0, 0, remote), [], await)
    case DownloadResume(remote, path) =>
      StartRequest(s, Ask(CMD_DOWNLOAD, 0, LocalSize(s.local, path), remote), [], await)
    case Upload(path, remote) =>
      if path in s.local then StartUpload(s, cmd, path, remote, 0) else s
    case UploadResume(path, remote) =>
      if path in s.local then StartRequest(s, Ask(CMD_DOWNLOAD, 0, 0, remote), [], CAwait(cmd, true, []))
      else s
    case Delete(remote) => StartRequest(s, Ask(CMD_DELETE, 0, 0, remote), [], await)
    case MakeDir(remote) => StartRequest(s, Ask(CMD_MKDIR, 0, 0, remote), [], await)
    case RemoveDir(remote) => StartRequest(s, Ask(CMD_RMDIR, 0, 0, remote), [], await)
    case PrintDir => StartRequest(s, Ask(CMD_PWD, 0, 0, []), [], await)
  }

  function OpenBody(s: State, cmd: Command, local: Local, remaining: nat): State {
    s.(local := local, client := if remaining == 0 then CReady else CBody(cmd, remaining))
  }

  /** The client has decoded the response r. */
  function ClientReply(s: State, cmd: Command, probe: bool, r: Response): (t: State)
    ensures t.disk == s.disk
    ensures t.up == s.up && t.server == s.server && (t.x.derailed ==> s.x.derailed)
  {
    var u := s.(replies := s.replies + [r], client := CReady);
    match cmd
    case Download(_, path) =>
      if r.status != STATUS_OK then u else OpenBody(u, cmd, s.local[path := []], r.dataLen)
    case DownloadResume(_, path) =>
      if r.status != STATUS_OK && r.status != STATUS_PARTIAL then u
      else if r.status == STATUS_PARTIAL && s.x.request.offset > 0 then
        OpenBody(u, cmd, if path in s.local then s.local else s.local[path := []], r.dataLen)
      else OpenBody(u, cmd, s.local[path := []], r.dataLen)
    case UploadResume(path, remote) =>
      if !probe then u
      else if r.status == STATUS_OK && r.dataLen > 0 then u.(client := CSkip(cmd, r.dataLen, r.dataLen))
      else if path in s.local then StartUpload(u, cmd, path, remote, 0)
      else u
    case _ => u
  }

  /** The probed file has been skipped: resume the upload if it is shorter. */
  function AfterSkip(s: State, cmd: Command, size: nat): (t: State)
    requires cmd.UploadResume?
    ensures t.disk == s.disk && t.local == s.local
    ensures t.up == s.up && t.server == s.server && (t.x.derailed ==> s.x.derailed)
  {
    if cmd.path in s.local && size < U32(|s.local[cmd.path]|) then
      StartUpload(s, cmd, cmd.path, cmd.remote, size)
    else
      s.(client := CReady)
  }

  predicate CanClientRecv(s: State, k: nat, w: nat) {
    && 1 <= k <= |s.s2c|
    && match s.client
       case CAwait(_, _, buffer) => |buffer| + k <= RESPONSE_SIZE
       case CBody(cmd, remaining) =>
         k <= remaining && k <= BUFFER_SIZE && w <= k
         && (cmd.Download? || cmd.DownloadResume?) && cmd.path in s.local
       case CSkip(cmd, _, remaining) => k <= remaining && k <= BUFFER_SIZE && cmd.UploadResume?
       case _ => false
  }

  /** recv() by the client: k bytes leave its channel. */
  function Took(s: State, k: nat): State
    requires k <= |s.s2c|
  {
    s.(s2c := s.s2c[k..], x := s.x.(got := s.x.got + k))
  }

  function ClientRecv(s: State, k: nat, w: nat): (t: State)
    requires CanClientRecv(s, k, w)
    ensures t.disk == s.disk
    ensures t.up == s.up && t.server == s.server && (t.x.derailed ==> s.x.derailed)
  {
    var chunk := s.s2c[..k];
    var u := Took(s, k);
    match s.client
    case CAwait(cmd, probe, buffer) =>
      var b := buffer + chunk;
      if |b| < RESPONSE_SIZE then u.(client := CAwait(cmd, probe, b))
      else ClientReply(u, cmd, probe, DecodeResponse(b))
    case CBody(cmd, remaining) =>
      u.(local := s.local[cmd.path := s.local[cmd.path] + chunk[..w]],
         client := if w < k || remaining == k then CReady else CBody(cmd, remaining - k))
    case CSkip(cmd, size, remaining) =>
      if remaining == k then AfterSkip(u, cmd, size) else u.(client := CSkip(cmd, size, remaining - k))
    case _ => u
  }

  predicate CanClientSend(s: State, k: nat) {
    && s.client.CSend?
    && (s.client.cmd.Upload? || s.client.cmd.UploadResume?)
    && s.client.cmd.path in s.local
    && 1 <= k <= |s.local[s.client.cmd.path]| - s.client.pos
  }

  function ClientSend(s: State, k: nat): State
    requires CanClientSend(s, k)
  {
    var file := s.local[s.client.cmd.path];
    var pos := s.client.pos;
    s.(c2s := if s.up then s.c2s + file[pos..pos + k] else s.c2s,
       x := s.x.(sent := s.x.sent + k),
       client := if pos + k == |file| then CAwait(s.client.cmd, false, []) else CSend(s.client.cmd, pos + k))
  }

  // ---- server actions ----

  /** send() of a response; file data follows chunk by chunk. */
  function Respond(s: State, r: Response, data: seq<byte>): (t: State)
    ensures t.client == s.client && t.local == s.local && t.disk == s.disk
    ensures t.requests == s.requests && t.handled == s.handled && t.x.body == s.x.body
    ensures t.up == s.up && t.x.seen == s.x.seen && t.x.derailed == s.x.derailed && t.x.request == s.x.request
  {
    s.(server := if data == [] then SHead([]) else SSend(data),
       s2c := if s.up then s.s2c + EncodeResponse(r) else s.s2c,
       x := s.x.(response := r, reply := EncodeResponse(r) + data, produced := RESPONSE_SIZE),
       answers := s.answers + [r])
  }

  /** The server has decoded the header r. */
  function Handle(s: State, r: Request): (t: State)
    ensures t.client == s.client && t.local == s.local
  {
    if r.magic != MAGIC then
      Respond(s, BAD_MAGIC, []).(server := SClosed, up := false)
    else
      var u := s.(handled := s.handled + [r], x := s.x.(seen := true));
      match Dispatch(s.disk, r)
      case Answer(disk, response) => Respond(u.(disk := disk), response, [])
      case Stream(response, data) => Respond(u, response, data)
      case Receive(disk) =>
        if r.dataLen == 0 then Respond(u.(disk := disk), UPLOADED, [])
        else u.(disk := disk, server := SRecv(r.filename, r.offset, r.offset, r.dataLen))
  }

  /** write() at a position: a gap before it reads as zeros, but writing nothing leaves
      none. */
  function WriteAt(f: seq<byte>, pos: nat, data: seq<byte>): seq<byte> {
    if data == [] then f else
    var head := if pos <= |f| then f[..pos] else f + seq(pos - |f|, _ => 0);
    head + data + (if pos + |data| <= |f| then f[pos + |data|..] else [])
  }

  predicate CanServerRecv(s: State, k: nat, w: nat) {
    && 1 <= k <= |s.c2s|
    && match s.server
       case SHead(buffer) => |buffer| + k <= REQUEST_SIZE
       case SRecv(name, _, _, remaining) =>
         k <= remaining && k <= BUFFER_SIZE && w <= k && IsFile(s.disk, name)
       case _ => false
  }

  /** recv() by the server: k bytes leave its channel. */
  function Read(s: State, k: nat): State
    requires k <= |s.c2s|
  {
    s.(c2s := s.c2s[k..], x := s.x.(read := s.x.read + k))
  }

  function ServerRecv(s: State, k: nat, w: nat): (t: State)
    requires CanServerRecv(s, k, w)
    ensures t.client == s.client && t.local == s.local
  {
    var chunk := s.c2s[..k];
    var u := Read(s, k);
    match s.server
    case SHead(buffer) =>
      var b := buffer + chunk;
      if |b| < REQUEST_SIZE then u.(server := SHead(b)) else Handle(u, DecodeRequest(b))
    case SRecv(name, offset, pos, remaining) =>
      var disk := s.disk[name := File(WriteAt(s.disk[name].data, pos, chunk[..w]))];
      if w < k then
        u.(disk := if offset == 0 then disk - {name} else disk,
           server := SHead([]),
           x := u.x.(derailed := true))
      else if remaining == k then
        Respond(u.(disk := disk), UPLOADED, [])
      else
        u.(disk := disk, server := SRecv(name, offset, pos + k, remaining - k))
    case _ => u
  }

  predicate CanServerSend(s: State, k: nat) {
    s.server.SSend? && 1 <= k <= |s.server.rest|
  }

  function ServerSend(s: State, k: nat): State
    requires CanServerSend(s, k)
  {
    var rest := s.server.rest;
    s.(s2c := if s.up then s.s2c + rest[..k] else s.s2c,
       x := s.x.(produced := s.x.produced + k),
       server := if k == |rest| then SHead([]) else SSend(rest[k..]))
  }

  // ---- steps ----

  /** In a receive step k bytes arrive and w of them are written; w < k is a
      write failure. Break keeps i and j bytes of the channels in flight. */
  datatype Step =
    | Begin(cmd: Command)
    | ClientReceives(k: nat, w: nat)
    | ClientSends(k: nat)
    | ServerReceives(k: nat, w: nat)
    | ServerSends(k: nat)
    | Break(i: nat, j: nat)
    | ClientFails
    | ServerFails
    | Reconnect

  predicate Enabled(s: State, st: Step) {
    match st
    case Begin(_) => s.client.CReady? && s.up
    case ClientReceives(k, w) => CanClientRecv(s, k, w)
    case ClientSends(k) => CanClientSend(s, k)
    case ServerReceives(k, w) => CanServerRecv(s, k, w)
    case ServerSends(k) => CanServerSend(s, k)
    case Break(i, j) => s.up && i <= |s.c2s| && j <= |s.s2c|
    case ClientFails => !s.up && !s.client.CReady? && !s.client.CFailed?
    case ServerFails => !s.up && !s.server.SClosed?
    case Reconnect => (s.client.CReady? || s.client.CFailed?) && s.server.SClosed?
  }

  function Apply(s: State, st: Step): State
    requires Enabled(s, st)
  {
    match st
    case Begin(cmd) => BeginCommand(s, CutName(cmd))
    case ClientReceives(k, w) => ClientRecv(s, k, w)
    case ClientSends(k) => ClientSend(s, k)
    case ServerReceives(k, w) => ServerRecv(s, k, w)
    case ServerSends(k) => ServerSend(s, k)
    case Break(i, j) => s.(up := false, c2s := s.c2s[..i], s2c := s.s2c[..j])
    case ClientFails => s.(client := CFailed)
    case ServerFails =>
      s.(server := SClosed,
         disk := if s.server.SRecv? && s.server.offset == 0 then s.disk - {s.server.name} else s.disk)
    case Reconnect =>
      s.(client := CReady, server := SHead([]), up := true, c2s := [], s2c := [], x := IDLE,
         requests := [], handled := [], answers := [], replies := [])
  }
}
