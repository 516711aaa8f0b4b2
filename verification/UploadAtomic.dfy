/** A plain upload is all or nothing: however its connection breaks and whatever writes
    fail, once the server has let go of it the name holds what it held, nothing, or the
    whole file, and the last of these whenever the server has confirmed it. */
module UploadAtomic {
  import opened Wire
  import opened Session
  import opened Framing
  import opened SessionTheorems
  import ResumeUpload

  /** The upload of `data` under a name of these files, some way on. */
  ghost predicate Storing(s: State, d: Disk, name: Name, data: seq<byte>) {
    && s.x.outgoing != [] && s.x.body == data
    && s.x.request.cmd == CMD_UPLOAD && s.x.request.offset == 0 && s.x.request.filename == name
    && (!s.x.seen ==> s.disk == d && !s.server.SRecv?)
    && (if s.server.SRecv? then s.server.pos <= |data| && s.disk == d[name := File(data[..s.server.pos])]
        else s.disk == d || s.disk == d - {name} || s.disk == d[name := File(data)])
    && (s.x.reply != [] && s.x.response.status == STATUS_OK ==> s.disk == d[name := File(data)])
  }

  // ---- the client ----

  lemma BeginStores(s: State, path: Name, remote: Name)
    requires path in s.local && !s.server.SRecv?
    ensures Storing(BeginCommand(s, Upload(path, remote)), s.disk, remote, s.local[path])
  {
    hide EncodeRequest;
    assert s.local[path][0..] == s.local[path];
  }

  /** The client of an upload only waits for its answer. */
  lemma ClientStores(s: State, k: nat, w: nat, d: Disk, name: Name, data: seq<byte>)
    requires SessionInv(s) && Storing(s, d, name, data) && CanClientRecv(s, k, w)
    ensures Storing(ClientRecv(s, k, w), d, name, data)
  {
    hide CodecInv, NoMagic, HistoryInv, Tells, StartUpload, DecodeResponse, Channels, ServerInv;
  }

  // ---- the server ----

  lemma HandleStores(s: State, d: Disk, name: Name, data: seq<byte>)
    requires Shape(s.x) && Storing(s, d, name, data) && !s.x.seen && s.x.reply == [] && s.x.request.magic == MAGIC
    ensures Storing(Handle(s, s.x.request), d, name, data)
  {
    hide EncodeResponse, Denied, Cut;
    assert data == [] ==> File(data) == File([]);
    assert data[..0] == [];
  }

  lemma HeadStores(s: State, k: nat, w: nat, d: Disk, name: Name, data: seq<byte>)
    requires SessionInv(s) && Storing(s, d, name, data) && CanServerRecv(s, k, w)
    requires s.server.SHead? && |s.server.buffer| + k == REQUEST_SIZE
    ensures Storing(ServerRecv(s, k, w), d, name, data)
  {
    hide EncodeRequest, NoMagic, HistoryInv, Tells, Handle, CodecInv, DecodeRequest, ClientInv;
    if s.x.seen {
      OnlyDerailed(s);
      DerailedMagic(s, k);
      RefuseStores(Read(s, k), DecodeRequest(s.server.buffer + s.c2s[..k]), d, name, data);
    } else {
      Unanswered(s);
      HeadLast(s, k, w);
      HandleStores(Read(s, k), d, name, data);
    }
  }

  lemma RefuseStores(s: State, r: Request, d: Disk, name: Name, data: seq<byte>)
    requires Storing(s, d, name, data) && r.magic != MAGIC && s.x.seen && !s.server.SRecv?
    ensures Storing(Handle(s, r), d, name, data)
  {
    hide EncodeResponse, Dispatch;
  }

  /** What arrives is the next part of the file. */
  lemma NextChunk(s: State, k: nat)
    requires LinkInv(s) && s.server.SRecv? && s.x.request.offset == 0 && k <= |s.c2s| && k <= s.server.remaining
    ensures s.server.name == s.x.request.filename && s.server.offset == 0
    ensures s.server.pos + s.server.remaining == |s.x.body| && s.c2s[..k] == s.x.body[s.server.pos..s.server.pos + k]
  {
    hide NoMagic;
    TakeRequest(s, k);
    hide Channels;
  }

  /** ... and is appended. */
  lemma NextPart(s: State, k: nat, w: nat, d: Disk, name: Name, data: seq<byte>)
    requires SessionInv(s) && Storing(s, d, name, data) && CanServerRecv(s, k, w) && s.server.SRecv?
    ensures s.server.name == name && s.server.offset == 0 && s.server.pos + s.server.remaining == |data|
    ensures s.disk[name := File(WriteAt(s.disk[name].data, s.server.pos, s.c2s[..k][..w]))]
            == d[name := File(data[..s.server.pos + w])]
  {
    hide LinkInv, ClientInv, CodecInv, HistoryInv, Tells, WriteAt;
    NextChunk(s, k);
    ResumeUpload.Append(data, data[..s.server.pos], s.c2s[..k], w);
  }

  lemma StoreStores(s: State, k: nat, w: nat, d: Disk, name: Name, data: seq<byte>)
    requires SessionInv(s) && Storing(s, d, name, data) && CanServerRecv(s, k, w) && s.server.SRecv?
    ensures Storing(ServerRecv(s, k, w), d, name, data)
  {
    hide SessionInv, WriteAt, EncodeResponse;
    NextPart(s, k, w, d, name, data);
    Receives(s);
    assert d[name := File(data[..s.server.pos + w])] - {name} == d - {name};
    assert data[..|data|] == data;
  }

  lemma Receives(s: State)
    requires SessionInv(s) && s.server.SRecv?
    ensures s.x.seen && s.x.reply == []
  {
    hide NoMagic, Channels, CodecInv, HistoryInv, Tells, ClientInv;
  }

  lemma FailureStores(s: State, d: Disk, name: Name, data: seq<byte>)
    requires SessionInv(s) && Storing(s, d, name, data) && Enabled(s, ServerFails)
    ensures Storing(Apply(s, ServerFails), d, name, data)
  {
    hide NoMagic, Channels, CodecInv, HistoryInv, Tells, ClientInv;
    if s.server.SRecv? {
      assert s.server.name == name && s.server.offset == 0;
      assert s.disk - {name} == d - {name};
    }
  }

  // ---- every run ----

  lemma StepStores(s: State, st: Step, d: Disk, name: Name, data: seq<byte>)
    requires SessionInv(s) && Storing(s, d, name, data) && Legal(s, st) && !st.Begin? && !st.Reconnect?
    ensures Storing(Apply(s, st), d, name, data)
  {
    hide SessionInv, ClientRecv, ServerRecv, NoMagic;
    match st
    case ClientReceives(k, w) => ClientStores(s, k, w, d, name, data);
    case ServerReceives(k, w) =>
      if s.server.SRecv? {
        StoreStores(s, k, w, d, name, data);
      } else if |s.server.buffer| + k == REQUEST_SIZE {
        HeadStores(s, k, w, d, name, data);
      } else {
        HeaderStores(s, k, w, d, name, data);
      }
    case ServerFails => FailureStores(s, d, name, data);
    case _ =>
  }

  lemma HeaderStores(s: State, k: nat, w: nat, d: Disk, name: Name, data: seq<byte>)
    requires Storing(s, d, name, data) && CanServerRecv(s, k, w) && s.server.SHead? && |s.server.buffer| + k < REQUEST_SIZE
    ensures Storing(ServerRecv(s, k, w), d, name, data)
  {
    hide Handle, DecodeRequest;
  }

  /** One attempt: any steps and faults up to the next command or connection. */
  predicate OneAttempt(run: seq<Step>) { forall i :: 0 <= i < |run| ==> !run[i].Begin? && !run[i].Reconnect? }

  lemma {:induction false} RunStores(s: State, run: seq<Step>, d: Disk, name: Name, data: seq<byte>)
    requires SessionInv(s) && Storing(s, d, name, data) && IsRun(s, run) && OneAttempt(run)
    ensures Storing(Final(s, run), d, name, data)
    decreases |run|
  {
    hide SessionInv, Storing, Enabled, NoMagic, Acceptable, CutName, Apply;
    if run == [] {
    } else {
      SessionStep(s, run[0]);
      StepStores(s, run[0], d, name, data);
      RunStores(Apply(s, run[0]), run[1..], d, name, data);
    }
  }

  lemma UploadIsAtomic(s: State, path: Name, remote: Name, run: seq<Step>)
    requires SessionInv(s) && s.client.CReady? && Legal(s, Begin(Upload(path, remote))) && path in s.local
    requires IsRun(Apply(s, Begin(Upload(path, remote))), run) && OneAttempt(run)
    ensures var t, name, data := Final(Apply(s, Begin(Upload(path, remote))), run), Cut(remote), s.local[path];
            && (if t.server.SRecv? then
                  t.server.pos <= |data| && t.disk == s.disk[name := File(data[..t.server.pos])]
                else
                  t.disk == s.disk || t.disk == s.disk - {name} || t.disk == s.disk[name := File(data)])
            && (t.x.reply != [] && t.x.response.status == STATUS_OK ==> t.disk == s.disk[name := File(data)])
  {
    hide SessionInv, Acceptable, BeginCommand, IsRun, Cut;
    SessionStep(s, Begin(Upload(path, remote)));
    NotReceiving(s);
    BeginStores(s, path, Cut(remote));
    RunStores(Apply(s, Begin(Upload(path, remote))), run, s.disk, Cut(remote), s.local[path]);
  }

  lemma NotReceiving(s: State)
    requires SessionInv(s) && s.client.CReady? && s.up && Settled(s)
    ensures !s.server.SRecv?
  {
    hide NoMagic, CodecInv, HistoryInv, Tells;
  }
}
