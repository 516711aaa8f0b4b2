/** The data loops of client.c and server.c: file contents between a handle with a
    position and a stream that moves any amount at a time, or fails. Each method
    follows a state of Session, one step for each turn of its loop. */
module TransferLoops {
  import opened Wire
  import opened StreamIO
  import opened Session
  import opened SessionRuns

  /** An open file: its bytes, the position, and how much of each write the disk takes
      (the whole of it once the schedule is used up). */
  class Handle {
    var data: seq<byte>
    var pos: nat
    var schedule: seq<nat>

    constructor (data: seq<byte>, pos: nat, schedule: seq<nat>)
      ensures this.data == data && this.pos == pos && this.schedule == schedule
    {
      this.data, this.pos, this.schedule := data, pos, schedule;
    }

    /** write() at the position; a short count is a full disk. */
    method Write(bytes: seq<byte>) returns (n: nat)
      modifies this
      ensures n <= |bytes| && pos == old(pos) + n
      ensures data == WriteAt(old(data), old(pos), bytes[..n])
    {
      n := |bytes|;
      if schedule != [] {
        if schedule[0] < n { n := schedule[0]; }
        schedule := schedule[1..];
      }
      data := WriteAt(data, pos, bytes[..n]);
      pos := pos + n;
    }

    /** read(): up to a buffer of the bytes at the position; nothing at the end. */
    method Read(limit: nat) returns (bytes: seq<byte>)
      requires limit > 0 && pos <= |data|
      modifies this`pos
      ensures old(pos) <= pos <= |data| && bytes == data[old(pos)..pos] && |bytes| <= limit
      ensures bytes == [] <==> old(pos) == |data|
    {
      if pos >= |data| {
        return [];
      }
      var n := if |data| - pos < limit then |data| - pos else limit;
      bytes := data[pos..pos + n];
      pos := pos + n;
    }
  }

  /** write() by position: the new bytes from `pos` on, the old ones elsewhere, and zeros
      in a gap between them. */
  lemma WriteEach(f: seq<byte>, pos: nat, data: seq<byte>, i: nat)
    ensures var g := WriteAt(f, pos, data);
            && |g| == (if data == [] || pos + |data| <= |f| then |f| else pos + |data|)
            && (i < |g| ==> g[i] == if pos <= i < pos + |data| then data[i - pos] else if i < |f| then f[i] else 0)
  {
    if data != [] {
      var head := if pos <= |f| then f[..pos] else f + seq(pos - |f|, _ => 0);
      assert |head| == pos && (i < pos ==> head[i] == if i < |f| then f[i] else 0);
    }
  }

  lemma WriteNothing(f: seq<byte>, pos: nat)
    ensures WriteAt(f, pos, []) == f
  {
  }

  lemma WriteAtEnd(f: seq<byte>, bytes: seq<byte>)
    ensures WriteAt(f, |f|, bytes) == f + bytes
  {
    if bytes == [] {
      assert f + bytes == f;
    } else {
      assert f + bytes + [] == f + bytes;
    }
  }

  /** Two writes in a row are one write of both. */
  lemma WriteTwice(f: seq<byte>, pos: nat, a: seq<byte>, b: seq<byte>)
    ensures WriteAt(WriteAt(f, pos, a), pos + |a|, b) == WriteAt(f, pos, a + b)
  {
    if a == [] {
      assert a + b == b;
    } else if b == [] {
      assert a + b == a;
    } else {
      var once, both := WriteAt(f, pos, a), WriteAt(f, pos, a + b);
      assert once[..pos + |a|] == both[..pos + |a|];
      assert once[pos + |a|..] == if pos + |a| <= |f| then f[pos + |a|..] else [];
    }
  }

  // ---- the client receives a file ----

  /** The session's client is in its receive loop with these bytes and this file. */
  ghost predicate Receiving(s: State, cmd: Command, remaining: nat, stream: seq<byte>, file: seq<byte>) {
    && (cmd.Download? || cmd.DownloadResume?)
    && s.client == (if remaining == 0 then CReady else CBody(cmd, remaining))
    && s.s2c == stream && cmd.path in s.local && s.local[cmd.path] == file
  }

  /** One turn of the loop is one step of the client. */
  lemma ReceiveTurn(s: State, cmd: Command, remaining: nat, stream: seq<byte>, file: seq<byte>, k: nat, w: nat)
    requires Receiving(s, cmd, remaining, stream, file)
    requires 0 < k <= remaining && k <= |stream| && k <= BUFFER_SIZE && w <= k
    ensures Enabled(s, ClientReceives(k, w))
    ensures var t := Apply(s, ClientReceives(k, w));
            && t.client.CReady? == (w < k || k == remaining)
            && t.s2c == stream[k..] && t.disk == s.disk
            && cmd.path in t.local && t.local[cmd.path] == file + stream[..k][..w]
            && (w == k ==> Receiving(t, cmd, remaining - k, stream[k..], file + stream[..k]))
  {
    assert stream[..k][..k] == stream[..k];
  }

  lemma ReceivingFacts(s: State, cmd: Command, remaining: nat, stream: seq<byte>, file: seq<byte>)
    requires Receiving(s, cmd, remaining, stream, file)
    ensures cmd.Download? || cmd.DownloadResume?
    ensures s.s2c == stream && cmd.path in s.local && s.local[cmd.path] == file && (s.client.CReady? <==> remaining == 0)
  {
  }

  /** ... behind those made so far. */
  lemma ReceivesOn(s: State, run: seq<Step>, t: State, cmd: Command, remaining: nat, stream: seq<byte>, file: seq<byte>,
                   k: nat, w: nat) returns (more: seq<Step>, u: State)
    requires Leads(s, run, t) && Receiving(t, cmd, remaining, stream, file)
    requires 0 < k <= remaining && k <= |stream| && k <= BUFFER_SIZE && w <= k
    ensures Leads(s, more, u) && u.client.CReady? == (w < k || k == remaining) && u.s2c == stream[k..]
    ensures cmd.path in u.local && u.local[cmd.path] == file + stream[..k][..w]
    ensures w == k ==> Receiving(u, cmd, remaining - k, stream[k..], file + stream[..k])
  {
    hide Apply, Enabled, Leads;
    ReceiveTurn(t, cmd, remaining, stream, file, k, w);
    var st := ClientReceives(k, w);
    LeadsStep(t, st);
    u, more := Apply(t, st), run + [st];
    Chain(s, run, t, [st], u);
  }

  /** The receive loop of a download: the first bytes of the stream go to the end of the
      file, in order; `remaining` reaches zero exactly when all of them did. On failure a
      part may have been taken from the stream, and a part of that written. */
  method ReceiveFile(ch: Channel, fd: Handle, length: nat, ghost s: State, ghost cmd: Command)
    returns (remaining: nat, ghost taken: nat, ghost stored: nat, ghost run: seq<Step>, ghost t: State)
    requires fd.pos == |fd.data| && (cmd.Download? || cmd.DownloadResume?) && Receiving(s, cmd, length, ch.data, fd.data)
    modifies ch, fd
    ensures stored <= taken <= length && taken <= |old(ch.data)| && ch.data == old(ch.data)[taken..]
    ensures fd.data == old(fd.data) + old(ch.data)[..stored]
    ensures remaining == 0 <==> stored == length
    ensures stored < taken || remaining == length - taken
    ensures Leads(s, run, t) && t.s2c == ch.data && cmd.path in t.local && t.local[cmd.path] == fd.data
    ensures t.client.CReady? <==> remaining == 0 || stored < taken
  {
    hide WriteAt, Leads, Receiving;
    remaining, taken, stored, run, t := length, 0, 0, [], s;
    ghost var stream, file := ch.data, fd.data;
    LeadsNowhere(s);
    ReceivingFacts(s, cmd, length, stream, file);
    while remaining > 0
      invariant stored == taken == length - remaining && taken <= |stream| && ch.data == stream[taken..]
      invariant fd.data == file + stream[..stored] && fd.pos == |fd.data|
      invariant Leads(s, run, t) && Receiving(t, cmd, remaining, ch.data, fd.data)
      invariant t.s2c == ch.data && cmd.path in t.local && t.local[cmd.path] == fd.data && (t.client.CReady? <==> remaining == 0)
      decreases remaining
    {
      ghost var left, have := ch.data, fd.data;
      var n, chunk := ch.Recv(if remaining < BUFFER_SIZE then remaining else BUFFER_SIZE);
      if n <= 0 {
        break;
      }
      assert chunk == left[..n] && ch.data == left[n..];
      taken := taken + n;
      var m := fd.Write(chunk);
      WriteAtEnd(have, chunk[..m]);
      run, t := ReceivesOn(s, run, t, cmd, remaining, left, have, n, m);
      NextBytes(file, stream, stored, n, m);
      stored := stored + m;
      if m != n {
        break;
      }
      assert left[..n][..n] == left[..n];
      remaining := remaining - n;
    }
  }

  lemma NextBytes(file: seq<byte>, stream: seq<byte>, i: nat, n: nat, m: nat)
    requires i + n <= |stream| && m <= n
    ensures stream[i..][n..] == stream[i + n..]
    ensures file + stream[..i] + stream[i..][..n][..m] == file + stream[..i + m]
  {
    assert stream[..i] + stream[i..][..n][..m] == stream[..i + m];
  }

  // ---- the client skips a file ----

  lemma SkipTurn(s: State, cmd: Command, size: nat, remaining: nat, k: nat)
    requires s.client == CSkip(cmd, size, remaining) && cmd.UploadResume?
    requires 0 < k <= remaining && k <= |s.s2c| && k <= BUFFER_SIZE
    ensures Enabled(s, ClientReceives(k, k))
    ensures var t := Apply(s, ClientReceives(k, k));
            && t.s2c == s.s2c[k..]
            && (k < remaining ==> t.client == CSkip(cmd, size, remaining - k) && t.local == s.local && t.disk == s.disk)
            && (k == remaining ==> t == AfterSkip(Took(s, k), cmd, size))
  {
    hide EncodeRequest;
  }

  /** The skip loop of a resumed upload: the probed file is taken from the stream, and
      the upload starts when nothing of it remains. */
  method SkipFile(ch: Channel, length: nat, ghost s: State, ghost cmd: Command, ghost size: nat)
    returns (remaining: nat, ghost run: seq<Step>, ghost t: State)
    requires length > 0 && s.client == CSkip(cmd, size, length) && cmd.UploadResume? && s.s2c == ch.data
    modifies ch
    ensures remaining <= length && length - remaining <= |old(ch.data)|
    ensures ch.data == old(ch.data)[length - remaining..]
    ensures Leads(s, run, t) && t.s2c == ch.data
    ensures if remaining > 0 then t.client == CSkip(cmd, size, remaining)
            else exists u: State :: t == AfterSkip(u, cmd, size) && u.local == s.local && u.disk == s.disk
  {
    hide Apply, Enabled, Leads, AfterSkip;
    remaining, run, t := length, [], s;
    ghost var stream := ch.data;
    LeadsNowhere(s);
    while remaining > 0
      invariant remaining <= length && length - remaining <= |stream| && ch.data == stream[length - remaining..]
      invariant Leads(s, run, t) && t.s2c == ch.data
      invariant if remaining > 0 then t.client == CSkip(cmd, size, remaining) && t.local == s.local && t.disk == s.disk
                else exists u: State :: t == AfterSkip(u, cmd, size) && u.local == s.local && u.disk == s.disk
      decreases remaining
    {
      ghost var i, left := length - remaining, ch.data;
      var n, chunk := ch.Recv(if remaining < BUFFER_SIZE then remaining else BUFFER_SIZE);
      if n <= 0 {
        break;
      }
      assert ch.data == left[n..];
      NextBytes([], stream, i, n, n);
      SkipTurn(t, cmd, size, remaining, n);
      ghost var st := ClientReceives(n, n);
      LeadsStep(t, st);
      Chain(s, run, t, [st], Apply(t, st));
      run, t := run + [st], Apply(t, st);
      remaining := remaining - n;
    }
  }

  // ---- a file is sent ----

  /** The send loop of both parties: the file from the position to its end goes to the
      stream, or a first part of it when sending fails. */
  method SendFile(ch: Channel, fd: Handle) returns (ok: bool, ghost sent: nat)
    requires fd.pos <= |fd.data|
    modifies ch, fd`pos
    ensures old(fd.pos) + sent <= |fd.data|
    ensures ch.data == old(ch.data) + fd.data[old(fd.pos)..old(fd.pos) + sent]
    ensures ok <==> old(fd.pos) + sent == |fd.data|
  {
    ghost var start, stream, file := fd.pos, ch.data, fd.data;
    sent := 0;
    ok := true;
    while true
      invariant ok && start + sent == fd.pos <= |file|
      invariant ch.data == stream + file[start..start + sent]
      decreases |file| - fd.pos
    {
      var bytes := fd.Read(BUFFER_SIZE);
      if bytes == [] {
        break;
      }
      assert bytes == file[start + sent..start + sent + |bytes|];
      var all, part := SendAll(ch, bytes);
      assert file[start..start + sent] + bytes[..part] == file[start..start + sent + part];
      sent := sent + part;
      if !all {
        ok := false;
        break;
      }
    }
  }

  /** What the loop sends is what a step of the uploading client, or of the server in a
      download, puts on its channel. */
  lemma SendsAreSteps(s: State, sent: nat)
    requires s.up && sent > 0
    ensures CanClientSend(s, sent) ==>
              var file, pos := s.local[s.client.cmd.path], s.client.pos;
              && Apply(s, ClientSends(sent)).c2s == s.c2s + file[pos..pos + sent]
              && (pos + sent == |file| <==> Apply(s, ClientSends(sent)).client.CAwait?)
    ensures CanServerSend(s, sent) ==>
              && Apply(s, ServerSends(sent)).s2c == s.s2c + s.server.rest[..sent]
              && (sent == |s.server.rest| <==> Apply(s, ServerSends(sent)).server == SHead([]))
  {
  }

  // ---- the server stores a file ----

  /** The session's server is in its receive loop with these bytes and this file. */
  ghost predicate Storing(s: State, name: Name, offset: nat, pos: nat, remaining: nat, stream: seq<byte>, file: seq<byte>) {
    && s.c2s == stream && name in s.disk && s.disk[name] == File(file)
    && (if remaining == 0 then s.server == SHead([]) else s.server == SRecv(name, offset, pos, remaining))
  }

  lemma StoreTurn(s: State, name: Name, offset: nat, pos: nat, remaining: nat, stream: seq<byte>, file: seq<byte>, k: nat, w: nat)
    requires Storing(s, name, offset, pos, remaining, stream, file)
    requires 0 < k <= remaining && k <= |stream| && k <= BUFFER_SIZE && w <= k
    ensures Enabled(s, ServerReceives(k, w))
    ensures var t, now := Apply(s, ServerReceives(k, w)), WriteAt(file, pos, stream[..k][..w]);
            && t.c2s == stream[k..]
            && (w < k ==> t.server == SHead([]) && (if offset == 0 then name !in t.disk else name in t.disk && t.disk[name] == File(now)))
            && (w == k ==> Storing(t, name, offset, pos + k, remaining - k, stream[k..], now))
  {
    hide EncodeResponse, Reply;
  }

  lemma StoresOn(s: State, run: seq<Step>, t: State, name: Name, offset: nat, pos: nat, remaining: nat,
                 stream: seq<byte>, file: seq<byte>, k: nat, w: nat) returns (more: seq<Step>, u: State)
    requires Leads(s, run, t) && Storing(t, name, offset, pos, remaining, stream, file)
    requires 0 < k <= remaining && k <= |stream| && k <= BUFFER_SIZE && w <= k
    ensures Leads(s, more, u) && u.c2s == stream[k..]
    ensures var now := WriteAt(file, pos, stream[..k][..w]);
            && (w < k ==> u.server == SHead([]) && (if offset == 0 then name !in u.disk else name in u.disk && u.disk[name] == File(now)))
            && (w == k ==> Storing(u, name, offset, pos + k, remaining - k, stream[k..], now))
  {
    hide Apply, Enabled, Leads, WriteAt;
    StoreTurn(t, name, offset, pos, remaining, stream, file, k, w);
    var st := ServerReceives(k, w);
    LeadsStep(t, st);
    u, more := Apply(t, st), run + [st];
    Chain(s, run, t, [st], u);
  }

  /** The receive loop of server_recv_file: on success the whole body was stored; when
      a fresh upload fails its file is removed, a failed resumed one stays with a
      first part of the body. */
  method StoreFile(ch: Channel, fd: Handle, length: nat, offset: nat, ghost s: State, ghost name: Name)
    returns (ok: bool, keep: bool, ghost stored: nat, ghost run: seq<Step>, ghost t: State)
    requires length > 0 && fd.pos == offset && Storing(s, name, offset, offset, length, ch.data, fd.data)
    modifies ch, fd
    ensures stored <= length && stored <= |old(ch.data)|
    ensures fd.data == WriteAt(old(fd.data), offset, old(ch.data)[..stored])
    ensures ok <==> stored == length
    ensures ok ==> ch.data == old(ch.data)[length..]
    ensures keep == (ok || offset > 0)
    ensures Leads(s, run, t) && t.c2s == ch.data
    ensures ok ==> t.server == SHead([]) && name in t.disk && t.disk[name] == File(fd.data)
    ensures t.server.SRecv? || (keep <==> name in t.disk)
  {
    hide WriteAt, Apply, Enabled, Leads;
    var remaining: nat := length;
    stored, run, t := 0, [], s;
    ghost var stream, file := ch.data, fd.data;
    LeadsNowhere(s);
    WriteNothing(file, offset);
    while remaining > 0
      invariant stored == length - remaining <= |stream| && ch.data == stream[stored..]
      invariant fd.data == WriteAt(file, offset, stream[..stored]) && fd.pos == offset + stored
      invariant Leads(s, run, t) && Storing(t, name, offset, fd.pos, remaining, ch.data, fd.data)
      decreases remaining
    {
      ghost var left, have, at := ch.data, fd.data, fd.pos;
      var n, chunk := ch.Recv(if remaining < BUFFER_SIZE then remaining else BUFFER_SIZE);
      if n <= 0 {
        return false, offset != 0, stored, run, t;
      }
      assert chunk == left[..n] && ch.data == left[n..];
      var m := fd.Write(chunk);
      run, t := StoresOn(s, run, t, name, offset, at, remaining, left, have, n, m);
      NextBytes([], stream, stored, n, m);
      assert stream[..stored] + chunk[..m] == stream[..stored + m];
      WriteTwice(file, offset, stream[..stored], chunk[..m]);
      stored := stored + m;
      if m != n {
        return false, offset != 0, stored, run, t;
      }
      assert left[..n][..n] == left[..n];
      remaining := remaining - n;
    }
    return true, true, stored, run, t;
  }
}
