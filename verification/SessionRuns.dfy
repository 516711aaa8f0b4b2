/** Building runs of a session piece by piece: what a party can do with the bytes
    that lie in front of it, whether or not they are the right ones. */
module SessionRuns {
  import opened Wire
  import opened Session
  import opened Framing
  import opened SessionTheorems
  import opened SessionRefinement
  import opened SessionProgress

  /** `run` leads from s to t, whether or not its commands are acceptable. */
  ghost predicate Leads(s: State, run: seq<Step>, t: State)
    decreases |run|
  {
    if run == [] then t == s else Enabled(s, run[0]) && Leads(Apply(s, run[0]), run[1..], t)
  }

  lemma {:induction false} Chain(s: State, run: seq<Step>, t: State, more: seq<Step>, u: State)
    requires Leads(s, run, t) && Leads(t, more, u)
    ensures Leads(s, run + more, u)
    decreases |run|
  {
    hide Apply, Enabled;
    if run == [] {
      assert run + more == more;
    } else {
      assert (run + more)[1..] == run[1..] + more;
      Chain(Apply(s, run[0]), run[1..], t, more, u);
    }
  }

  lemma LeadsNowhere(s: State)
    ensures Leads(s, [], s)
  {
  }

  lemma LeadsStep(s: State, st: Step)
    requires Enabled(s, st)
    ensures Leads(s, [st], Apply(s, st))
  {
    hide Enabled, Apply;
    assert Leads(Apply(s, st), [st][1..], Apply(s, st));
  }

  /** From s the parties can get to t without a fault and without a new command. */
  ghost predicate Can(s: State, t: State) {
    exists run :: Leads(s, run, t) && AllMove(run)
  }

  lemma CanStay(s: State)
    ensures Can(s, s)
  {
    assert Leads(s, [], s) && AllMove([]);
  }

  lemma CanStep(s: State, st: Step)
    requires Enabled(s, st) && Faultless(st) && !st.Begin?
    ensures Can(s, Apply(s, st))
  {
    hide Enabled, Apply, Leads;
    LeadsStep(s, st);
    assert AllMove([st]);
  }

  lemma CanThen(s: State, t: State, u: State)
    requires Can(s, t) && Can(t, u)
    ensures Can(s, u)
  {
    hide Leads;
    var run :| Leads(s, run, t) && AllMove(run);
    var more :| Leads(t, more, u) && AllMove(more);
    Chain(s, run, t, more, u);
    assert AllMove(run + more);
  }

  // ---- the server ----

  /** A whole header is there. */
  lemma ReadHeader(s: State, b: seq<byte>)
    requires s.server == SHead([]) && |b| == REQUEST_SIZE && b <= s.c2s
    ensures Can(s, Handle(Read(s, REQUEST_SIZE), DecodeRequest(b)))
  {
    hide DecodeRequest, Handle;
    var st := ServerReceives(REQUEST_SIZE, REQUEST_SIZE);
    assert [] + s.c2s[..REQUEST_SIZE] == b;
    CanStep(s, st);
    assert Apply(s, st) == Handle(Read(s, REQUEST_SIZE), DecodeRequest(b));
  }

  lemma SendRest(s: State) returns (t: State)
    requires s.up && (s.server.SSend? ==> s.server.rest != []) && (s.server.SSend? || s.server == SHead([]))
    ensures Can(s, t) && t.server == SHead([])
    ensures t == s.(server := SHead([]), s2c := t.s2c, x := s.x.(produced := t.x.produced))
    ensures t.s2c == s.s2c + if s.server.SSend? then s.server.rest else []
  {
    if s.server.SSend? {
      var rest := s.server.rest;
      t := Apply(s, ServerSends(|rest|));
      CanStep(s, ServerSends(|rest|));
      assert rest[..|rest|] == rest;
    } else {
      t := s;
      CanStay(s);
      assert s.s2c + [] == s.s2c;
    }
  }

  lemma StoreByte(s: State) returns (t: State)
    requires s.server.SRecv? && 1 < s.server.remaining && s.c2s != [] && IsFile(s.disk, s.server.name)
    ensures Can(s, t) && IsFile(t.disk, s.server.name)
    ensures t == s.(server := s.server.(pos := s.server.pos + 1, remaining := s.server.remaining - 1),
                    c2s := s.c2s[1..], disk := t.disk, x := s.x.(read := s.x.read + 1))
  {
    hide WriteAt;
    t := Apply(s, ServerReceives(1, 1));
    CanStep(s, ServerReceives(1, 1));
  }

  /** The next bytes of the body, not the last ones, are stored one by one. */
  lemma {:induction false} StoreSome(s: State, n: nat) returns (t: State)
    requires s.server.SRecv? && n < s.server.remaining && n <= |s.c2s| && IsFile(s.disk, s.server.name)
    ensures Can(s, t)
    ensures t == s.(server := s.server.(pos := s.server.pos + n, remaining := s.server.remaining - n),
                    c2s := s.c2s[n..], disk := t.disk, x := s.x.(read := s.x.read + n))
    ensures IsFile(t.disk, s.server.name)
    decreases n
  {
    hide Can;
    if n == 0 {
      t := s;
      CanStay(s);
    } else {
      var u := StoreByte(s);
      t := StoreSome(u, n - 1);
      assert u.c2s[n - 1..] == s.c2s[n..];
      CanThen(s, u, t);
    }
  }

  /** The whole body is stored, and confirmed. */
  lemma StoreAll(s: State) returns (t: State)
    requires s.server.SRecv? && 0 < s.server.remaining <= |s.c2s| && IsFile(s.disk, s.server.name) && s.up
    ensures Can(s, t)
    ensures t.server == SHead([]) && t.c2s == s.c2s[s.server.remaining..] && t.s2c == s.s2c + EncodeResponse(UPLOADED)
    ensures t.client == s.client && t.local == s.local && t.up
  {
    hide WriteAt, EncodeResponse, Reply;
    var n := s.server.remaining;
    var u := StoreSome(s, n - 1);
    var st := ServerReceives(1, 1);
    t := Apply(u, st);
    CanStep(u, st);
    CanThen(s, u, t);
    assert u.c2s[1..] == s.c2s[n..];
  }

  // ---- the client ----

  /** Enough bytes for a response are there, whatever they are. */
  lemma ReadResponse(s: State)
    requires s.client.CAwait? && s.client.buffer == [] && |s.s2c| >= RESPONSE_SIZE
    ensures Can(s, ClientReply(Took(s, RESPONSE_SIZE), s.client.cmd, s.client.probe, DecodeResponse(s.s2c[..RESPONSE_SIZE])))
  {
    hide DecodeResponse, ClientReply;
    var st := ClientReceives(RESPONSE_SIZE, RESPONSE_SIZE);
    assert [] + s.s2c[..RESPONSE_SIZE] == s.s2c[..RESPONSE_SIZE];
    CanStep(s, st);
  }

  /** n bytes of the body have been received and written. */
  function Grown(s: State, n: nat): State
    requires s.client.CBody? && n <= s.client.remaining && n <= |s.s2c|
    requires (s.client.cmd.Download? || s.client.cmd.DownloadResume?) && s.client.cmd.path in s.local
  {
    var cmd := s.client.cmd;
    s.(client := if n == s.client.remaining then CReady else CBody(cmd, s.client.remaining - n), s2c := s.s2c[n..],
       local := s.local[cmd.path := s.local[cmd.path] + s.s2c[..n]], x := s.x.(got := s.x.got + n))
  }

  lemma TakeByte(s: State)
    requires s.client.CBody? && 0 < s.client.remaining && s.s2c != []
    requires (s.client.cmd.Download? || s.client.cmd.DownloadResume?) && s.client.cmd.path in s.local
    ensures Can(s, Grown(s, 1))
  {
    CanStep(s, ClientReceives(1, 1));
    hide Can;
    assert s.s2c[..1][..1] == s.s2c[..1];
  }

  lemma GrowTwice(s: State, n: nat)
    requires s.client.CBody? && 1 < n <= s.client.remaining && n <= |s.s2c|
    requires (s.client.cmd.Download? || s.client.cmd.DownloadResume?) && s.client.cmd.path in s.local
    ensures Grown(Grown(s, 1), n - 1) == Grown(s, n)
  {
    var have, stream := s.local[s.client.cmd.path], s.s2c;
    assert stream[1..][n - 1..] == stream[n..];
    assert stream[..1] + stream[1..][..n - 1] == stream[..n];
    assert have + stream[..1] + stream[1..][..n - 1] == have + stream[..n];
  }

  lemma {:induction false} TakeBody(s: State)
    requires s.client.CBody? && 0 < s.client.remaining <= |s.s2c|
    requires (s.client.cmd.Download? || s.client.cmd.DownloadResume?) && s.client.cmd.path in s.local
    ensures Can(s, Grown(s, s.client.remaining))
    decreases s.client.remaining
  {
    hide Can;
    var n := s.client.remaining;
    TakeByte(s);
    if n == 1 {
    } else {
      TakeBody(Grown(s, 1));
      CanThen(s, Grown(s, 1), Grown(Grown(s, 1), n - 1));
      GrowTwice(s, n);
    }
  }

  lemma {:induction false} SkipAll(s: State)
    requires s.client.CSkip? && s.client.cmd.UploadResume? && 0 < s.client.remaining <= |s.s2c|
    ensures Can(s, AfterSkip(Took(s, s.client.remaining), s.client.cmd, s.client.size))
    decreases s.client.remaining
  {
    hide StartUpload;
    var n := s.client.remaining;
    var st := ClientReceives(1, 1);
    var u := Apply(s, st);
    CanStep(s, st);
    if n == 1 {
    } else {
      assert u == Took(s, 1).(client := CSkip(s.client.cmd, s.client.size, n - 1));
      SkipAll(u);
      assert s.s2c[1..][n - 1..] == s.s2c[n..];
      var v := Took(s, n).(client := u.client);
      assert Took(u, n - 1) == v;
      AfterSkipClient(v, Took(s, n), s.client.cmd, s.client.size);
      CanThen(s, u, AfterSkip(v, s.client.cmd, s.client.size));
    }
  }

  /** Where the client was does not matter for what it does after the skip. */
  lemma AfterSkipClient(s: State, t: State, cmd: Command, size: nat)
    requires cmd.UploadResume? && s == t.(client := s.client)
    ensures AfterSkip(s, cmd, size) == AfterSkip(t, cmd, size)
  {
    hide EncodeRequest;
  }

  /** The client sends the rest of its file, if there is any. */
  lemma SendUpload(s: State, cmd: Command, offset: nat) returns (t: State)
    requires (cmd.Upload? || cmd.UploadResume?) && cmd.path in s.local && offset <= |s.local[cmd.path]| && s.up
    ensures var data := s.local[cmd.path][offset..];
            && Can(StartUpload(s, cmd, cmd.path, cmd.remote, offset), t)
            && t.c2s == s.c2s + EncodeRequest(Ask(CMD_UPLOAD, U32(|data|), offset, cmd.remote)) + data
            && t == s.(client := CAwait(cmd, false, []), c2s := t.c2s, x := t.x, requests := t.requests)
            && |t.requests| == |s.requests| + 1
  {
    hide EncodeRequest;
    var u := StartUpload(s, cmd, cmd.path, cmd.remote, offset);
    var file := s.local[cmd.path];
    var n := |file| - offset;
    if n == 0 {
      t := u;
      CanStay(u);
      assert s.c2s + EncodeRequest(Ask(CMD_UPLOAD, U32(0), offset, cmd.remote)) + file[offset..]
             == s.c2s + EncodeRequest(Ask(CMD_UPLOAD, U32(0), offset, cmd.remote));
    } else {
      t := Apply(u, ClientSends(n));
      CanStep(u, ClientSends(n));
      assert file[offset..offset + n] == file[offset..];
    }
  }
}
