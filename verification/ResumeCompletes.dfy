/** Total convergence of resumed transfers: from whatever state broken attempts have
    left, a new connection can be had, and one attempt on it that nothing breaks
    ends after boundedly many moves with equal files. */
module ResumeCompletes {
  import opened Wire
  import opened Session
  import opened Framing
  import opened SessionTheorems
  import opened SessionRefinement
  import opened SessionProgress
  import ResumeDownload
  import ResumeUpload

  // ---- back to a fresh connection ----

  /** Steps that are not commands. */
  predicate NoCommand(run: seq<Step>) { forall i :: 0 <= i < |run| ==> !run[i].Begin? }

  /** From every state the parties can give up and connect again. */
  lemma Recover(s: State) returns (run: seq<Step>)
    ensures IsRun(s, run) && NoCommand(run) && Fresh(Final(s, run))
  {
    hide IsRun, Final;
    NoSteps(s);
    run := [];
    if s.up {
      run := GiveUp(s, run, Break(0, 0));
    }
    if !s.client.CReady? && !s.client.CFailed? {
      run := GiveUp(s, run, ClientFails);
    }
    if !s.server.SClosed? {
      run := GiveUp(s, run, ServerFails);
    }
    run := GiveUp(s, run, Reconnect);
  }

  lemma NoSteps(s: State)
    ensures IsRun(s, []) && Final(s, []) == s
  {
  }

  /** One more step towards a new connection. */
  lemma GiveUp(s: State, run: seq<Step>, st: Step) returns (more: seq<Step>)
    requires IsRun(s, run) && NoCommand(run) && Enabled(Final(s, run), st)
    requires st.Break? || st.ClientFails? || st.ServerFails? || st.Reconnect?
    ensures IsRun(s, more) && NoCommand(more)
    ensures var t, u := Final(s, run), Final(s, more);
            && u.up == (if st.Break? then false else if st.Reconnect? then true else t.up)
            && u.client == (if st.ClientFails? then CFailed else if st.Reconnect? then CReady else t.client)
            && u.server == (if st.ServerFails? then SClosed else if st.Reconnect? then SHead([]) else t.server)
            && (st.Reconnect? ==> Fresh(u))
  {
    hide IsRun, Final;
    RunAppend(s, run, st);
    more := run + [st];
  }

  // ---- downloads ----

  lemma DownloadEffect(w: World, path: Name, remote: Name)
    requires IsFile(w.disk, remote) && !Denied(remote) && (path in w.local ==> w.local[path] <= w.disk[remote].data)
    ensures var v := Exec(w, DownloadResume(remote, path));
            path in v.local && v.local[path] == w.disk[remote].data && v.disk == w.disk
  {
    hide Denied;
    var have, data := if path in w.local then w.local[path] else [], w.disk[remote].data;
    assert have + data[|have|..] == data;
  }

  /** After any session in which attempts broke off anywhere, one resumed download that
      nothing breaks makes a bounded number of moves, and ends with equal files. */
  lemma ResumedDownloadCompletes(s: State, before: seq<Step>, path: Name, remote: Name, run: seq<Step>)
    requires Fresh(s) && IsFile(s.disk, remote) && !Denied(remote) && Cut(remote) == remote
    requires path in s.local ==> s.local[path] <= s.disk[remote].data
    requires IsRun(s, before) && ResumeDownload.AllowedRun(before, path, remote)
    requires var t := Final(s, before);
             && t.client.CReady? && t.up && Settled(t) && Acceptable(t.local, t.disk, DownloadResume(remote, path))
             && IsRun(Apply(t, Begin(DownloadResume(remote, path))), run) && AllMove(run)
    ensures var t := Apply(Final(s, before), Begin(DownloadResume(remote, path)));
            var u := Final(t, run);
            && |run| <= Work(t)
            && (u.client.CReady? || exists st :: Moves(u, st))
            && (u.client.CReady? ==> path in u.local && u.local[path] == s.disk[remote].data)
  {
    hide Apply, IsRun, Final, Work, Acceptable, Exec, Denied, Moves, SessionInv, AllMove, ResumeDownload.PrefixInv;
    var t, cmd := Final(s, before), DownloadResume(remote, path);
    FreshInv(s);
    StartsAsPrefix(s, path, remote);
    ResumeDownload.DownRun(s, before, path, remote);
    StaysAPrefix(t, path, remote);
    CommandCompletes(t, cmd, run);
    DownloadEffect(World(t.local, t.disk), path, remote);
  }

  lemma StartsAsPrefix(s: State, path: Name, remote: Name)
    requires Fresh(s) && IsFile(s.disk, remote) && (path in s.local ==> s.local[path] <= s.disk[remote].data)
    ensures ResumeDownload.PrefixInv(s, path, remote)
  {
  }

  lemma StaysAPrefix(s: State, path: Name, remote: Name)
    requires ResumeDownload.PrefixInv(s, path, remote)
    ensures IsFile(s.disk, remote) && (path in s.local ==> s.local[path] <= s.disk[remote].data)
  {
  }

  // ---- uploads ----

  lemma UploadEffect(w: World, path: Name, remote: Name)
    requires path in w.local && !Denied(remote) && (remote in w.disk ==> w.disk[remote].File? && w.disk[remote].data <= w.local[path])
    ensures var v := Exec(w, UploadResume(path, remote));
            remote in v.disk && v.disk[remote] == File(w.local[path]) && v.local == w.local
  {
    var have, data := FileData(w.disk, remote), w.local[path];
    assert have + data[|have|..] == data;
  }

  /** The same for resumed uploads: the server copy ends up equal to the local file. */
  lemma ResumedUploadCompletes(s: State, before: seq<Step>, path: Name, remote: Name, run: seq<Step>)
    requires Fresh(s) && path in s.local && !Denied(remote) && Cut(remote) == remote
    requires remote in s.disk ==> s.disk[remote].File? && s.disk[remote].data <= s.local[path]
    requires IsRun(s, before) && ResumeUpload.AllowedRun(before, path, remote)
    requires var t := Final(s, before);
             && t.client.CReady? && t.up && Settled(t) && Acceptable(t.local, t.disk, UploadResume(path, remote))
             && IsRun(Apply(t, Begin(UploadResume(path, remote))), run) && AllMove(run)
    ensures var t := Apply(Final(s, before), Begin(UploadResume(path, remote)));
            var u := Final(t, run);
            && |run| <= Work(t)
            && (u.client.CReady? || exists st :: Moves(u, st))
            && (u.client.CReady? ==> remote in u.disk && u.disk[remote] == File(s.local[path]))
  {
    hide Apply, IsRun, Final, Work, Acceptable, Exec, Denied, Moves, SessionInv, AllMove, ResumeUpload.CopyInv;
    var t, cmd := Final(s, before), UploadResume(path, remote);
    FreshInv(s);
    StartsAsCopy(s, path, remote);
    ResumeUpload.UpRun(s, before, path, remote);
    StaysACopy(t, path, remote);
    CommandCompletes(t, cmd, run);
    UploadEffect(World(t.local, t.disk), path, remote);
  }

  lemma StartsAsCopy(s: State, path: Name, remote: Name)
    requires Fresh(s) && path in s.local && (remote in s.disk ==> s.disk[remote].File? && s.disk[remote].data <= s.local[path])
    ensures ResumeUpload.CopyInv(s, path, remote)
  {
  }

  lemma StaysACopy(s: State, path: Name, remote: Name)
    requires ResumeUpload.CopyInv(s, path, remote)
    ensures path in s.local && (remote in s.disk ==> s.disk[remote].File? && s.disk[remote].data <= s.local[path])
  {
  }
}
