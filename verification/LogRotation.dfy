/** Numbered-file rotation of linux-file-server/src/log.c: the directory is a map
    from names to contents; renames and reopening the log succeed. */
module LogRotation {
  import opened Wire

  /** The log file, and its rotated copies with a number at the end. */
  datatype File = Current | Numbered(i: int)

  type Directory = map<File, seq<byte>>
  type Line = seq<byte>

  datatype Found = Missing | Holds(bytes: seq<byte>)

  function Look(d: Directory, f: File): Found { if f in d then Holds(d[f]) else Missing }

  function Rename(d: Directory, from: File, to: File): Directory {
    if from in d then (d - {from})[to := d[from]] else d
  }

  /** What a whole rotation leaves under each number. */
  function Shifted(d: Directory, maxFiles: int, i: int): Found {
    if i == 1 then Look(d, Current)
    else if 2 <= i <= maxFiles then Look(d, Numbered(i - 1))
    else if i == maxFiles then Missing
    else Look(d, Numbered(i))
  }

  /** The rotation of log_check_rotate. Each number up to the limit gets what the number
      before it had, missing files included; the log starts again empty. */
  method Rotate(d: Directory, maxFiles: int) returns (r: Directory)
    requires Current in d
    ensures Look(r, Current) == Holds([])
    ensures forall i :: Look(r, Numbered(i)) == Shifted(d, maxFiles, i)
  {
    r := d - {Numbered(maxFiles)};
    var i := maxFiles - 1;
    while i >= 1
      invariant i <= maxFiles - 1 && (if maxFiles >= 1 then i >= 0 else i == maxFiles - 1)
      invariant Look(r, Current) == Look(d, Current) && Look(r, Numbered(i + 1)) == Missing
      invariant forall k :: k <= i || k > maxFiles ==> Look(r, Numbered(k)) == Look(d, Numbered(k))
      invariant forall k :: i + 2 <= k <= maxFiles ==> Look(r, Numbered(k)) == Look(d, Numbered(k - 1))
    {
      r := Rename(r, Numbered(i), Numbered(i + 1));
      i := i - 1;
    }
    r := Rename(r, Current, Numbered(1));
    r := r[Current := []];
  }

  // ---- what a sequence of writes amounts to ----

  function Flat(lines: seq<Line>): seq<byte> {
    if lines == [] then [] else lines[0] + Flat(lines[1..])
  }

  /** The lines of each rotated file, oldest first, and of the log itself. */
  datatype Past = Past(closed: seq<seq<Line>>, current: seq<Line>)

  function Grow(h: Past, line: Line, limit: int): Past {
    var lines := h.current + [line];
    if limit > 0 && |Flat(lines)| >= limit then Past(h.closed + [lines], []) else Past(h.closed, lines)
  }

  function PastOf(lines: seq<Line>, limit: int): Past {
    if lines == [] then Past([], []) else Grow(PastOf(lines[..|lines| - 1], limit), lines[|lines| - 1], limit)
  }

  function Join(chunks: seq<seq<Line>>): seq<Line> {
    if chunks == [] then [] else chunks[0] + Join(chunks[1..])
  }

  function Max(a: int, b: int): int { if a >= b then a else b }
  function Min(a: int, b: int): int { if a <= b then a else b }

  /** How many rotated files exist. A limit below one keeps one file. */
  function Copies(h: Past, maxFiles: int): nat { Min(|h.closed|, Max(maxFiles, 1)) }

  /** What file number i holds: the i-th chunk from the end. */
  function Kept(h: Past, maxFiles: int, i: int): Found {
    if 1 <= i <= Copies(h, maxFiles) then Holds(Flat(h.closed[|h.closed| - i])) else Missing
  }

  /** The directory holds the last rotated chunks under their numbers, and nothing else. */
  ghost predicate Represents(d: Directory, h: Past, maxFiles: int) {
    && Look(d, Current) == Holds(Flat(h.current))
    && (forall i :: Look(d, Numbered(i)) == Kept(h, maxFiles, i))
  }

  class Log {
    const maxSize: int       // rotate_max_size: no rotation unless positive
    const maxFiles: int      // rotate_max_files
    var level: int
    var files: Directory
    ghost var written: seq<Line>

    ghost predicate Valid()
      reads this
    {
      Represents(files, PastOf(written, maxSize), maxFiles)
    }

    constructor (maxSize: int, maxFiles: int, level: int)
      ensures Valid() && written == [] && this.maxSize == maxSize && this.maxFiles == maxFiles
    {
      this.maxSize, this.maxFiles, this.level := maxSize, maxFiles, level;
      files := map[Current := []];
      written := [];
    }

    method CheckRotate()
      requires Current in files
      modifies this`files
      ensures if maxSize > 0 && |old(files)[Current]| >= maxSize then
                && Look(files, Current) == Holds([])
                && forall i :: Look(files, Numbered(i)) == Shifted(old(files), maxFiles, i)
              else
                files == old(files)
    {
      if maxSize <= 0 {
        return;
      }
      if |files[Current]| >= maxSize {
        files := Rotate(files, maxFiles);
      }
    }

    /** log_write_impl: the formatted line goes to the log unless its level is too low. */
    method Write(level: int, line: Line)
      requires Valid()
      modifies this`files, this`written
      ensures Valid()
      ensures written == if level < this.level then old(written) else old(written) + [line]
    {
      if level < this.level {
        return;
      }
      ghost var h, d := PastOf(written, maxSize), files;
      files := files[Current := files[Current] + line];
      written := written + [line];
      assert written[..|written| - 1] == old(written);
      FlatAppend(h.current, line);
      CheckRotate();
      WriteRepresents(d, files, h, line, maxSize, maxFiles);
    }
  }

  lemma {:induction false} FlatAppend(lines: seq<Line>, line: Line)
    ensures Flat(lines + [line]) == Flat(lines) + line
  {
    if lines == [] {
      assert Flat([line]) == line + Flat([line][1..]);
    } else {
      assert (lines + [line])[1..] == lines[1..] + [line];
      FlatAppend(lines[1..], line);
    }
  }

  /** One write and the rotation it may cause, on the directory and on the past. */
  lemma WriteRepresents(d: Directory, r: Directory, h: Past, line: Line, maxSize: int, maxFiles: int)
    requires Represents(d, h, maxFiles)
    requires Current in d
    requires var e := d[Current := d[Current] + line];
             if maxSize > 0 && |e[Current]| >= maxSize then
               Look(r, Current) == Holds([]) && forall i :: Look(r, Numbered(i)) == Shifted(e, maxFiles, i)
             else
               r == e
    ensures Represents(r, Grow(h, line, maxSize), maxFiles)
  {
    AppendRepresents(d, h, line, maxFiles);
    assert |Flat(h.current + [line])| == |d[Current] + line|;
    hide Represents, Look, Shifted;
    if maxSize > 0 && |d[Current] + line| >= maxSize {
      RotateRepresents(d[Current := d[Current] + line], r, h, h.current + [line], maxFiles);
    }
  }

  lemma AppendRepresents(d: Directory, h: Past, line: Line, maxFiles: int)
    requires Represents(d, h, maxFiles)
    ensures Current in d && Flat(h.current + [line]) == d[Current] + line
    ensures Represents(d[Current := d[Current] + line], Past(h.closed, h.current + [line]), maxFiles)
  {
    FlatAppend(h.current, line);
    var e, g := d[Current := d[Current] + line], Past(h.closed, h.current + [line]);
    forall i ensures Look(e, Numbered(i)) == Kept(g, maxFiles, i) {
      assert Look(d, Numbered(i)) == Kept(h, maxFiles, i);
    }
  }

  lemma RotateRepresents(e: Directory, r: Directory, h: Past, lines: seq<Line>, maxFiles: int)
    requires Represents(e, Past(h.closed, lines), maxFiles)
    requires Look(r, Current) == Holds([]) && forall i :: Look(r, Numbered(i)) == Shifted(e, maxFiles, i)
    ensures Represents(r, Past(h.closed + [lines], []), maxFiles)
  {
    var before, after := Past(h.closed, lines), Past(h.closed + [lines], []);
    forall i ensures Look(r, Numbered(i)) == Kept(after, maxFiles, i) {
      ShiftedKept(e, before, after, maxFiles, i);
    }
  }

  lemma ShiftedKept(e: Directory, before: Past, after: Past, maxFiles: int, i: int)
    requires Represents(e, before, maxFiles)
    requires after == Past(before.closed + [before.current], [])
    ensures Shifted(e, maxFiles, i) == Kept(after, maxFiles, i)
  {
    assert Look(e, Numbered(i)) == Kept(before, maxFiles, i) && Look(e, Numbered(i - 1)) == Kept(before, maxFiles, i - 1);
    assert Look(e, Current) == Holds(Flat(before.current));
    hide Represents, Look;
    if 2 <= i <= Copies(after, maxFiles) {
      assert after.closed[|after.closed| - i] == before.closed[|before.closed| - (i - 1)];
    }
  }

  // ---- the theorems ----

  lemma {:induction false} FlatConcat(a: seq<Line>, b: seq<Line>)
    ensures Flat(a + b) == Flat(a) + Flat(b)
  {
    if a == [] {
      assert a + b == b;
    } else {
      assert (a + b)[1..] == a[1..] + b;
      FlatConcat(a[1..], b);
    }
  }

  lemma {:induction false} JoinConcat(a: seq<seq<Line>>, b: seq<seq<Line>>)
    ensures Join(a + b) == Join(a) + Join(b)
  {
    if a == [] {
      assert a + b == b;
    } else {
      assert (a + b)[1..] == a[1..] + b;
      JoinConcat(a[1..], b);
    }
  }

  lemma JoinAppend(a: seq<seq<Line>>, b: seq<Line>)
    ensures Join(a + [b]) == Join(a) + b
  {
    JoinConcat(a, [b]);
    assert Join([b]) == b + Join([b][1..]);
  }

  /** No line is lost or moved between the chunks. */
  lemma {:induction false} PastIsEverything(lines: seq<Line>, limit: int)
    ensures Join(PastOf(lines, limit).closed) + PastOf(lines, limit).current == lines
  {
    if lines == [] {
    } else {
      var rest, line := lines[..|lines| - 1], lines[|lines| - 1];
      PastIsEverything(rest, limit);
      GrowKeepsAll(PastOf(rest, limit), line, limit);
      assert rest + [line] == lines;
    }
  }

  /** One line more, whether or not its chunk is closed. */
  lemma GrowKeepsAll(h: Past, line: Line, limit: int)
    ensures var g := Grow(h, line, limit);
            Join(g.closed) + g.current == Join(h.closed) + h.current + [line]
  {
    hide Flat, Join;
    var grown := h.current + [line];
    JoinAppend(h.closed, grown);
    assert Join(h.closed) + grown == Join(h.closed) + h.current + [line];
    assert Join(h.closed) + grown + [] == Join(h.closed) + grown;
  }

  ghost predicate ClosedSize(chunk: seq<Line>, limit: int) {
    && chunk != []
    && limit <= |Flat(chunk)| < limit + |chunk[|chunk| - 1]|
  }

  /** A rotated file has reached the limit, and had not before its last line; the log
      itself is below the limit. */
  lemma {:induction false} RotatedSizes(lines: seq<Line>, limit: int)
    requires limit > 0
    ensures forall k :: 0 <= k < |PastOf(lines, limit).closed| ==> ClosedSize(PastOf(lines, limit).closed[k], limit)
    ensures |Flat(PastOf(lines, limit).current)| < limit
  {
    if lines == [] {
    } else {
      var rest, line := lines[..|lines| - 1], lines[|lines| - 1];
      RotatedSizes(rest, limit);
      FlatAppend(PastOf(rest, limit).current, line);
    }
  }

  /** The files .k, ..., .1 and the log, one after the other. */
  function Together(d: Directory, k: nat): seq<byte>
    requires Current in d && forall i :: 1 <= i <= k ==> Numbered(i) in d
  {
    if k == 0 then d[Current] else d[Numbered(k)] + Together(d, k - 1)
  }

  lemma {:induction false} TogetherIs(d: Directory, h: Past, maxFiles: int, k: nat)
    requires Represents(d, h, maxFiles) && k <= Copies(h, maxFiles)
    ensures Current in d && forall i :: 1 <= i <= k ==> Numbered(i) in d
    ensures Together(d, k) == Flat(Join(h.closed[|h.closed| - k..]) + h.current)
  {
    NumbersPresent(d, h, maxFiles);
    assert Look(d, Current) == Holds(Flat(h.current)) && Look(d, Numbered(k)) == Kept(h, maxFiles, k);
    hide Represents;
    var tail := h.closed[|h.closed| - k..];
    if k == 0 {
      assert Join(tail) + h.current == h.current;
    } else {
      TogetherIs(d, h, maxFiles, k - 1);
      assert tail[1..] == h.closed[|h.closed| - (k - 1)..];
      FirstChunk(tail, h.current);
    }
  }

  lemma FirstChunk(chunks: seq<seq<Line>>, current: seq<Line>)
    requires chunks != []
    ensures Flat(Join(chunks) + current) == Flat(chunks[0]) + Flat(Join(chunks[1..]) + current)
  {
    var rest := Join(chunks[1..]);
    assert Join(chunks) + current == chunks[0] + (rest + current);
    FlatConcat(chunks[0], rest + current);
  }

  /** Rotation keeps a suffix of the history: after any writes the files, oldest first,
      hold exactly the last lines written; only with maxFiles rotated copies is anything
      older gone. */
  lemma KeepsSuffix(lines: seq<Line>, d: Directory, maxSize: int, maxFiles: int) returns (k: nat, cut: nat)
    requires Represents(d, PastOf(lines, maxSize), maxFiles)
    ensures k <= Max(maxFiles, 1) && cut <= |lines|
    ensures Current in d && (forall i :: Numbered(i) in d <==> 1 <= i <= k)
    ensures Together(d, k) == Flat(lines[cut..])
    ensures cut > 0 ==> k == Max(maxFiles, 1)
  {
    hide Represents;
    var h := PastOf(lines, maxSize);
    k := Copies(h, maxFiles);
    NumbersPresent(d, h, maxFiles);
    TogetherIs(d, h, maxFiles, k);
    PastIsEverything(lines, maxSize);
    cut := SuffixAt(lines, h, |h.closed| - k);
  }

  lemma NumbersPresent(d: Directory, h: Past, maxFiles: int)
    requires Represents(d, h, maxFiles)
    ensures forall i :: Numbered(i) in d <==> 1 <= i <= Copies(h, maxFiles)
  {
    forall i ensures Numbered(i) in d <==> 1 <= i <= Copies(h, maxFiles) {
      assert Look(d, Numbered(i)) == Kept(h, maxFiles, i);
    }
  }

  lemma SuffixAt(lines: seq<Line>, h: Past, split: nat) returns (cut: nat)
    requires Join(h.closed) + h.current == lines && split <= |h.closed|
    ensures cut <= |lines| && lines[cut..] == Join(h.closed[split..]) + h.current
    ensures split == 0 ==> cut == 0
  {
    var a, b := h.closed[..split], h.closed[split..];
    JoinConcat(a, b);
    assert a + b == h.closed;
    cut := |Join(a)|;
  }
}
