/** The rotating append-only files between the receiver and the sender of a source: the writer of
    `internal/utils/file_rotate/aof_writer.go` and the reader of `aof_reader.go`, interleaved down to
    single file operations.  Files are named by the stream offset at which they begin, except that
    the first is always called 0. */
module RotatingFiles {
  import opened Basics

  /** The writer: between calls, inside a `Write` of `total` bytes of which `left` are still to be
      appended, about to close a full file, or about to open the next. */
  datatype Writer = Unopened | Idle | Appending(left: seq<byte>, total: nat) | Full | Reopening

  /** The reader: not created yet, reading, having seen the end of its file, or moving on to the next
      file in two operations. */
  datatype Reader = Waiting | Reading | AtEnd | Removing | Opening

  /** `handed` is all that was ever passed to `Write`, `written` what of it has reached a file, and
      `read` what the reader has returned. The last three fields only record history: where in the
      stream each file began, the number of each file, and the number of the reader's file. */
  datatype State = State(
    files: map<int, seq<byte>>, closed: set<int>,
    writer: Writer, wname: int, woffset: int, wsize: nat,
    reader: Reader, rname: int, rpos: nat, roffset: int,
    handed: seq<byte>, written: seq<byte>, read: seq<byte>,
    cuts: seq<nat>, number: map<int, nat>, current: nat)

  const INITIAL := State(map[], {}, Unopened, 0, 0, 0, Waiting, 0, 0, 0, [], [], [], [], map[], 0)

  datatype Step =
    | OpenWriter | BeginWrite(buf: seq<byte>) | Append(n: nat) | EndWrite | CloseFile | OpenNextFile
    | OpenReader | Read(n: nat) | SeeEnd | TryNext | Remove | OpenFollowing

  predicate Enabled(max: nat, st: State, step: Step) {
    match step
    case OpenWriter => st.writer.Unopened?
    case BeginWrite(_) => st.writer.Idle?
    case Append(n) => st.writer.Appending? && 0 < n <= |st.writer.left| && st.wname in st.files
    case EndWrite => st.writer.Appending? && st.writer.left == []
    case CloseFile => st.writer.Full?
    case OpenNextFile => st.writer.Reopening?
    case OpenReader => st.reader.Waiting? && 0 in st.files
    case Read(n) => (st.reader.Reading? || st.reader.AtEnd?) && st.rname in st.files && 0 < n
        && st.rpos + n <= |st.files[st.rname]|
    case SeeEnd => st.reader.Reading? && st.rname in st.files && st.rpos == |st.files[st.rname]|
    case TryNext => st.reader.AtEnd?
    case Remove => st.reader.Removing?
    case OpenFollowing => st.reader.Opening?
  }

  function Next(start: int, max: nat, st: State, step: Step): State
    requires Enabled(max, st, step)
  {
    match step
    // Both open functions take the name from the offset field before they set it.
    case OpenWriter => st.(files := st.files[0 := []], writer := Idle, wname := 0, woffset := start, wsize := 0,
                           cuts := [0], number := map[0 := 0])
    case BeginWrite(buf) => st.(writer := Appending(buf, |buf|), handed := st.handed + buf)
    case Append(n) =>
      var part := st.writer.left[..n];
      st.(files := st.files[st.wname := st.files[st.wname] + part], written := st.written + part,
          writer := Appending(st.writer.left[n..], st.writer.total))
    case EndWrite =>
      st.(woffset := st.woffset + st.writer.total, wsize := st.wsize + st.writer.total,
          writer := if st.wsize + st.writer.total > max then Full else Idle)
    case CloseFile => st.(closed := st.closed + {st.wname}, writer := Reopening)
    case OpenNextFile =>
      st.(files := if st.woffset in st.files then st.files else st.files[st.woffset := []],
          wname := st.woffset, wsize := 0, writer := Idle,
          cuts := st.cuts + [|st.written|], number := st.number[st.woffset := |st.cuts|])
    case OpenReader => st.(reader := Reading, rname := 0, rpos := 0, roffset := start, current := 0)
    case Read(n) =>
      st.(read := st.read + st.files[st.rname][st.rpos..st.rpos + n], rpos := st.rpos + n,
          roffset := st.roffset + n, reader := Reading)
    case SeeEnd => st.(reader := AtEnd)
    case TryNext => st.(reader := if st.roffset != st.rname && st.roffset in st.files then Removing else Reading)
    case Remove => st.(files := st.files - {st.rname}, reader := Opening)
    case OpenFollowing => st.(rname := st.roffset, rpos := 0, reader := Reading, current := st.current + 1)
  }

  ghost predicate IsRun(start: int, max: nat, steps: seq<Step>)
    decreases |steps|, 0
  {
    steps == [] ||
    (IsRun(start, max, steps[..|steps| - 1])
        && Enabled(max, After(start, max, steps[..|steps| - 1]), steps[|steps| - 1]))
  }

  ghost function After(start: int, max: nat, steps: seq<Step>): State
    requires IsRun(start, max, steps)
    decreases |steps|, 1
  {
    if steps == [] then INITIAL
    else Next(start, max, After(start, max, steps[..|steps| - 1]), steps[|steps| - 1])
  }

  // ----- the invariant -----

  /** The name of the `j`-th file: the offset at which it begins, but 0 for the first. */
  ghost function Name(start: int, cuts: seq<nat>, j: nat): int
    requires j < |cuts|
  {
    if j == 0 then 0 else start + cuts[j]
  }

  /** Where the `j`-th file ends, so far. */
  ghost function End(cuts: seq<nat>, total: nat, j: nat): nat
    requires j < |cuts|
  {
    if j + 1 < |cuts| then cuts[j + 1] else total
  }

  /** The first file that has not been removed. */
  ghost function Oldest(st: State): nat {
    if st.reader.Opening? then st.current + 1 else st.current
  }

  ghost predicate CutsOk(st: State) {
    && (st.writer.Unopened? <==> st.cuts == [])
    && (st.cuts != [] ==> st.cuts[0] == 0 && st.cuts[|st.cuts| - 1] <= |st.written|)
    && (forall i, j :: 0 <= i < j < |st.cuts| ==> st.cuts[i] < st.cuts[j])
  }

  ghost function Underway(st: State): int {
    if st.writer.Appending? then st.writer.total - |st.writer.left| else 0
  }

  ghost predicate WriterOk(start: int, st: State)
    requires CutsOk(st)
  {
    if st.writer.Unopened? then st.files == map[] && st.written == [] && st.handed == []
    else
      var last := |st.cuts| - 1;
      && st.wname == Name(start, st.cuts, last)
      && st.woffset == start + |st.written| - Underway(st)
      && (!st.writer.Reopening? ==> |st.written| - st.cuts[last] == st.wsize + Underway(st))
      && (st.writer.Full? ==> st.wsize > 0)
      && (st.writer.Reopening? ==> st.cuts[last] < |st.written|)
      && st.handed == st.written + (if st.writer.Appending? then st.writer.left else [])
  }

  /** The files from number `oldest` on exist and each holds its stretch of the stream. */
  ghost predicate Present(start: int, files: map<int, seq<byte>>, cuts: seq<nat>, written: seq<byte>, oldest: nat) {
    forall j {:trigger Name(start, cuts, j)} :: oldest <= j < |cuts| ==>
      && Name(start, cuts, j) in files
      && cuts[j] <= End(cuts, |written|, j) <= |written|
      && files[Name(start, cuts, j)] == written[cuts[j]..End(cuts, |written|, j)]
  }

  /** There are no other files. */
  ghost predicate Numbered(start: int, files: map<int, seq<byte>>, cuts: seq<nat>, number: map<int, nat>, oldest: nat) {
    forall f :: f in files ==> f in number && oldest <= number[f] < |cuts| && Name(start, cuts, number[f]) == f
  }

  ghost predicate AllClosed(start: int, cuts: seq<nat>, closed: set<int>, n: nat) {
    n <= |cuts| && forall j {:trigger Name(start, cuts, j)} :: 0 <= j < n ==> Name(start, cuts, j) in closed
  }

  /** Files the writer has closed: all but its current one. */
  ghost function ClosedCount(st: State): nat {
    if st.cuts == [] then 0 else if st.writer.Reopening? then |st.cuts| else |st.cuts| - 1
  }

  ghost predicate FilesOk(start: int, st: State) {
    && Present(start, st.files, st.cuts, st.written, Oldest(st))
    && Numbered(start, st.files, st.cuts, st.number, Oldest(st))
    && AllClosed(start, st.cuts, st.closed, ClosedCount(st))
  }

  ghost predicate ReaderOk(start: int, st: State)
    requires CutsOk(st)
  {
    if st.reader.Waiting? then st.read == [] && st.current == 0
    else
      && st.current < |st.cuts| && st.rname == Name(start, st.cuts, st.current)
      && st.cuts[st.current] + st.rpos == |st.read| <= End(st.cuts, |st.written|, st.current)
      && st.read == st.written[..|st.read|]
      && st.roffset == start + |st.read|
      && (st.reader.Removing? || st.reader.Opening? ==>
          st.current + 1 < |st.cuts| && |st.read| == st.cuts[st.current + 1])
  }

  ghost predicate Inv(start: int, st: State) {
    CutsOk(st) && WriterOk(start, st) && FilesOk(start, st) && ReaderOk(start, st)
  }

  // ----- every step keeps it -----

  lemma NamesDiffer(start: int, cuts: seq<nat>, i: nat, j: nat)
    requires start >= 0 && (forall x, y :: 0 <= x < y < |cuts| ==> cuts[x] < cuts[y])
    requires i < |cuts| && j < |cuts|
    ensures Name(start, cuts, i) == Name(start, cuts, j) <==> i == j
  {}

  /** The reader's next offset is the name of a file only when its own file is used up and the writer
      has moved on to the one after it. */
  lemma NextNameMeansUsedUp(start: int, st: State)
    requires start >= 0 && Inv(start, st) && (st.reader.AtEnd? || st.reader.Reading?)
    requires st.roffset != st.rname && st.roffset in st.files
    ensures st.current + 1 < |st.cuts| && |st.read| == st.cuts[st.current + 1]
  {
    hide Present, AllClosed;
    var j := st.number[st.roffset];
    assert Name(start, st.cuts, j) == st.roffset;
    assert j != st.current;
  }

  lemma WriterStepKeeps(start: int, max: nat, st: State, step: Step)
    requires start >= 0 && Inv(start, st) && Enabled(max, st, step)
    requires step.BeginWrite? || step.EndWrite?
    ensures Inv(start, Next(start, max, st, step))
  {
    hide Present, Numbered, AllClosed;
    var st' := Next(start, max, st, step);
    if step.BeginWrite? { assert st'.handed == st.written + step.buf; }
  }

  lemma CloseKeeps(start: int, max: nat, st: State)
    requires start >= 0 && Inv(start, st) && Enabled(max, st, CloseFile)
    ensures Inv(start, Next(start, max, st, CloseFile))
  {
    hide Present, Numbered;
  }

  lemma PresentGrows(start: int, st: State, part: seq<byte>, files: map<int, seq<byte>>)
    requires start >= 0 && CutsOk(st) && st.cuts != [] && Present(start, st.files, st.cuts, st.written, Oldest(st))
    requires var name := Name(start, st.cuts, |st.cuts| - 1);
      name in st.files && files == st.files[name := st.files[name] + part]
    requires Oldest(st) < |st.cuts|
    ensures Present(start, files, st.cuts, st.written + part, Oldest(st))
  {
    var last, written := |st.cuts| - 1, st.written + part;
    forall j: nat | Oldest(st) <= j < |st.cuts|
      ensures Name(start, st.cuts, j) in files
      ensures st.cuts[j] <= End(st.cuts, |written|, j) <= |written|
      ensures files[Name(start, st.cuts, j)] == written[st.cuts[j]..End(st.cuts, |written|, j)]
    {
      NamesDiffer(start, st.cuts, j, last);
      var e := End(st.cuts, |st.written|, j);
      assert st.files[Name(start, st.cuts, j)] == st.written[st.cuts[j]..e];
      if j == last {
        assert written[st.cuts[j]..|written|] == st.written[st.cuts[j]..e] + part;
      } else {
        assert written[st.cuts[j]..e] == st.written[st.cuts[j]..e];
      }
    }
  }

  lemma AppendWriter(start: int, max: nat, st: State, n: nat)
    requires CutsOk(st) && WriterOk(start, st) && Enabled(max, st, Append(n))
    ensures var st' := Next(start, max, st, Append(n)); CutsOk(st') && WriterOk(start, st')
  {
    hide Name;
    var st' := Next(start, max, st, Append(n));
    assert st.writer.left == st.writer.left[..n] + st.writer.left[n..];
    assert st'.handed == st'.written + st'.writer.left;
  }

  lemma AppendReader(start: int, max: nat, st: State, n: nat)
    requires CutsOk(st) && ReaderOk(start, st) && Enabled(max, st, Append(n))
    ensures var st' := Next(start, max, st, Append(n)); CutsOk(st') && ReaderOk(start, st')
  {
    hide Name;
    var st' := Next(start, max, st, Append(n));
    if |st.read| <= |st.written| { assert st'.written[..|st.read|] == st.written[..|st.read|]; }
  }

  lemma AppendKeeps(start: int, max: nat, st: State, n: nat)
    requires start >= 0 && Inv(start, st) && Enabled(max, st, Append(n))
    ensures Inv(start, Next(start, max, st, Append(n)))
  {
    AppendWriter(start, max, st, n);
    AppendReader(start, max, st, n);
    AppendFiles(start, max, st, n);
  }

  lemma AppendFiles(start: int, max: nat, st: State, n: nat)
    requires start >= 0 && Inv(start, st) && Enabled(max, st, Append(n))
    ensures FilesOk(start, Next(start, max, st, Append(n)))
  {
    hide Present, Numbered, AllClosed, Name;
    var st' := Next(start, max, st, Append(n));
    PresentGrows(start, st, st.writer.left[..n], st'.files);
    SameNames(start, st, st'.files);
  }

  lemma SameNames(start: int, st: State, files: map<int, seq<byte>>)
    requires Numbered(start, st.files, st.cuts, st.number, Oldest(st)) && files.Keys <= st.files.Keys
    ensures Numbered(start, files, st.cuts, st.number, Oldest(st))
  {
    assert forall f :: f in files ==> f in files.Keys && f in st.files;
  }

  lemma FreshName(start: int, st: State)
    requires start >= 0 && Inv(start, st) && st.writer.Reopening?
    ensures st.woffset !in st.files
  {
    hide Present, AllClosed;
  }

  lemma MoreCuts(start: int, cuts: seq<nat>, total: nat, j: nat)
    requires j < |cuts|
    ensures Name(start, cuts + [total], j) == Name(start, cuts, j)
    ensures End(cuts + [total], total, j) == End(cuts, total, j)
  {}

  lemma OpenNextFiles(start: int, st: State)
    requires start >= 0 && CutsOk(st) && st.cuts != [] && st.writer.Reopening? && st.woffset == start + |st.written|
    requires st.woffset !in st.files
    requires FilesOk(start, st) && Oldest(st) < |st.cuts|
    ensures Present(start, st.files[st.woffset := []], st.cuts + [|st.written|], st.written, Oldest(st))
    ensures Numbered(start, st.files[st.woffset := []], st.cuts + [|st.written|],
        st.number[st.woffset := |st.cuts|], Oldest(st))
    ensures AllClosed(start, st.cuts + [|st.written|], st.closed, |st.cuts|)
  {
    var cuts := st.cuts + [|st.written|];
    forall j: nat | j < |st.cuts|
      ensures Name(start, cuts, j) == Name(start, st.cuts, j)
      ensures End(cuts, |st.written|, j) == End(st.cuts, |st.written|, j)
    {
      MoreCuts(start, st.cuts, |st.written|, j);
    }
    assert Name(start, cuts, |st.cuts|) == st.woffset && End(cuts, |st.written|, |st.cuts|) == |st.written|;
    forall f | f in st.files
      ensures f in st.number && Oldest(st) <= st.number[f] < |st.cuts| && Name(start, cuts, st.number[f]) == f
    {
      assert Name(start, cuts, st.number[f]) == Name(start, st.cuts, st.number[f]);
    }
  }

  lemma OpenNextKeeps(start: int, max: nat, st: State)
    requires start >= 0 && Inv(start, st) && Enabled(max, st, OpenNextFile)
    ensures Inv(start, Next(start, max, st, OpenNextFile))
  {
    hide Present, Numbered, AllClosed;
    FreshName(start, st);
    OpenNextFiles(start, st);
  }

  /** The reader's own file. */
  lemma CurrentFile(start: int, st: State)
    requires Inv(start, st) && !st.reader.Waiting? && !st.reader.Opening?
    ensures var b, e := st.cuts[st.current], End(st.cuts, |st.written|, st.current);
      b <= e <= |st.written| && st.rname in st.files && st.files[st.rname] == st.written[b..e]
  {
    hide Numbered, AllClosed;
    assert Name(start, st.cuts, st.current) == st.rname;
  }

  /** The file after it, if the writer has opened one. */
  lemma FollowingFile(start: int, st: State)
    requires start >= 0 && Inv(start, st) && !st.reader.Waiting? && st.current + 1 < |st.cuts|
    ensures start + st.cuts[st.current + 1] in st.files && start + st.cuts[st.current + 1] != st.rname
  {
    hide Numbered, AllClosed;
    assert Name(start, st.cuts, st.current + 1) in st.files;
    NamesDiffer(start, st.cuts, st.current, st.current + 1);
  }

  lemma ReadKeeps(start: int, max: nat, st: State, n: nat)
    requires start >= 0 && Inv(start, st) && Enabled(max, st, Step.Read(n))
    ensures Inv(start, Next(start, max, st, Step.Read(n)))
  {
    hide Present, Numbered, AllClosed;
    var b, e := st.cuts[st.current], End(st.cuts, |st.written|, st.current);
    CurrentFile(start, st);
    assert st.read + st.written[b..e][st.rpos..st.rpos + n] == st.written[..|st.read| + n];
  }

  lemma RemoveKeeps(start: int, max: nat, st: State)
    requires start >= 0 && Inv(start, st) && Enabled(max, st, Remove)
    ensures Inv(start, Next(start, max, st, Remove))
  {
    hide Present, Numbered, AllClosed;
    RemoveFiles(start, st);
  }

  lemma RemovePresent(start: int, files: map<int, seq<byte>>, cuts: seq<nat>, written: seq<byte>, k: nat)
    requires start >= 0 && k < |cuts| && (forall x, y :: 0 <= x < y < |cuts| ==> cuts[x] < cuts[y])
    requires Present(start, files, cuts, written, k)
    ensures Present(start, files - {Name(start, cuts, k)}, cuts, written, k + 1)
  {
    hide Name, End;
    forall j: nat | k + 1 <= j < |cuts|
      ensures Name(start, cuts, j) != Name(start, cuts, k)
    {
      NamesDiffer(start, cuts, j, k);
    }
  }

  lemma RemoveNumbered(start: int, files: map<int, seq<byte>>, cuts: seq<nat>, number: map<int, nat>, k: nat)
    requires k < |cuts| && Numbered(start, files, cuts, number, k)
    ensures Numbered(start, files - {Name(start, cuts, k)}, cuts, number, k + 1)
  {
    hide Name;
  }

  lemma RemoveFiles(start: int, st: State)
    requires start >= 0 && Inv(start, st) && st.reader.Removing?
    ensures Present(start, st.files - {st.rname}, st.cuts, st.written, st.current + 1)
    ensures Numbered(start, st.files - {st.rname}, st.cuts, st.number, st.current + 1)
  {
    hide AllClosed, WriterOk, Present, Numbered, Name;
    RemovePresent(start, st.files, st.cuts, st.written, st.current);
    RemoveNumbered(start, st.files, st.cuts, st.number, st.current);
  }

  lemma ReaderStepKeeps(start: int, max: nat, st: State, step: Step)
    requires start >= 0 && Inv(start, st) && Enabled(max, st, step)
    requires step.OpenReader? || step.SeeEnd? || step.TryNext? || step.OpenFollowing?
    ensures Inv(start, Next(start, max, st, step))
  {
    hide Present, Numbered, AllClosed;
    if step.TryNext? && st.roffset != st.rname && st.roffset in st.files { NextNameMeansUsedUp(start, st); }
  }

  lemma OpenWriterKeeps(start: int, max: nat, st: State)
    requires start >= 0 && Inv(start, st) && Enabled(max, st, OpenWriter)
    ensures Inv(start, Next(start, max, st, OpenWriter))
  {}

  lemma StepKeepsInv(start: int, max: nat, st: State, step: Step)
    requires start >= 0 && Inv(start, st) && Enabled(max, st, step)
    ensures Inv(start, Next(start, max, st, step))
  {
    hide Inv;
    match step
    case Append(n) => AppendKeeps(start, max, st, n);
    case OpenNextFile => OpenNextKeeps(start, max, st);
    case Read(n) => ReadKeeps(start, max, st, n);
    case OpenWriter => OpenWriterKeeps(start, max, st);
    case BeginWrite(_) => WriterStepKeeps(start, max, st, step);
    case EndWrite => WriterStepKeeps(start, max, st, step);
    case CloseFile => CloseKeeps(start, max, st);
    case Remove => RemoveKeeps(start, max, st);
    case _ => ReaderStepKeeps(start, max, st, step);
  }

  lemma {:induction false} RunKeepsInv(start: int, max: nat, steps: seq<Step>)
    requires start >= 0 && IsRun(start, max, steps)
    ensures Inv(start, After(start, max, steps))
  {
    if steps != [] {
      hide Inv;
      var before := steps[..|steps| - 1];
      RunKeepsInv(start, max, before);
      StepKeepsInv(start, max, After(start, max, before), steps[|steps| - 1]);
    }
  }

  // ----- what holds in every state of every run -----

  /** The files behave as one stream: what has been read is a prefix of what was written, that is a
      prefix of what was handed to the writer, and the reader's offset is the start plus the bytes
      read. */
  lemma OneStream(start: int, max: nat, steps: seq<Step>)
    requires start >= 0 && IsRun(start, max, steps)
    ensures var st := After(start, max, steps);
      st.read <= st.written <= st.handed && (!st.reader.Waiting? ==> st.roffset == start + |st.read|)
  {
    RunKeepsInv(start, max, steps);
  }

  /** When a file is about to be removed the writer has closed it and the reader has read all of it,
      and the file to go on with is there. */
  lemma RemovedOnlyWhenUsedUp(start: int, max: nat, steps: seq<Step>)
    requires start >= 0 && IsRun(start, max, steps) && After(start, max, steps).reader.Removing?
    ensures var st := After(start, max, steps);
      && st.rname in st.closed && st.rname != st.wname
      && st.rname in st.files && st.rpos == |st.files[st.rname]|
      && st.roffset != st.rname && st.roffset in st.files
  {
    hide Present, Numbered, AllClosed, After, IsRun;
    RunKeepsInv(start, max, steps);
    var st := After(start, max, steps);
    CurrentFile(start, st);
    FollowingFile(start, st);
    ClosedFile(start, st);
  }

  lemma ClosedFile(start: int, st: State)
    requires start >= 0 && Inv(start, st) && !st.reader.Waiting? && st.current + 1 < |st.cuts|
    ensures st.rname in st.closed && st.rname != st.wname
  {
    hide Present, Numbered;
    assert Name(start, st.cuts, st.current) in st.closed;
    NamesDiffer(start, st.cuts, st.current, |st.cuts| - 1);
  }

  /** The reader is never stuck while there is something to read: it can read on in its file, or its
      next offset names another file; only between the writer's close and its next open may it have
      to wait. Opening the following file never fails. */
  lemma NeverStuck(start: int, max: nat, steps: seq<Step>)
    requires start >= 0 && IsRun(start, max, steps)
    ensures var st := After(start, max, steps);
      && (st.reader.Opening? ==> st.roffset in st.files)
      && ((st.reader.Reading? || st.reader.AtEnd?) && |st.read| < |st.written| && !st.writer.Reopening? ==>
        st.rname in st.files && (st.rpos < |st.files[st.rname]| || (st.roffset != st.rname && st.roffset in st.files)))
  {
    hide Present, Numbered, AllClosed, After, IsRun;
    RunKeepsInv(start, max, steps);
    var st := After(start, max, steps);
    if !st.reader.Waiting? && st.current + 1 < |st.cuts| { FollowingFile(start, st); }
    if st.reader.Reading? || st.reader.AtEnd? { CurrentFile(start, st); }
  }
}
