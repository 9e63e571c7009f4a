/**
 Readers of a temp file that is still being written: fileAvailableReader and the downloader that appends,
 publishes and broadcasts. Sleeping on the condition variable and waking up are explicit.
 */
module TempFileReader {
  type Bytes = seq<bv8>

  /** The fields of downloadState that its mutex guards, and the file they describe. */
  datatype Shared = Shared(file: Bytes, bytesWritten: nat, finalSize: nat, failed: bool)

  /** What a call of Read does with the state it finds under the mutex. */
  datatype Verdict = Sleep | Error | Eof | Take(n: nat)

  function Decide(s: Shared, offset: nat, len: nat): Verdict {
    if offset >= s.bytesWritten && s.finalSize == 0 && !s.failed then Sleep
    else if s.failed then Error
    else if s.finalSize != 0 && offset >= s.finalSize then Eof
    else
      var available := s.bytesWritten - offset;
      if available < 0 then Take(0) else Take(if len > available then available else len)
  }

  /** Something a reader at this offset should be told about. */
  predicate Pending(s: Shared, offset: nat) { offset < s.bytesWritten || s.finalSize != 0 || s.failed }

  predicate Good(s: Shared) {
    && s.bytesWritten <= |s.file|
    && (s.finalSize != 0 ==> s.finalSize == s.bytesWritten == |s.file|)
  }

  class DownloadState {
    var file: Bytes
    var bytesWritten: nat
    var finalSize: nat
    var failed: bool

    ghost function State(): Shared
      reads this
    {
      Shared(file, bytesWritten, finalSize, failed)
    }

    constructor ()
      ensures State() == Shared([], 0, 0, false)
    {
      file, bytesWritten, finalSize, failed := [], 0, 0, false;
    }
  }

  class FileAvailableReader {
    const ds: DownloadState
    var offset: nat
    ghost var out: Bytes

    constructor (ds: DownloadState)
      ensures this.ds == ds && offset == 0 && out == []
    {
      this.ds, offset, out := ds, 0, [];
    }

    /** Everything returned so far is the beginning of the file, and none of it is past bytesWritten. */
    ghost predicate Valid()
      reads this, ds
    {
      Good(ds.State()) && offset <= ds.bytesWritten && out == ds.file[..offset]
    }

    /** Read(p); Sleep stands for a call that waits on the condition variable. */
    method Read(p: array<bv8>) returns (v: Verdict)
      requires Valid()
      modifies this, p
      ensures Valid() && v == Decide(ds.State(), old(offset), p.Length)
      ensures v.Sleep? <==> !ds.failed && ds.finalSize == 0 && old(offset) == ds.bytesWritten
      ensures v.Error? <==> ds.failed
      ensures v.Eof? <==> !ds.failed && ds.finalSize != 0 && old(offset) == ds.finalSize
      ensures v.Take? ==>
        && v.n == (if p.Length <= ds.bytesWritten - old(offset) then p.Length else ds.bytesWritten - old(offset)) && offset == old(offset) + v.n
        && p[..v.n] == ds.file[old(offset)..offset] && out == old(out) + p[..v.n]
      ensures !v.Take? ==> offset == old(offset) && out == old(out) && p[..] == old(p[..])
    {
      if offset >= ds.bytesWritten && ds.finalSize == 0 && !ds.failed {
        return Sleep;
      }
      if ds.failed {
        return Error;
      }
      if ds.finalSize != 0 && offset >= ds.finalSize {
        return Eof;
      }
      var available := ds.bytesWritten - offset;
      var toRead := p.Length;
      if toRead > available {
        toRead := available;
      }
      for i := 0 to toRead
        modifies p
        invariant p[..i] == ds.file[offset..offset + i]
      {
        p[i] := ds.file[offset + i];
      }
      assert ds.file[..offset + toRead] == ds.file[..offset] + p[..toRead];
      out := out + p[..toRead];
      offset := offset + toRead;
      return Take(toRead);
    }
  }

  // ---------------------------------------------------------------- all interleavings

  /** The downloading goroutine inside and after streamReaderToFile; Wrote: appended, not yet published. */
  datatype Writer = Copying | Wrote | Owes(last: bool) | Finished

  datatype Mode = Running | Sleeping | AtEof | Stopped

  datatype Reader = Reader(offset: nat, out: Bytes, mode: Mode)

  /** `chunkerOwes`: the chunking goroutine has set an error and not yet broadcast. */
  datatype World = World(shared: Shared, writer: Writer, chunkerOwes: bool, readers: map<nat, Reader>)

  datatype Step =
    | Append(chunk: Bytes)
    | Publish
    | Finish
    | WriterFails
    | WriterBroadcast
    | ChunkerFails
    | ChunkerBroadcast
    | Join(id: nat)
    | Read(id: nat, len: nat)

  const EMPTY: World := World(Shared([], 0, 0, false), Copying, false, map[])

  predicate Owed(w: World) { w.writer.Owes? || w.chunkerOwes }

  predicate StepEnabled(w: World, s: Step) {
    match s
    case Append(chunk) => w.writer.Copying? && chunk != []
    case Publish => w.writer.Wrote?
    case Finish => w.writer.Copying?
    case WriterFails => w.writer.Copying? || w.writer.Wrote?
    case WriterBroadcast => w.writer.Owes?
    case ChunkerFails => true
    case ChunkerBroadcast => w.chunkerOwes
    case Join(id) => id !in w.readers
    case Read(id, _) => id in w.readers && w.readers[id].mode.Running?
  }

  function Woken(readers: map<nat, Reader>): map<nat, Reader> {
    map i | i in readers :: if readers[i].mode.Sleeping? then readers[i].(mode := Running) else readers[i]
  }

  /** ReadAt, of bytes that are there. */
  function ReadAt(file: Bytes, offset: nat, n: nat): Bytes {
    if offset + n <= |file| then file[offset..offset + n] else []
  }

  function AfterRead(s: Shared, r: Reader, len: nat): Reader {
    match Decide(s, r.offset, len)
    case Sleep => r.(mode := Sleeping)
    case Error => r.(mode := Stopped)
    case Eof => r.(mode := AtEof)
    case Take(n) => r.(offset := r.offset + n, out := r.out + ReadAt(s.file, r.offset, n))
  }

  function Next(w: World, s: Step): World
    requires StepEnabled(w, s)
  {
    var sh := w.shared;
    match s
    case Append(chunk) => w.(shared := sh.(file := sh.file + chunk), writer := Wrote)
    case Publish => w.(shared := sh.(bytesWritten := |sh.file|), writer := Owes(false))
    case Finish => w.(shared := sh.(finalSize := sh.bytesWritten), writer := Owes(true))
    case WriterFails => w.(shared := sh.(failed := true), writer := Owes(true))
    case WriterBroadcast =>
      w.(readers := Woken(w.readers), writer := if w.writer.last then Finished else Copying)
    case ChunkerFails => w.(shared := sh.(failed := true), chunkerOwes := true)
    case ChunkerBroadcast => w.(readers := Woken(w.readers), chunkerOwes := false)
    case Join(id) => w.(readers := w.readers[id := Reader(0, [], Running)])
    case Read(id, len) => w.(readers := w.readers[id := AfterRead(sh, w.readers[id], len)])
  }

  predicate ReaderInv(s: Shared, owed: bool, r: Reader) {
    && r.offset <= s.bytesWritten <= |s.file| && r.out == s.file[..r.offset]
    && (r.mode.AtEof? ==> s.finalSize != 0 && r.offset == s.finalSize)
    && (r.mode.Sleeping? && Pending(s, r.offset) ==> owed)
    && (r.mode.Stopped? ==> s.failed)
  }

  predicate Inv(w: World) {
    && Good(w.shared)
    && (w.writer.Copying? || w.writer == Owes(false) ==> w.shared.bytesWritten == |w.shared.file|)
    && (w.shared.finalSize != 0 ==> w.writer == Owes(true) || w.writer.Finished?)
    && ((w.writer == Owes(true) || w.writer.Finished?) && !w.shared.failed ==>
          w.shared.finalSize == w.shared.bytesWritten == |w.shared.file|)
    && (forall i :: i in w.readers ==> ReaderInv(w.shared, Owed(w), w.readers[i]))
  }

  lemma ReadKeepsReader(s: Shared, owed: bool, r: Reader, len: nat)
    requires ReaderInv(s, owed, r) && Good(s)
    ensures ReaderInv(s, owed, AfterRead(s, r, len))
  {}

  lemma StepKeepsInv(w: World, s: Step)
    requires Inv(w) && StepEnabled(w, s)
    ensures Inv(Next(w, s))
  {
    var w' := Next(w, s);
    match s {
      case Append(chunk) =>
        assert forall k: nat :: k <= |w.shared.file| ==> w'.shared.file[..k] == w.shared.file[..k];
      case Read(id, len) => ReadKeepsReader(w.shared, Owed(w), w.readers[id], len);
      case _ =>
    }
  }

  datatype Run = Start | Then(past: Run, step: Step)

  predicate Valid(run: Run)
    decreases run, 0
  {
    run.Then? ==> Valid(run.past) && StepEnabled(Last(run.past), run.step)
  }

  function Last(run: Run): World
    requires Valid(run)
    decreases run, 1
  {
    if run.Start? then EMPTY else Next(Last(run.past), run.step)
  }

  lemma {:induction false} RunKeepsInv(run: Run)
    requires Valid(run)
    ensures Inv(Last(run))
  {
    if run.Then? {
      RunKeepsInv(run.past);
      StepKeepsInv(Last(run.past), run.step);
    }
  }

  /** In every run, each reader has the file's bytes in order, none past bytesWritten; EOF comes after exactly finalSize. */
  lemma ReadersGetTheFile(run: Run, id: nat)
    requires Valid(run) && id in Last(run).readers
    ensures var w := Last(run);
      var r := w.readers[id];
      && r.offset <= w.shared.bytesWritten <= |w.shared.file| && r.out == w.shared.file[..r.offset]
      && (r.mode.AtEof? ==> 0 < r.offset == w.shared.finalSize && r.out == w.shared.file)
  {
    RunKeepsInv(run);
    var w := Last(run);
    assert ReaderInv(w.shared, Owed(w), w.readers[id]);
    assert w.shared.file[..|w.shared.file|] == w.shared.file;
  }

  /** No wake-up is lost: a reader sleeps on bytes, a final size or an error only while a broadcast is still to come. */
  lemma NoLostWakeUp(run: Run, id: nat)
    requires Valid(run) && id in Last(run).readers && Last(run).readers[id].mode.Sleeping?
    requires !Owed(Last(run))
    ensures !Pending(Last(run).shared, Last(run).readers[id].offset)
  {
    RunKeepsInv(run);
    var w := Last(run);
    assert ReaderInv(w.shared, Owed(w), w.readers[id]);
  }

  /**
   After a download that ended without an error and with every broadcast made, a reader that has read
   everything is told so exactly when the file is not empty: a final size of 0 also means "not finished".
   */
  lemma EndIsSeenIffNotEmpty(run: Run, id: nat, len: nat)
    requires Valid(run) && id in Last(run).readers && Ended(run)
    requires var w := Last(run); !w.shared.failed && w.readers[id].offset == |w.shared.file|
    ensures var w := Last(run);
      && (Decide(w.shared, w.readers[id].offset, len).Eof? <==> w.shared.file != [])
      && (Decide(w.shared, w.readers[id].offset, len).Sleep? <==> w.shared.file == [])
  {
    RunKeepsInv(run);
  }

  /**
   The call that finds the state like this returns as many bytes as there are and fit; it sleeps, fails or reports the
   end exactly when there is nothing to return.
   */
  lemma DecideIff(s: Shared, offset: nat, len: nat)
    requires Good(s) && offset <= s.bytesWritten
    ensures var v := Decide(s, offset, len);
      && (v.Error? <==> s.failed)
      && (v.Take? <==> !s.failed && offset < s.bytesWritten)
      && (v.Take? ==> v.n == if len <= s.bytesWritten - offset then len else s.bytesWritten - offset)
      && (v.Eof? <==> !s.failed && offset == s.bytesWritten && s.finalSize != 0)
      && (v.Sleep? <==> !s.failed && offset == s.bytesWritten && s.finalSize == 0)
  {}

  predicate Extends(more: Run, run: Run) { more == run || (more.Then? && Extends(more.past, run)) }

  /**
   After a download of a file that is not empty, ended without an error and with every broadcast made, every reader that
   calls with some buffer can go on to the end, and then has the whole file.
   */
  lemma {:induction false} ReaderCanFinish(run: Run, id: nat, len: nat) returns (more: Run)
    requires Valid(run) && id in Last(run).readers && Ended(run) && len > 0
    requires !Last(run).shared.failed && Last(run).shared.file != []
    ensures Valid(more) && Extends(more, run) && id in Last(more).readers
    ensures Last(more).readers[id].mode.AtEof? && Last(more).readers[id].out == Last(run).shared.file
    decreases |Last(run).shared.file| - Last(run).readers[id].offset, if Last(run).readers[id].mode.AtEof? then 0 else 1
  {
    RunKeepsInv(run);
    var w := Last(run);
    assert ReaderInv(w.shared, Owed(w), w.readers[id]);
    more := run;
    if w.readers[id].mode.AtEof? {
      ReadersGetTheFile(run, id);
    } else {
      var next := Run.Then(run, Step.Read(id, len));
      DecideIff(w.shared, w.readers[id].offset, len);
      ReadKeepsReader(w.shared, Owed(w), w.readers[id], len);
      more := ReaderCanFinish(next, id, len);
      ExtendsPast(more, next, run);
    }
  }

  lemma {:induction false} ExtendsPast(c: Run, b: Run, a: Run)
    requires Extends(c, b) && b.Then? && b.past == a
    ensures Extends(c, a)
  {
    if c != b {
      ExtendsPast(c.past, b, a);
    }
  }

  /** The downloader has finished, and nothing is still to be broadcast. */
  predicate Ended(run: Run)
    requires Valid(run)
  {
    Last(run).writer.Finished? && !Owed(Last(run))
  }
}
