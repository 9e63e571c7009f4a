/** When a reader fails, and that one whose NAR is chunked to its end need not. */
module ReaderOutcome {
  import opened Collections
  import opened Database
  import opened Repository
  import opened ChunkingProtocol
  import opened ChunkReader
  import opened Cluster
  import opened Scenarios

  // ---------------------------------------------------------------- what makes a reader fail

  /** No error has been met: none is in the channel or on its way there, and none was reported. */
  ghost predicate Untroubled(r: Reader) {
    && !r.status.Failed? && !r.pc.SendFault? && (r.pc.Stopped? ==> r.pc.why == StreamedAll)
    && forall i :: 0 <= i < |r.queue| ==> r.queue[i].Data?
  }

  /** The row says that nobody is chunking and nobody has. */
  ghost predicate Aborted(t: Tables, file: Id) {
    file !in t.narFiles || (t.narFiles[file].totalChunks == 0 && t.narFiles[file].chunkingStartedAt == None)
  }

  /** What makes a move the one that meets an error: what the tables and the chunk store say, or the move itself. */
  ghost predicate Causes(repo: Repo, r: Reader, m: Move) {
    match m
    case Produce(fetchOk, timedOut) => (
      match r.pc
      case QueryAll => |set s | s in repo.db.slots && s.file == r.file| != r.total
      case CheckTotal => r.total == 0 && Aborted(repo.db, r.file)
      case Recheck => Aborted(repo.db, r.file) || (timedOut && repo.db.narFiles[r.file].totalChunks == 0)
      case Feed(batch) => batch != [] && |r.queue| < 16 && (!fetchOk || batch[0] !in repo.chunkFiles)
      case _ => false)
    case StopOnCancel(_) => true
    case CopyFails(_) => true
    case Cancel => false
    case Consume => false
    case Finish => false
  }

  lemma ProduceTroublesIff(repo: Repo, r: Reader, fetchOk: bool, timedOut: bool)
    requires Untroubled(r)
    ensures Untroubled(Produced(repo, r, fetchOk, timedOut)) <==> !Causes(repo, r, Produce(fetchOk, timedOut))
  {
    match r.pc
    case QueryAll => QueryReturnsAllRows(repo.db, r.file);
    case Feed(_) => FeedTroublesIff(repo, r, fetchOk, timedOut);
    case SendFault =>
    case Stopped(_) =>
    case CheckTotal => TotalTroublesIff(repo, r, fetchOk, timedOut);
    case Recheck => TotalTroublesIff(repo, r, fetchOk, timedOut);
    case _ => PollTroublesNobody(repo, r, fetchOk, timedOut);
  }

  lemma FeedTroublesIff(repo: Repo, r: Reader, fetchOk: bool, timedOut: bool)
    requires Untroubled(r) && r.pc.Feed?
    ensures Untroubled(Produced(repo, r, fetchOk, timedOut)) <==> !Causes(repo, r, Produce(fetchOk, timedOut))
  {
    var r' := Produced(repo, r, fetchOk, timedOut);
    if r.pc.batch != [] && |r.queue| < CHANNEL_SIZE {
      assert r'.queue[|r.queue|].Data? <==> !Causes(repo, r, Produce(fetchOk, timedOut));
    }
  }

  lemma TotalTroublesIff(repo: Repo, r: Reader, fetchOk: bool, timedOut: bool)
    requires Untroubled(r) && (r.pc.CheckTotal? || r.pc.Recheck?)
    ensures Untroubled(Produced(repo, r, fetchOk, timedOut)) <==> !Causes(repo, r, Produce(fetchOk, timedOut))
  {}

  lemma PollTroublesNobody(repo: Repo, r: Reader, fetchOk: bool, timedOut: bool)
    requires Untroubled(r) && (r.pc.Poll? || r.pc.Wait?)
    ensures Untroubled(Produced(repo, r, fetchOk, timedOut))
  {}

  /** Exactly these moves bring trouble. */
  lemma MoveTroublesIff(env: Env, repo: Repo, r: Reader, m: Move)
    requires Untroubled(r) && MoveEnabled(env, r, m)
    ensures Untroubled(Moved(env, repo, r, m)) <==> !Causes(repo, r, m)
  {
    match m
    case Produce(fetchOk, timedOut) => ProduceTroublesIff(repo, r, fetchOk, timedOut);
    case _ =>
  }

  /** Trouble does not go away. */
  lemma TroubleStays(env: Env, repo: Repo, r: Reader, m: Move)
    requires !Untroubled(r) && MoveEnabled(env, r, m)
    ensures !Untroubled(Moved(env, repo, r, m))
  {
    if i :| 0 <= i < |r.queue| && !r.queue[i].Data? {
      ErrorStaysQueued(env, repo, r, m, i);
    } else if m.Produce? {
      ProduceKeepsErrors(repo, r, m.fetchOk, m.timedOut);
      if !r.status.Failed? {
        FaultStays(repo, r, m.fetchOk, m.timedOut);
      }
    }
  }

  lemma ErrorStaysQueued(env: Env, repo: Repo, r: Reader, m: Move, i: nat)
    requires i < |r.queue| && !r.queue[i].Data? && MoveEnabled(env, r, m)
    ensures !Untroubled(Moved(env, repo, r, m))
  {
    var r' := Moved(env, repo, r, m);
    if m.Consume? || m.CopyFails? {
      assert i > 0 ==> r'.queue[i - 1] == r.queue[i];
    } else if m.Produce? {
      ProduceKeepsErrors(repo, r, m.fetchOk, m.timedOut);
      assert r'.queue[i] == r.queue[i];
    } else {
      assert r'.queue[i] == r.queue[i];
    }
  }

  ghost predicate KeepsErrors(r: Reader, r': Reader) { r.queue <= r'.queue && (r.status.Failed? ==> r'.status.Failed?) }

  lemma ProduceKeepsErrors(repo: Repo, r: Reader, fetchOk: bool, timedOut: bool)
    ensures KeepsErrors(r, Produced(repo, r, fetchOk, timedOut))
  {
    match r.pc
    case Poll => QueriedSo(repo, r, fetchOk, timedOut);
    case Wait => QueriedSo(repo, r, fetchOk, timedOut);
    case Feed(_) => FeedKeepsErrors(repo, r, fetchOk, timedOut);
    case CheckTotal => CheckKeepsErrors(repo, r, fetchOk, timedOut);
    case Recheck => CheckKeepsErrors(repo, r, fetchOk, timedOut);
    case _ => OthersKeepErrors(repo, r, fetchOk, timedOut);
  }

  lemma FeedKeepsErrors(repo: Repo, r: Reader, fetchOk: bool, timedOut: bool)
    requires r.pc.Feed?
    ensures KeepsErrors(r, Produced(repo, r, fetchOk, timedOut))
  {}

  lemma CheckKeepsErrors(repo: Repo, r: Reader, fetchOk: bool, timedOut: bool)
    requires r.pc.CheckTotal? || r.pc.Recheck?
    ensures KeepsErrors(r, Produced(repo, r, fetchOk, timedOut))
  {}

  lemma OthersKeepErrors(repo: Repo, r: Reader, fetchOk: bool, timedOut: bool)
    requires r.pc.QueryAll? || r.pc.SendFault? || r.pc.Stopped?
    ensures KeepsErrors(r, Produced(repo, r, fetchOk, timedOut))
  {}

  lemma FaultStays(repo: Repo, r: Reader, fetchOk: bool, timedOut: bool)
    requires r.pc.SendFault? || (r.pc.Stopped? && r.pc.why != StreamedAll)
    ensures var r' := Produced(repo, r, fetchOk, timedOut);
      r'.pc.SendFault? || (r'.pc.Stopped? && r'.pc.why != StreamedAll)
  {}

  /** A query that finds rows feeds them, at most so many at a time; otherwise the nar_file is looked at. */
  lemma QueriedSo(repo: Repo, r: Reader, fetchOk: bool, timedOut: bool)
    requires r.pc.Poll? || r.pc.Wait?
    ensures var rows := ChunksFrom(repo.db, r.file, r.index);
      && (Limited(rows) != [] <==> rows != [])
      && Produced(repo, r, fetchOk, timedOut) ==
           r.(pc := if rows != [] then Feed(Limited(rows)) else if r.pc.Poll? then CheckTotal else Recheck)
  {}

  /** Some move of the reader was made in a state that made it fail. */
  ghost predicate WasCaused(env: Env, run: Run, id: nat)
    requires Valid(env, run)
  {
    && run.Then? && id in Last(env, run.past).readers
    && (|| WasCaused(env, run.past, id)
        || (run.step.Front? && run.step.id == id
            && Causes(Last(env, run.past).shared.repo, Last(env, run.past).readers[id], run.step.move)))
  }

  /**
   In every run, careful or not, a reader is in trouble if and only if one of its moves found the cause of it: a row that
   is gone, or has neither a total nor a lock, or on the complete path another number of rows than recorded; a time-out;
   a chunk that could not be fetched or copied; or a cancellation.
   */
  lemma {:induction false} TroubledIff(env: Env, run: Run, id: nat)
    requires Valid(env, run) && id in Last(env, run).readers
    ensures Untroubled(Last(env, run).readers[id]) <==> !WasCaused(env, run, id)
  {
    if id in Last(env, run.past).readers {
      TroubledIff(env, run.past, id);
      if run.step.Front? && run.step.id == id {
        StepTroublesIff(env, Last(env, run.past).shared.repo, Last(env, run.past).readers[id], run.step.move);
      }
    }
  }

  lemma StepTroublesIff(env: Env, repo: Repo, r: Reader, m: Move)
    requires MoveEnabled(env, r, m)
    ensures Untroubled(Moved(env, repo, r, m)) <==> Untroubled(r) && !Causes(repo, r, m)
  {
    if Untroubled(r) {
      MoveTroublesIff(env, repo, r, m);
    } else {
      TroubleStays(env, repo, r, m);
    }
  }

  /** So a reader that reports failure, or has a fault in its channel, had cause to. */
  lemma FailureHasCause(env: Env, run: Run, id: nat)
    requires Valid(env, run) && id in Last(env, run).readers
    requires var r := Last(env, run).readers[id]; r.status.Failed? || Fault in r.queue
    ensures WasCaused(env, run, id)
  {
    TroubledIff(env, run, id);
  }

  // ---------------------------------------------------------------- a reader of a complete NAR can finish

  /** Nothing keeps the reader from the whole NAR: it met no error, and the total it knows, if any, is right. */
  ghost predicate OnCourse(env: Env, repo: Repo, r: Reader) {
    && ReaderInv(env, r) && Untroubled(r) && r.status.Reading?
    && HasItsChunks(env, repo, r.file) && repo.db.narFiles[r.file].totalChunks == |env.nar(r.file)|
    && RowsArePrefix(repo.db, r.file, env.nar(r.file))
    && (r.total == 0 || r.total == |env.nar(r.file)|)
    && (r.pc.QueryAll? ==> r.total > 0)
  }

  /** How far the goroutine is from its next chunk, or from its end if it has sent them all. */
  ghost function Distance(length: nat, r: Reader): nat {
    match r.pc
    case Feed(batch) => if batch != [] then 0 else 3
    case Poll => if r.index < length then 1 else 2
    case Wait => if r.index < length then 1 else 2
    case CheckTotal => if r.index < length then 2 else 1
    case Recheck => if r.index < length then 2 else 1
    case QueryAll => 1
    case SendFault => 0
    case Stopped(_) => 0
  }

  /** The next move: empty the channel, then produce. */
  function NextMove(r: Reader): Move {
    if r.queue != [] then Consume else if r.pc.Stopped? then Finish else Produce(true, false)
  }

  ghost predicate Closer(length: nat, r: Reader, r': Reader) {
    || r'.index > r.index
    || (r'.index == r.index && Distance(length, r') < Distance(length, r))
    || (r'.index == r.index && Distance(length, r') == Distance(length, r) && |r'.queue| < |r.queue|)
  }

  lemma QueryFinds(env: Env, repo: Repo, r: Reader)
    requires OnCourse(env, repo, r)
    ensures ChunksFrom(repo.db, r.file, r.index) != [] <==> r.index < |env.nar(r.file)|
    ensures |ChunksFrom(repo.db, r.file, 0)| == |env.nar(r.file)|
  {
    var list := env.nar(r.file);
    QueryReturnsSegment(repo.db, r.file, list, r.index);
    QueryReturnsSegment(repo.db, r.file, list, 0);
    assert Slot(r.file, |list| - 1) in repo.db.slots;
    if r.index < |list| {
      assert Slot(r.file, r.index) in repo.db.slots;
    }
  }

  lemma ProducingStaysOnCourse(env: Env, repo: Repo, r: Reader)
    requires OnCourse(env, repo, r) && RowsInv(env, repo.db) && |ChunksFrom(repo.db, r.file, 0)| == |env.nar(r.file)|
    ensures OnCourse(env, repo, Produced(repo, r, true, false))
  {
    ProduceKeepsInv(env, repo, r, true, false);
    QueryReturnsAllRows(repo.db, r.file);
    NoCauseAhead(env, repo, r);
    ProduceTroublesIff(repo, r, true, false);
    TotalIsOfRow(repo, r);
  }

  ghost predicate KeepsTotal(r: Reader, r': Reader, recorded: nat) {
    r'.file == r.file && !r'.status.Finished? && !r'.pc.QueryAll? && (r'.total == r.total || r'.total == recorded)
  }

  lemma TotalIsOfRow(repo: Repo, r: Reader)
    requires r.status.Reading? && r.file in repo.db.narFiles
    ensures KeepsTotal(r, Produced(repo, r, true, false), repo.db.narFiles[r.file].totalChunks)
  {
    match r.pc
    case Poll => QueriedSo(repo, r, true, false);
    case Wait => QueriedSo(repo, r, true, false);
    case Feed(_) => FeedKeepsTotal(repo, r);
    case CheckTotal => CheckKeepsTotal(repo, r);
    case Recheck => CheckKeepsTotal(repo, r);
    case _ => OthersKeepTotal(repo, r);
  }

  lemma FeedKeepsTotal(repo: Repo, r: Reader)
    requires r.status.Reading? && r.pc.Feed?
    ensures KeepsTotal(r, Produced(repo, r, true, false), r.total)
  {}

  lemma CheckKeepsTotal(repo: Repo, r: Reader)
    requires r.status.Reading? && (r.pc.CheckTotal? || r.pc.Recheck?) && r.file in repo.db.narFiles
    ensures KeepsTotal(r, Produced(repo, r, true, false), repo.db.narFiles[r.file].totalChunks)
  {}

  lemma OthersKeepTotal(repo: Repo, r: Reader)
    requires r.status.Reading? && (r.pc.QueryAll? || r.pc.SendFault? || r.pc.Stopped?)
    ensures KeepsTotal(r, Produced(repo, r, true, false), r.total)
  {}

  lemma NoCauseAhead(env: Env, repo: Repo, r: Reader)
    requires OnCourse(env, repo, r) && |SlotsOf(repo.db, r.file)| == |env.nar(r.file)|
    ensures !Causes(repo, r, Produce(true, false))
  {
    if r.pc.Feed? && r.pc.batch != [] {
      assert r.pc.batch[0] == env.nar(r.file)[r.index];
    } else if r.pc.QueryAll? {
      assert SlotsOf(repo.db, r.file) == set s | s in repo.db.slots && s.file == r.file;
    }
  }

  /** What the next query, total and fetch say decides how much closer the goroutine gets. */
  lemma ProducingGetsCloser(repo: Repo, r: Reader, length: nat)
    requires !r.pc.Stopped? && !r.pc.SendFault? && r.queue == [] && r.index <= length
    requires r.file in repo.db.narFiles && repo.db.narFiles[r.file].totalChunks == length > 0
    requires r.total == 0 || r.total == length
    requires ChunksFrom(repo.db, r.file, r.index) != [] <==> r.index < length
    requires r.pc.QueryAll? ==> r.index == 0 && |ChunksFrom(repo.db, r.file, 0)| == r.total
    ensures Closer(length, r, Produced(repo, r, true, false))
  {
    match r.pc
    case Feed(_) => FeedingGetsCloser(repo, r, length);
    case CheckTotal => TotalGetsCloser(repo, r, length);
    case Recheck => TotalGetsCloser(repo, r, length);
    case _ => QueryGetsCloser(repo, r, length);
  }

  lemma FeedingGetsCloser(repo: Repo, r: Reader, length: nat)
    requires r.pc.Feed? && r.queue == [] && r.index <= length && (r.total == 0 || r.total == length)
    ensures Closer(length, r, Produced(repo, r, true, false))
  {}

  lemma TotalGetsCloser(repo: Repo, r: Reader, length: nat)
    requires (r.pc.CheckTotal? || r.pc.Recheck?) && r.index <= length && (r.total == 0 || r.total == length)
    requires r.file in repo.db.narFiles && repo.db.narFiles[r.file].totalChunks == length > 0
    ensures Closer(length, r, Produced(repo, r, true, false))
  {}

  lemma QueryGetsCloser(repo: Repo, r: Reader, length: nat)
    requires (r.pc.QueryAll? || r.pc.Poll? || r.pc.Wait?) && r.index <= length && 0 < length
    requires ChunksFrom(repo.db, r.file, r.index) != [] <==> r.index < length
    requires r.pc.QueryAll? ==> r.index == 0 && |ChunksFrom(repo.db, r.file, 0)| == r.total
    ensures Closer(length, r, Produced(repo, r, true, false))
  {
    var rows := ChunksFrom(repo.db, r.file, r.index);
    if r.pc.QueryAll? {
      FoundIsCloser(r, rows, length);
    } else {
      QueriedSo(repo, r, true, false);
      FoundIsCloser(r, Limited(rows), length);
    }
  }

  lemma FoundIsCloser(r: Reader, rows: seq<Hash>, length: nat)
    requires r.pc.QueryAll? || r.pc.Poll? || r.pc.Wait?
    ensures rows != [] ==> Closer(length, r, r.(pc := Feed(rows)))
    ensures r.index == length && r.pc.Poll? ==> Closer(length, r, r.(pc := CheckTotal))
    ensures r.index == length && r.pc.Wait? ==> Closer(length, r, r.(pc := Recheck))
  {}

  lemma MovingGetsCloser(env: Env, repo: Repo, r: Reader)
    requires OnCourse(env, repo, r) && RowsInv(env, repo.db) && NextMove(r) != Finish
    ensures MoveEnabled(env, r, NextMove(r))
    ensures var r' := Moved(env, repo, r, NextMove(r));
      OnCourse(env, repo, r') && Closer(|env.nar(r.file)|, r, r')
  {
    if r.queue == [] {
      QueryFinds(env, repo, r);
      ProducingStaysOnCourse(env, repo, r);
      ProducingGetsCloser(repo, r, |env.nar(r.file)|);
    } else {
      ConsumeKeepsInv(env, repo, r);
    }
  }

  lemma FinishingIsWhole(env: Env, repo: Repo, r: Reader)
    requires OnCourse(env, repo, r) && NextMove(r) == Finish
    ensures MoveEnabled(env, r, Finish) && r.out == Flatten(env, env.nar(r.file))
  {
    var list := env.nar(r.file);
    assert list[..|list|] == list;
  }

  /** One more move of a reader. */
  lemma Front1(env: Env, run: Run, id: nat, m: Move) returns (more: Run)
    requires Careful(env, run) && id in Last(env, run).readers && MoveEnabled(env, Last(env, run).readers[id], m)
    ensures Careful(env, more) && (forall r :: Extends(run, r) ==> Extends(more, r))
    ensures var w := Last(env, run);
      Last(env, more) == w.(readers := w.readers[id := Moved(env, w.shared.repo, w.readers[id], m)])
  {
    more := Run.Then(run, Front(id, m));
  }

  /** The same shared state, and this reader done with the whole NAR. */
  ghost predicate GotTheNar(env: Env, before: World, after: World, id: nat) {
    && after.shared == before.shared && id in before.readers && id in after.readers
    && after.readers[id].status.Finished? && after.readers[id].file == before.readers[id].file
    && after.readers[id].out == Flatten(env, env.nar(before.readers[id].file))
  }

  /** How many chunks are still to be sent. */
  ghost function Missing(env: Env, r: Reader): nat { if r.index < |env.nar(r.file)| then |env.nar(r.file)| - r.index else 0 }

  lemma {:induction false} OnCourseCanFinish(env: Env, run: Run, id: nat) returns (more: Run)
    requires NoEmptyChunks(env) && Careful(env, run) && id in Last(env, run).readers
    requires OnCourse(env, Last(env, run).shared.repo, Last(env, run).readers[id])
    ensures Careful(env, more) && (forall r :: Extends(run, r) ==> Extends(more, r))
    ensures GotTheNar(env, Last(env, run), Last(env, more), id)
    decreases Missing(env, Last(env, run).readers[id])
    decreases Distance(|env.nar(Last(env, run).readers[id].file)|, Last(env, run).readers[id])
    decreases |Last(env, run).readers[id].queue|
  {
    var repo, r := Last(env, run).shared.repo, Last(env, run).readers[id];
    RunKeepsInv(env, run);
    if NextMove(r) == Finish {
      FinishingIsWhole(env, repo, r);
      more := Front1(env, run, id, Finish);
    } else {
      MovingGetsCloser(env, repo, r);
      var next := Front1(env, run, id, NextMove(r));
      MovesKeepFile(env, repo, r, NextMove(r));
      more := OnCourseCanFinish(env, next, id);
    }
  }

  lemma MovesKeepFile(env: Env, repo: Repo, r: Reader, m: Move)
    requires MoveEnabled(env, r, m)
    ensures Moved(env, repo, r, m).file == r.file
  {}

  /**
   In every careful run: a reader that has met no error, of a NAR that is complete by now, can still finish with the
   whole NAR, wherever it has come to and whatever path it was opened on. Nothing leaves it waiting for ever.
   */
  lemma ReaderCanFinish(env: Env, run: Run, id: nat) returns (more: Run)
    requires NoEmptyChunks(env) && Careful(env, run) && id in Last(env, run).readers
    requires var r, t := Last(env, run).readers[id], Last(env, run).shared.repo.db;
      && Untroubled(r) && r.status.Reading? && r.file in t.narFiles
      && t.narFiles[r.file].totalChunks == |env.nar(r.file)| > 0 && (r.total == 0 || r.total == |env.nar(r.file)|)
    ensures Careful(env, more) && Extends(more, run) && GotTheNar(env, Last(env, run), Last(env, more), id)
  {
    var w := Last(env, run);
    var r := w.readers[id];
    RunKeepsInv(env, run);
    RunKeepsComplete(env, run, id);
    CompleteHasItsChunks(env, w.shared, r.file);
    assert RowsArePrefix(w.shared.repo.db, r.file, env.nar(r.file));
    more := OnCourseCanFinish(env, run, id);
    assert Extends(run, run);
  }

  // ---------------------------------------------------------------- an attempt can complete

  /** An attempt at the whole NAR, past its cleanup, with no deleting pass under way. */
  ghost predicate Unhindered(env: Env, w: Shared, file: Id) {
    && file in w.attempts && file in w.repo.db.narFiles && w.passes == map[]
    && var at := w.attempts[file];
       && at.stale == {} && at.committed <= at.received <= at.len == |env.nar(file)| && 0 < at.len
       && at.received < at.committed + 100
       && (at.declared == 0 || at.declared == Size(env, env.nar(file)))
  }

  function NextWrite(at: Attempt): WriterStep {
    if at.committed < at.received then Commit else if at.received < at.len then Put else Complete
  }

  ghost function StepsLeft(at: Attempt): nat
    requires at.committed <= at.received <= at.len
  {
    2 * (at.len - at.committed) + (if at.committed < at.received then 0 else 1)
  }

  lemma WritesOn(env: Env, w: Shared, file: Id)
    requires Unhindered(env, w, file)
    ensures var step := NextWrite(w.attempts[file]);
      && Enabled(env, w, Write(file, step)) && Undisturbed(env, w, Write(file, step))
      && var w' := Apply(env, w, Write(file, step));
         && file in w'.repo.db.narFiles && w'.passes == map[]
         && (step.Complete? ==> w'.repo.db.narFiles[file].totalChunks == |env.nar(file)|)
         && (!step.Complete? ==> Unhindered(env, w', file))
  {
    assert env.nar(file)[..|env.nar(file)|] == env.nar(file);
  }

  lemma {:induction false} AttemptCanComplete(env: Env, run: Run, file: Id) returns (more: Run)
    requires Careful(env, run) && Unhindered(env, Last(env, run).shared, file)
    ensures Careful(env, more) && (forall r :: Extends(run, r) ==> Extends(more, r))
    ensures Last(env, more).readers == Last(env, run).readers
    ensures var t := Last(env, more).shared.repo.db;
      file in t.narFiles && t.narFiles[file].totalChunks == |env.nar(file)|
    decreases StepsLeft(Last(env, run).shared.attempts[file])
  {
    var w := Last(env, run).shared;
    WritesOn(env, w, file);
    more := Proceed(env, run, Write(file, NextWrite(w.attempts[file])));
    if !NextWrite(w.attempts[file]).Complete? {
      more := AttemptCanComplete(env, more, file);
    }
  }

  // ---------------------------------------------------------------- a reader that comes before the first chunk

  lemma OpenNew(env: Env, run: Run, id: nat, file: Id) returns (more: Run)
    requires Careful(env, run) && id !in Last(env, run).readers && file in Last(env, run).shared.repo.db.narFiles
    ensures Careful(env, more) && (forall r :: Extends(run, r) ==> Extends(more, r))
    ensures var w := Last(env, run);
      Last(env, more) == w.(readers := w.readers[id := Open(w.shared.repo.db, file)])
  {
    more := Run.Then(run, OpenReader(id, file));
  }

  lemma NoRowsFound(t: Tables, file: Id)
    requires forall s :: s in t.slots ==> s.file != file
    ensures ChunksFrom(t, file, 0) == []
  {
    assert ChunkIndices(t, file, 0) == {};
  }

  /** The reader found no row, looked at the total, and waits. */
  function Waiting(file: Id): Reader { Reader(file, Wait, 0, 0, [], false, 0, [], Reading, false) }

  lemma WaitsForFirstRow(repo: Repo, file: Id)
    requires file in repo.db.narFiles && (forall s :: s in repo.db.slots ==> s.file != file)
    requires repo.db.narFiles[file].totalChunks == 0 && repo.db.narFiles[file].chunkingStartedAt.Some?
    ensures var r := Produced(repo, Open(repo.db, file), true, false);
      Produced(repo, r, true, false) == Waiting(file)
  {
    NoRowsFound(repo.db, file);
  }

  /** On a new nar_file that was just locked, a reader finds no row and waits. */
  lemma ReaderWaits(env: Env, run: Run, file: Id, id: nat) returns (more: Run)
    requires Careful(env, run) && id !in Last(env, run).readers
    requires var t := Last(env, run).shared.repo.db;
      && file in t.narFiles && (forall s :: s in t.slots ==> s.file != file)
      && t.narFiles[file].totalChunks == 0 && t.narFiles[file].chunkingStartedAt.Some?
    ensures Careful(env, more) && (forall r :: Extends(run, r) ==> Extends(more, r))
    ensures Last(env, more) == Last(env, run).(readers := Last(env, run).readers[id := Waiting(file)])
  {
    var w := Last(env, run);
    WaitsForFirstRow(w.shared.repo, file);
    more := OpenNew(env, run, id, file);
    more := Front1(env, more, id, Produce(true, false));
    more := Front1(env, more, id, Produce(true, false));
  }

  /** In any careful run: a waiting reader of an attempt that nothing hinders can still get the whole NAR. */
  lemma WaitingReaderCanFinish(env: Env, run: Run, file: Id, id: nat) returns (more: Run)
    requires NoEmptyChunks(env) && Careful(env, run) && Unhindered(env, Last(env, run).shared, file)
    requires id in Last(env, run).readers && Last(env, run).readers[id] == Waiting(file)
    ensures Careful(env, more) && Extends(more, run) && id in Last(env, more).readers
    ensures var r := Last(env, more).readers[id];
      r.file == file && r.status.Finished? && r.out == Flatten(env, env.nar(file))
  {
    var complete := AttemptCanComplete(env, run, file);
    more := ReaderCanFinish(env, complete, id);
    assert Extends(run, run);
    ExtendsFurther(more, complete, run);
  }

  lemma {:induction false} ExtendsFurther(c: Run, b: Run, a: Run)
    requires Extends(c, b) && Extends(b, a)
    ensures Extends(c, a)
  {
    if c != b {
      ExtendsFurther(c.past, b, a);
    }
  }

  lemma LockFirst(env: Env, key: NarKey) returns (run: Run)
    requires NoEmptyChunks(env) && env.nar(0) != []
    ensures Careful(env, run) && Last(env, run).readers == map[] && Unhindered(env, Last(env, run).shared, 0)
    ensures var t := Last(env, run).shared.repo.db;
      && t.slots == map[] && 0 in t.narFiles
      && t.narFiles[0].totalChunks == 0 && t.narFiles[0].chunkingStartedAt.Some?
  {
    DeclaredSizeRulesOutTruncation(env, 0, 0);
    run := Lock(env, Start, key, Size(env, env.nar(0)), |env.nar(0)|, 0);
  }

  /** Nothing was recorded when the reader began to wait, and in the end it has the whole NAR. */
  ghost predicate CameEarly(env: Env, waiting: Run, finished: Run, id: nat) {
    && Careful(env, waiting) && Careful(env, finished) && Extends(finished, waiting)
    && Last(env, waiting).shared.repo.db.slots == map[] && Last(env, waiting).readers == map[id := Waiting(0)]
    && id in Last(env, finished).readers
    && var r := Last(env, finished).readers[id];
       r.file == 0 && r.status.Finished? && r.out == Flatten(env, env.nar(0))
  }

  /**
   From the empty installation, for every NAR: an instance takes the lock; a reader comes before any chunk is there, finds
   no row and waits; the chunks are stored and recorded one by one; and the reader finishes with the whole NAR.
   */
  lemma EarlyReaderGetsTheNar(env: Env, key: NarKey, id: nat) returns (waiting: Run, finished: Run)
    requires NoEmptyChunks(env) && env.nar(0) != []
    ensures CameEarly(env, waiting, finished, id)
  {
    waiting := LockFirst(env, key);
    waiting := ReaderWaits(env, waiting, 0, id);
    finished := WaitingReaderCanFinish(env, waiting, 0, id);
  }
}
