/**
 One NAR download: the goroutines of pullNarIntoStore (downloader, chunker, cleaner), the readers that
 GetNar admits, and the three wait groups that decide when the shared temp file may be removed.
 */
module DownloadJob {
  /** `keep`: the chunking goroutine takes over the job's cleanup. */
  datatype Downloader =
    | Spawned
    | Fetching
    | Creating
    | Streaming(early: bool)
    | Storing
    | Leaving(keep: bool)
    | RemovingKey
    | ClosingStart(keep: bool)
    | ClosingDone
    | Releasing
    | Ended

  datatype Chunker = Absent | Chunking | HoldsCdc | RemovingJob | ClosingJob | Over

  datatype Cleaner = NotStarted | AwaitDownload | AwaitChunker | Closing | AwaitReaders | Deleting | Gone

  datatype TempFile = NotCreated | Present | Removed

  datatype Job = Job(
    downloader: Downloader, chunker: Chunker, cleaner: Cleaner,
    cleanupWg: int, cdcWg: int, wg: int,
    readers: set<nat>, abandoned: nat,
    closed: bool, file: TempFile,
    start: bool, stored: bool, done: bool,
    keyed: bool, closings: nat)

  /** newDownloadState, just entered in the job map. */
  const NEW_JOB: Job :=
    Job(Spawned, Absent, NotStarted, 0, 0, 0, {}, 0, false, NotCreated, false, false, false, true, 0)

  datatype Move =
    // downloader
    | Begin
    | FetchFails
    | FetchOk
    | CreateFails
    | CreateOk(early: bool)
    | StreamEnds(ok: bool, cdc: bool)
    | StoreEnds(ok: bool)
    | Leave
    | RemoveKey
    | CloseStart
    | CloseDone
    | Release
    // chunker
    | NarFileReady
    | ChunkerReturns
    | ChunkerReleases
    | ChunkerRemovesKey
    | ChunkerClosesDone
    // cleaner
    | DownloadOver
    | ChunkerOver
    | Close
    | ReadersOver
    | Delete
    // readers
    | Admit(reader: nat)
    | ReaderDone(reader: nat)
    | ReaderGivesUp(reader: nat)

  predicate CanMove(j: Job, m: Move) {
    match m
    case Begin => j.downloader.Spawned?
    case FetchFails => j.downloader.Fetching?
    case FetchOk => j.downloader.Fetching?
    case CreateFails => j.downloader.Creating?
    case CreateOk(_) => j.downloader.Creating?
    case StreamEnds(_, _) => j.downloader.Streaming?
    case StoreEnds(_) => j.downloader.Storing?
    case Leave => j.downloader.Leaving?
    case RemoveKey => j.downloader.RemovingKey?
    case CloseStart => j.downloader.ClosingStart?
    case CloseDone => j.downloader.ClosingDone?
    case Release => j.downloader.Releasing?
    case NarFileReady => j.chunker.Chunking?
    case ChunkerReturns => j.chunker.Chunking?
    case ChunkerReleases => j.chunker.HoldsCdc?
    case ChunkerRemovesKey => j.chunker.RemovingJob?
    case ChunkerClosesDone => j.chunker.ClosingJob?
    case DownloadOver => j.cleaner.AwaitDownload? && j.cleanupWg == 0
    case ChunkerOver => j.cleaner.AwaitChunker? && j.cdcWg == 0
    case Close => j.cleaner.Closing?
    case ReadersOver => j.cleaner.AwaitReaders? && j.wg == 0
    case Delete => j.cleaner.Deleting?
    case Admit(r) => !j.closed && r !in j.readers
    case ReaderDone(r) => r in j.readers
    case ReaderGivesUp(r) => r in j.readers
  }

  /** startOnce.Do(close): `closings` counts how often the channel is really closed. */
  function CloseStartOnce(j: Job): Job {
    if j.start then j else j.(start := true, closings := j.closings + 1)
  }

  /** cdcWg.Add(1), wg.Add(1) and the go statement. */
  function SpawnChunker(j: Job): Job { j.(cdcWg := j.cdcWg + 1, wg := j.wg + 1, chunker := Chunking) }

  predicate ReaderMove(m: Move) { m.Admit? || m.ReaderDone? || m.ReaderGivesUp? }

  predicate CleanerMove(m: Move) { m.DownloadOver? || m.ChunkerOver? || m.Close? || m.ReadersOver? || m.Delete? }

  predicate ChunkerMove(m: Move) {
    m.NarFileReady? || m.ChunkerReturns? || m.ChunkerReleases? || m.ChunkerRemovesKey? || m.ChunkerClosesDone?
  }

  predicate DownloaderMove(m: Move) { !ReaderMove(m) && !CleanerMove(m) && !ChunkerMove(m) }

  function DownloaderMoved(j: Job, m: Move): Job
    requires CanMove(j, m) && DownloaderMove(m)
  {
    match m
    case Begin => j.(cleanupWg := j.cleanupWg + 1, downloader := Fetching)
    case FetchFails => j.(downloader := Leaving(false))
    case FetchOk => j.(cleaner := AwaitDownload, downloader := Creating)
    case CreateFails => j.(downloader := Leaving(false))
    case CreateOk(early) =>
      var j1 := CloseStartOnce(j).(file := Present, downloader := Streaming(early));
      if early then SpawnChunker(j1) else j1
    case StreamEnds(ok, cdc) =>
      if j.downloader.early then j.(downloader := Leaving(true))
      else if !ok then j.(downloader := Leaving(false))
      else if cdc then SpawnChunker(j).(downloader := Leaving(true))
      else j.(downloader := Storing)
    case StoreEnds(ok) => j.(stored := j.stored || ok, downloader := Leaving(false))
    case Leave => j.(downloader := if j.downloader.keep then ClosingStart(true) else RemovingKey)
    case RemoveKey => j.(keyed := false, downloader := ClosingStart(false))
    case CloseStart => CloseStartOnce(j).(downloader := if j.downloader.keep then Releasing else ClosingDone)
    case CloseDone => j.(done := true, downloader := Releasing)
    case Release => j.(cleanupWg := j.cleanupWg - 1, downloader := Ended)
  }

  function ChunkerMoved(j: Job, m: Move): Job
    requires CanMove(j, m) && ChunkerMove(m)
  {
    match m
    case NarFileReady => j.(stored := true)
    case ChunkerReturns => j.(wg := j.wg - 1, chunker := HoldsCdc)
    case ChunkerReleases => j.(cdcWg := j.cdcWg - 1, chunker := RemovingJob)
    case ChunkerRemovesKey => j.(keyed := false, chunker := ClosingJob)
    case ChunkerClosesDone => j.(done := true, chunker := Over)
  }

  function CleanerMoved(j: Job, m: Move): Job
    requires CanMove(j, m) && CleanerMove(m)
  {
    match m
    case DownloadOver => j.(cleaner := AwaitChunker)
    case ChunkerOver => j.(cleaner := Closing)
    case Close => j.(closed := true, cleaner := AwaitReaders)
    case ReadersOver => j.(cleaner := Deleting)
    case Delete => j.(cleaner := Gone, file := if j.file.Present? then Removed else j.file)
  }

  function ReaderMoved(j: Job, m: Move): Job
    requires CanMove(j, m) && ReaderMove(m)
  {
    match m
    case Admit(r) => j.(readers := j.readers + {r}, wg := j.wg + 1)
    case ReaderDone(r) => j.(readers := j.readers - {r}, wg := j.wg - 1)
    case ReaderGivesUp(r) => j.(readers := j.readers - {r}, abandoned := j.abandoned + 1)
  }

  function Moved(j: Job, m: Move): Job
    requires CanMove(j, m)
  {
    if ReaderMove(m) then ReaderMoved(j, m)
    else if CleanerMove(m) then CleanerMoved(j, m)
    else if ChunkerMove(m) then ChunkerMoved(j, m)
    else DownloaderMoved(j, m)
  }

  // ---------------------------------------------------------------- invariant

  function One(b: bool): int { if b then 1 else 0 }

  predicate Downloading(j: Job) { !j.downloader.Spawned? && !j.downloader.Ended? }

  predicate ChunkerHoldsCdc(j: Job) { j.chunker.Chunking? || j.chunker.HoldsCdc? }

  /** Each wait group counts exactly the activities it stands for. */
  ghost predicate CountsInv(j: Job) {
    && j.cleanupWg == One(Downloading(j))
    && j.cdcWg == One(ChunkerHoldsCdc(j))
    && j.wg == |j.readers| + j.abandoned + One(j.chunker.Chunking?)
  }

  /** How far the cleaner is tells what is over. */
  ghost predicate CleanerInv(j: Job) {
    && (j.cleaner.NotStarted? ==>
          && j.file.NotCreated? && j.chunker.Absent?
          && !j.downloader.Creating? && !j.downloader.Streaming? && !j.downloader.Storing?)
    && (!j.cleaner.NotStarted? ==> !j.downloader.Spawned? && !j.downloader.Fetching?)
    && (!j.cleaner.NotStarted? && !j.cleaner.AwaitDownload? ==> j.downloader.Ended?)
    && (!j.cleaner.NotStarted? && !j.cleaner.AwaitDownload? && !j.cleaner.AwaitChunker? ==> !ChunkerHoldsCdc(j))
    && (j.closed <==> j.cleaner.AwaitReaders? || j.cleaner.Deleting? || j.cleaner.Gone?)
    && (j.cleaner.Deleting? || j.cleaner.Gone? ==> j.readers == {} && j.abandoned == 0)
    && (j.file.Removed? ==> j.cleaner.Gone?) && (j.cleaner.Gone? ==> !j.file.Present?)
  }

  /** The job is leaving, or has left, by the path on which the chunker cleans up. */
  predicate Kept(j: Job) {
    j.downloader == Leaving(true) || j.downloader == ClosingStart(true) || j.downloader == Streaming(true)
  }

  /** Who still has to remove the key and close the channels. */
  ghost predicate ExitInv(j: Job) {
    && (Kept(j) ==> !j.chunker.Absent?)
    && (!j.chunker.Absent? ==> Kept(j) || j.downloader.Releasing? || j.downloader.Ended?)
    && (j.chunker.Absent? ==>
          && (j.keyed <==> !(j.downloader.ClosingStart? || j.downloader.ClosingDone? || j.downloader.Releasing? || j.downloader.Ended?))
          && (j.done <==> j.downloader.Releasing? || j.downloader.Ended?))
    && (!j.chunker.Absent? ==>
          && (j.keyed <==> !(j.chunker.ClosingJob? || j.chunker.Over?))
          && (j.done <==> j.chunker.Over?))
    && (j.downloader.ClosingDone? || j.downloader.Releasing? || j.downloader.Ended? ==> j.start)
    && j.closings == if j.start then 1 else 0
  }

  ghost predicate JobInv(j: Job) { CountsInv(j) && CleanerInv(j) && ExitInv(j) }

  lemma NewJobIsGood()
    ensures JobInv(NEW_JOB)
  {}

  lemma ReaderMoveKeepsInv(j: Job, m: Move)
    requires JobInv(j) && CanMove(j, m) && ReaderMove(m)
    ensures JobInv(Moved(j, m))
  {
    var k := Moved(j, m);
    if m.Admit? {
      assert |k.readers| == |j.readers| + 1;
    } else {
      assert |k.readers| == |j.readers| - 1;
    }
  }

  lemma CleanerMoveKeepsInv(j: Job, m: Move)
    requires JobInv(j) && CanMove(j, m) && CleanerMove(m)
    ensures JobInv(Moved(j, m))
  {}

  lemma ChunkerMoveKeepsInv(j: Job, m: Move)
    requires JobInv(j) && CanMove(j, m) && ChunkerMove(m)
    ensures JobInv(Moved(j, m))
  {}

  lemma DownloaderMoveKeepsCounts(j: Job, m: Move)
    requires JobInv(j) && CanMove(j, m) && DownloaderMove(m)
    ensures CountsInv(Moved(j, m))
  {
    assert Moved(j, m).readers == j.readers && Moved(j, m).abandoned == j.abandoned;
  }

  lemma DownloaderMoveKeepsCleaner(j: Job, m: Move)
    requires JobInv(j) && CanMove(j, m) && DownloaderMove(m)
    ensures CleanerInv(Moved(j, m))
  {}

  lemma DownloaderMoveKeepsExit(j: Job, m: Move)
    requires JobInv(j) && CanMove(j, m) && DownloaderMove(m)
    ensures ExitInv(Moved(j, m))
  {}

  lemma MoveKeepsInv(j: Job, m: Move)
    requires JobInv(j) && CanMove(j, m)
    ensures JobInv(Moved(j, m))
  {
    if ReaderMove(m) {
      ReaderMoveKeepsInv(j, m);
    } else if CleanerMove(m) {
      CleanerMoveKeepsInv(j, m);
    } else if ChunkerMove(m) {
      ChunkerMoveKeepsInv(j, m);
    } else {
      DownloaderMoveKeepsCounts(j, m);
      DownloaderMoveKeepsCleaner(j, m);
      DownloaderMoveKeepsExit(j, m);
    }
  }

  predicate RemovesKey(m: Move) { m.RemoveKey? || m.ChunkerRemovesKey? }

  /** What the rest of the system sees of a step: signals only rise, and the key is given up once. */
  ghost predicate Outcome(j: Job, m: Move, k: Job) {
    && (j.start ==> k.start) && (j.stored ==> k.stored) && (j.done ==> k.done) && (j.closed ==> k.closed) && k.abandoned >= j.abandoned
    && (RemovesKey(m) ==> j.keyed) && (k.keyed <==> j.keyed && !RemovesKey(m))
  }

  lemma DownloaderOutcome(j: Job, m: Move)
    requires ExitInv(j) && CanMove(j, m) && DownloaderMove(m)
    ensures Outcome(j, m, DownloaderMoved(j, m))
  {}

  lemma OtherOutcome(j: Job, m: Move)
    requires ExitInv(j) && CanMove(j, m) && !DownloaderMove(m)
    ensures ReaderMove(m) ==> Outcome(j, m, ReaderMoved(j, m))
    ensures CleanerMove(m) ==> Outcome(j, m, CleanerMoved(j, m))
    ensures ChunkerMove(m) ==> Outcome(j, m, ChunkerMoved(j, m))
  {}

  lemma MoveOutcome(j: Job, m: Move)
    requires JobInv(j) && CanMove(j, m)
    ensures JobInv(Moved(j, m)) && Outcome(j, m, Moved(j, m))
  {
    MoveKeepsInv(j, m);
    if DownloaderMove(m) {
      DownloaderOutcome(j, m);
    } else {
      OtherOutcome(j, m);
    }
  }

  // ---------------------------------------------------------------- every run of one job

  datatype Run = Created | Then(past: Run, move: Move)

  predicate Valid(run: Run)
    decreases run, 0
  {
    run.Then? ==> Valid(run.past) && CanMove(Last(run.past), run.move)
  }

  function Last(run: Run): Job
    requires Valid(run)
    decreases run, 1
  {
    if run.Created? then NEW_JOB else Moved(Last(run.past), run.move)
  }

  lemma {:induction false} RunKeepsInv(run: Run)
    requires Valid(run)
    ensures JobInv(Last(run))
  {
    if run.Then? {
      RunKeepsInv(run.past);
      MoveKeepsInv(Last(run.past), run.move);
    }
  }

  /** The temp file is removed only when the download and the chunking are over and no admitted reader is active. */
  lemma FileOutlivesItsUsers(run: Run)
    requires Valid(run)
    ensures var j := Last(run);
      (j.cleaner.Deleting? || j.file.Removed?) ==> j.downloader.Ended? && !ChunkerHoldsCdc(j) && j.readers == {}
  {
    RunKeepsInv(run);
  }

  /** Once the file may be removed, no reader is admitted, then or ever after. */
  lemma {:induction false} NoLateReaders(run: Run, more: Run, reader: nat)
    requires Valid(run) && Valid(more) && Extends(more, run)
    requires Last(run).cleaner.Deleting? || Last(run).file.Removed?
    ensures !CanMove(Last(more), Admit(reader)) && Last(more).readers == {}
  {
    RunKeepsInv(run);
    if Last(run).file.Removed? {
      RemovedIsGone(Last(run));
    }
    ClosedStaysClosed(run, more);
    ClosedAdmitsNobody(Last(more), reader);
  }

  lemma RemovedIsGone(j: Job)
    requires CleanerInv(j) && j.file.Removed?
    ensures j.cleaner.Gone?
  {}

  lemma ClosedAdmitsNobody(j: Job, reader: nat)
    requires j.closed
    ensures !CanMove(j, Admit(reader))
  {}

  predicate Extends(more: Run, run: Run) { more == run || (more.Then? && Extends(more.past, run)) }

  lemma {:induction false} ClosedStaysClosed(run: Run, more: Run)
    requires Valid(run) && Valid(more) && Extends(more, run)
    requires Last(run).cleaner.Deleting? || Last(run).cleaner.Gone?
    ensures Last(more).closed && (Last(more).cleaner.Deleting? || Last(more).cleaner.Gone?) && Last(more).readers == {}
  {
    if more == run {
      RunKeepsInv(run);
    } else {
      ClosedStaysClosed(run, more.past);
      RunKeepsInv(more.past);
      ClosedStep(Last(more.past), more.move);
    }
  }

  lemma ClosedStep(j: Job, m: Move)
    requires JobInv(j) && CanMove(j, m) && (j.cleaner.Deleting? || j.cleaner.Gone?)
    ensures var k := Moved(j, m);
      k.closed && (k.cleaner.Deleting? || k.cleaner.Gone?) && k.readers == {}
  {}

  /** Each signal, and what raises it. */
  predicate Stores(m: Move) { m == StoreEnds(true) || m == NarFileReady }
  predicate Starts(m: Move) { m.CreateOk? || m == CloseStart }
  predicate Finishes(m: Move) { m == CloseDone || m == ChunkerClosesDone }

  /** The signals after a move are those before it and what it raises. */
  ghost predicate Raises(j: Job, m: Move, k: Job) {
    && (k.stored <==> j.stored || Stores(m))
    && (k.start <==> j.start || Starts(m))
    && (k.done <==> j.done || Finishes(m))
    && (k.closed <==> j.closed || m == Close)
    && (k.abandoned == j.abandoned + if m.ReaderGivesUp? then 1 else 0)
  }

  predicate StreamingMove(m: Move) { m.Begin? || m.FetchFails? || m.FetchOk? || m.CreateFails? || m.CreateOk? || m.StreamEnds? }

  lemma StreamingRaises(j: Job, m: Move)
    requires CanMove(j, m) && DownloaderMove(m) && StreamingMove(m)
    ensures Raises(j, m, DownloaderMoved(j, m))
  {}

  lemma LeavingRaises(j: Job, m: Move)
    requires CanMove(j, m) && DownloaderMove(m) && !StreamingMove(m)
    ensures Raises(j, m, DownloaderMoved(j, m))
  {}

  lemma ReadersRaise(j: Job, m: Move)
    requires CanMove(j, m) && ReaderMove(m)
    ensures Raises(j, m, ReaderMoved(j, m))
  {}

  lemma OthersRaise(j: Job, m: Move)
    requires CanMove(j, m) && (CleanerMove(m) || ChunkerMove(m))
    ensures CleanerMove(m) ==> Raises(j, m, CleanerMoved(j, m))
    ensures ChunkerMove(m) ==> Raises(j, m, ChunkerMoved(j, m))
  {}

  lemma MoveRaises(j: Job, m: Move)
    requires CanMove(j, m)
    ensures Raises(j, m, Moved(j, m))
  {
    if DownloaderMove(m) && StreamingMove(m) {
      StreamingRaises(j, m);
    } else if DownloaderMove(m) {
      LeavingRaises(j, m);
    } else if ReaderMove(m) {
      ReadersRaise(j, m);
    } else {
      OthersRaise(j, m);
    }
  }

  predicate WasStored(run: Run) { run.Then? && (Stores(run.move) || WasStored(run.past)) }
  predicate WasStarted(run: Run) { run.Then? && (Starts(run.move) || WasStarted(run.past)) }
  predicate WasFinished(run: Run) { run.Then? && (Finishes(run.move) || WasFinished(run.past)) }
  predicate WasClosed(run: Run) { run.Then? && (run.move == Close || WasClosed(run.past)) }
  predicate WasGivenUp(run: Run) { run.Then? && (run.move.ReaderGivesUp? || WasGivenUp(run.past)) }

  /** In every run the NAR counts as stored exactly if the store took it or its nar_file was there; and each signal has its events. */
  lemma {:induction false} SignalsIff(run: Run)
    requires Valid(run)
    ensures var j := Last(run);
      && (j.stored <==> WasStored(run)) && (j.start <==> WasStarted(run)) && (j.done <==> WasFinished(run))
      && (j.closed <==> WasClosed(run)) && (j.abandoned > 0 <==> WasGivenUp(run))
  {
    if run.Then? {
      SignalsIff(run.past);
      MoveRaises(Last(run.past), run.move);
    }
  }

  /** The file is decompressed on the fly, or came whole to a cache that chunks. */
  predicate Spawns(m: Move) { m == CreateOk(true) || m == StreamEnds(true, true) }

  predicate WasSpawned(run: Run) { run.Then? && (Spawns(run.move) || WasSpawned(run.past)) }
  predicate WasStreamed(run: Run) { run.Then? && (run.move == StreamEnds(true, false) || WasStreamed(run.past)) }

  /** In every run a chunker is there exactly if one was spawned, and nothing is stored whole before its stream has ended well. */
  lemma {:induction false} PathsIff(run: Run)
    requires Valid(run)
    ensures var j := Last(run);
      && (!j.chunker.Absent? <==> WasSpawned(run))
      && (j.downloader.Storing? ==> WasStreamed(run)) && (j.stored ==> WasStreamed(run) || WasSpawned(run))
  {
    if run.Then? {
      PathsIff(run.past);
      RunKeepsInv(run.past);
      PathStep(Last(run.past), run.move);
    }
  }

  /** How a move changes the path that the job takes. */
  ghost predicate Takes(j: Job, m: Move, k: Job) {
    && (!k.chunker.Absent? <==> !j.chunker.Absent? || Spawns(m))
    && (k.downloader.Storing? ==> j.downloader.Storing? || m == StreamEnds(true, false))
    && (k.stored ==> j.stored || j.downloader.Storing? || !j.chunker.Absent?)
  }

  lemma PathStep(j: Job, m: Move)
    requires JobInv(j) && CanMove(j, m)
    ensures Takes(j, m, Moved(j, m))
  {
    if DownloaderMove(m) && StreamingMove(m) {
      StreamingTakes(j, m);
    } else if DownloaderMove(m) {
      LeavingTakes(j, m);
    } else {
      OthersTake(j, m);
    }
  }

  lemma StreamingTakes(j: Job, m: Move)
    requires ExitInv(j) && CanMove(j, m) && DownloaderMove(m) && StreamingMove(m)
    ensures Takes(j, m, DownloaderMoved(j, m))
  {}

  lemma LeavingTakes(j: Job, m: Move)
    requires CanMove(j, m) && DownloaderMove(m) && !StreamingMove(m)
    ensures Takes(j, m, DownloaderMoved(j, m))
  {}

  lemma OthersTake(j: Job, m: Move)
    requires CanMove(j, m) && !DownloaderMove(m)
    ensures Takes(j, m, Moved(j, m))
  {}

  // ---------------------------------------------------------------- a job can always be cleaned up

  /** How many moves are left at most, with nothing more to be started. */
  function Work(j: Job): nat {
    |j.readers| + DownloaderWork(j.downloader) + ChunkerWork(j.chunker) + CleanerWork(j.cleaner)
  }

  function DownloaderWork(d: Downloader): nat {
    match d
    case Spawned => 11
    case Fetching => 10
    case Creating => 9
    case Streaming(_) => 8
    case Storing => 7
    case Leaving(_) => 6
    case RemovingKey => 5
    case ClosingStart(_) => 4
    case ClosingDone => 3
    case Releasing => 2
    case Ended => 0
  }

  function ChunkerWork(c: Chunker): nat {
    match c
    case Absent => 0
    case Chunking => 4
    case HoldsCdc => 3
    case RemovingJob => 2
    case ClosingJob => 1
    case Over => 0
  }

  function CleanerWork(c: Cleaner): nat {
    match c
    case NotStarted => 6
    case AwaitDownload => 5
    case AwaitChunker => 4
    case Closing => 3
    case AwaitReaders => 2
    case Deleting => 1
    case Gone => 0
  }

  /** Nothing is left to do: the file is gone or never was, all channels are closed and the key is free. */
  predicate CleanedUp(j: Job) {
    && j.downloader.Ended? && (j.chunker.Absent? || j.chunker.Over?) && (j.cleaner.NotStarted? || j.cleaner.Gone?)
    && j.readers == {} && !j.file.Present? && j.start && j.done && !j.keyed
  }

  function DownloaderNext(d: Downloader): Move
    requires !d.Ended?
  {
    match d
    case Spawned => Begin
    case Fetching => FetchOk
    case Creating => CreateOk(false)
    case Streaming(_) => StreamEnds(true, false)
    case Storing => StoreEnds(true)
    case Leaving(_) => Leave
    case RemovingKey => RemoveKey
    case ClosingStart(_) => CloseStart
    case ClosingDone => CloseDone
    case Releasing => Release
  }

  function ChunkerNext(c: Chunker): Move
    requires !c.Absent? && !c.Over?
  {
    match c
    case Chunking => ChunkerReturns
    case HoldsCdc => ChunkerReleases
    case RemovingJob => ChunkerRemovesKey
    case ClosingJob => ChunkerClosesDone
  }

  function CleanerNext(c: Cleaner): Move
    requires !c.NotStarted? && !c.Gone?
  {
    match c
    case AwaitDownload => DownloadOver
    case AwaitChunker => ChunkerOver
    case Closing => Close
    case AwaitReaders => ReadersOver
    case Deleting => Delete
  }

  /** The move can be made, and there is less to do after it. */
  predicate Works(j: Job, m: Move) { CanMove(j, m) && Work(Moved(j, m)) < Work(j) && Moved(j, m).abandoned == j.abandoned }

  lemma DownloaderWorks(j: Job)
    requires CleanerInv(j) && !j.downloader.Ended?
    ensures Works(j, DownloaderNext(j.downloader))
  {
    var m := DownloaderNext(j.downloader);
    assert Moved(j, m) == DownloaderMoved(j, m);
    if StreamingMove(m) {
      StreamingMovesOn(j);
    } else {
      LeavingMovesOn(j);
    }
  }

  ghost predicate MovesOn(j: Job, k: Job) {
    && k.readers == j.readers && k.abandoned == j.abandoned && k.chunker == j.chunker
    && DownloaderWork(k.downloader) < DownloaderWork(j.downloader) && CleanerWork(k.cleaner) <= CleanerWork(j.cleaner)
  }

  lemma StreamingMovesOn(j: Job)
    requires CleanerInv(j) && !j.downloader.Ended? && StreamingMove(DownloaderNext(j.downloader))
    ensures MovesOn(j, DownloaderMoved(j, DownloaderNext(j.downloader)))
  {}

  lemma LeavingMovesOn(j: Job)
    requires !j.downloader.Ended? && !StreamingMove(DownloaderNext(j.downloader))
    ensures MovesOn(j, DownloaderMoved(j, DownloaderNext(j.downloader)))
  {}

  lemma ChunkerWorks(j: Job)
    requires !j.chunker.Absent? && !j.chunker.Over?
    ensures Works(j, ChunkerNext(j.chunker))
  {}

  lemma CleanerWorks(j: Job)
    requires JobInv(j) && j.abandoned == 0 && j.readers == {} && j.downloader.Ended? && (j.chunker.Absent? || j.chunker.Over?)
    requires !j.cleaner.NotStarted? && !j.cleaner.Gone?
    ensures Works(j, CleanerNext(j.cleaner))
  {}

  /** From every state of a job in which no reader has returned early, it can come to its end with everything cleaned up. */
  lemma {:induction false} JobCanCleanUp(run: Run) returns (more: Run)
    requires Valid(run) && Last(run).abandoned == 0
    ensures Valid(more) && Extends(more, run) && CleanedUp(Last(more))
    decreases Work(Last(run))
  {
    var j := Last(run);
    RunKeepsInv(run);
    var next: Run;
    if j.readers != {} {
      var r :| r in j.readers;
      next := Then(run, ReaderDone(r));
    } else if !j.downloader.Ended? {
      DownloaderWorks(j);
      next := Then(run, DownloaderNext(j.downloader));
    } else if !j.chunker.Absent? && !j.chunker.Over? {
      ChunkerWorks(j);
      next := Then(run, ChunkerNext(j.chunker));
    } else if !j.cleaner.NotStarted? && !j.cleaner.Gone? {
      CleanerWorks(j);
      next := Then(run, CleanerNext(j.cleaner));
    } else {
      EndIsClean(j);
      return run;
    }
    more := JobCanCleanUp(next);
    ExtendsPast(more, next, run);
  }

  lemma EndIsClean(j: Job)
    requires JobInv(j) && j.readers == {} && j.downloader.Ended?
    requires (j.chunker.Absent? || j.chunker.Over?) && (j.cleaner.NotStarted? || j.cleaner.Gone?)
    ensures CleanedUp(j)
  {}

  lemma {:induction false} ExtendsPast(c: Run, b: Run, a: Run)
    requires Extends(c, b) && b.Then? && b.past == a
    ensures Extends(c, a)
  {
    if c != b {
      ExtendsPast(c.past, b, a);
    }
  }

  /** However a job ends, start and done are closed, start exactly once, and its key is out of the job map. */
  lemma EveryExitCleansUp(run: Run)
    requires Valid(run) && Last(run).downloader.Ended?
    requires Last(run).chunker.Absent? || Last(run).chunker.Over?
    ensures Last(run).start && Last(run).closings == 1 && Last(run).done && !Last(run).keyed
  {
    RunKeepsInv(run);
  }

  /** ... and on no path is start or done closed, or the key removed, a second time. */
  lemma NothingIsClosedTwice(run: Run, m: Move)
    requires Valid(run) && CanMove(Last(run), m)
    ensures Moved(Last(run), m).closings <= 1
    ensures m.CloseDone? || m.ChunkerClosesDone? ==> !Last(run).done
    ensures m.RemoveKey? || m.ChunkerRemovesKey? ==> Last(run).keyed
  {
    RunKeepsInv(run);
    MoveKeepsInv(Last(run), m);
  }

  /** Once nobody reads any more, the cleaner goes on if and only if every reader has signed off. */
  lemma CleanerGoesOnIff(j: Job)
    requires JobInv(j) && j.cleaner.AwaitReaders? && j.readers == {}
    ensures CanMove(j, ReadersOver) <==> j.abandoned == 0
  {}

  /** A reader that gives up before streaming never signs off, and then the file is never removed. */
  lemma {:induction false} AbandonedReaderKeepsFile(run: Run, more: Run)
    requires Valid(run) && Valid(more) && Extends(more, run) && Last(run).abandoned > 0
    ensures Last(more).abandoned > 0 && !Last(more).cleaner.Deleting? && !Last(more).file.Removed?
  {
    RunKeepsInv(more);
    if more != run {
      AbandonedReaderKeepsFile(run, more.past);
      RunKeepsInv(more.past);
      MoveOutcome(Last(more.past), more.move);
    }
    AbandonedIsKept(Last(more));
  }

  lemma AbandonedIsKept(j: Job)
    requires CleanerInv(j) && j.abandoned > 0
    ensures !j.cleaner.Deleting? && !j.file.Removed?
  {}
}
