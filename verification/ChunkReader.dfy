/**
 Readers that stream a NAR from its chunks, possibly while it is still being chunked: the prefetching
 goroutine, the bounded channel and the consumer that copies to the client, step by step. Between any
 two of its steps the shared state may have changed arbitrarily.
 */
module ChunkReader {
  import opened Database
  import opened Repository
  import opened ChunkingProtocol

  /** prefetchBufferSize; progressivePollBatchSize. */
  const CHANNEL_SIZE: nat := 16
  const POLL_LIMIT: nat := 256

  datatype Item = Data(hash: Hash) | FetchFailed(hash: Hash) | Fault

  datatype Why = StreamedAll | Faulted | CancelledSilently

  /** Where the prefetching goroutine is. */
  datatype Pc =
    | QueryAll
    | Poll
    | CheckTotal
    | Wait
    | Recheck
    | Feed(batch: seq<Hash>)
    | SendFault
    | Stopped(why: Why)

  datatype Status = Reading | Finished | Failed

  datatype Reader = Reader(
    file: Id, pc: Pc, index: nat, total: nat, queue: seq<Item>,
    cancelled: bool, copied: nat, out: Bytes, status: Status, complete: bool)

  datatype Move =
    | Produce(fetchOk: bool, timedOut: bool)
    | Cancel
    | StopOnCancel(silently: bool)
    | Consume
    | CopyFails(n: nat)
    | Finish

  function Flatten(env: Env, list: seq<Hash>): Bytes {
    if list == [] then [] else Flatten(env, list[..|list| - 1]) + env.content(list[|list| - 1])
  }

  /** getNarFromChunks: the row decides between the complete and the progressive path. */
  function Open(t: Tables, file: Id): Reader
    requires file in t.narFiles
  {
    var total := t.narFiles[file].totalChunks;
    Reader(file, if total > 0 then QueryAll else Poll, 0, total, [], false, 0, [], Reading, total > 0)
  }

  function Limited(q: seq<Hash>): seq<Hash> { if |q| <= POLL_LIMIT then q else q[..POLL_LIMIT] }

  /** After a batch, or once the total is known: stop if everything has been streamed. */
  function OrDone(r: Reader, next: Pc): Pc {
    if r.total > 0 && r.index >= r.total then Stopped(StreamedAll) else next
  }

  /** One step of the prefetching goroutine: at most one query, fetch or send. */
  function Produced(repo: Repo, r: Reader, fetchOk: bool, timedOut: bool): Reader {
    var t := repo.db;
    match r.pc
    case QueryAll =>
      var rows := ChunksFrom(t, r.file, 0);
      if |rows| != r.total then r.(pc := Stopped(Faulted), status := Failed) else r.(pc := Feed(rows))
    case Poll =>
      var rows := Limited(ChunksFrom(t, r.file, r.index));
      r.(pc := if rows != [] then Feed(rows) else CheckTotal)
    case CheckTotal =>
      if r.total > 0 then r.(pc := OrDone(r, Wait))
      else if r.file !in t.narFiles then r.(pc := SendFault)
      else
        var row := t.narFiles[r.file];
        if row.totalChunks == 0 && row.chunkingStartedAt.None? then r.(pc := SendFault)
        else
          var r1 := r.(total := row.totalChunks);
          r1.(pc := OrDone(r1, Wait))
    case Wait =>
      var rows := Limited(ChunksFrom(t, r.file, r.index));
      r.(pc := if rows != [] then Feed(rows) else Recheck)
    case Recheck =>
      if r.file !in t.narFiles then r.(pc := SendFault)
      else
        var row := t.narFiles[r.file];
        if row.totalChunks > 0 then
          var r1 := r.(total := row.totalChunks);
          r1.(pc := OrDone(r1, Poll))
        else if row.chunkingStartedAt.None? || timedOut then r.(pc := SendFault)
        else r.(pc := Wait)
    case Feed(batch) =>
      if batch == [] then r.(pc := OrDone(r, Poll))
      else if |r.queue| < CHANNEL_SIZE then
        var item := if fetchOk && batch[0] in repo.chunkFiles then Data(batch[0]) else FetchFailed(batch[0]);
        r.(queue := r.queue + [item], index := r.index + 1, pc := Feed(batch[1..]))
      else r
    case SendFault =>
      if |r.queue| < CHANNEL_SIZE then r.(queue := r.queue + [Fault], pc := Stopped(Faulted)) else r
    case Stopped(_) => r
  }

  ghost predicate MoveEnabled(env: Env, r: Reader, m: Move) {
    match m
    case Produce(_, _) => true
    case Cancel => true
    case StopOnCancel(silently) =>
      r.cancelled && !r.pc.Stopped? && (silently ==> r.pc.Feed? && r.pc.batch != [])
    case Consume => r.status.Reading? && r.queue != []
    case CopyFails(n) =>
      r.status.Reading? && r.queue != [] && r.queue[0].Data? && n <= |env.content(r.queue[0].hash)|
    case Finish => r.status.Reading? && r.queue == [] && r.pc.Stopped?
  }

  ghost function Moved(env: Env, repo: Repo, r: Reader, m: Move): Reader
    requires MoveEnabled(env, r, m)
  {
    match m
    case Produce(fetchOk, timedOut) => Produced(repo, r, fetchOk, timedOut)
    case Cancel => r.(cancelled := true)
    case StopOnCancel(silently) => r.(pc := if silently then Stopped(CancelledSilently) else SendFault)
    case Consume =>
      var item := r.queue[0];
      if item.Data? then
        r.(queue := r.queue[1..], copied := r.copied + 1, out := r.out + env.content(item.hash))
      else
        r.(queue := r.queue[1..], status := Failed)
    case CopyFails(n) =>
      r.(queue := r.queue[1..], out := r.out + env.content(r.queue[0].hash)[..n], status := Failed)
    case Finish => r.(status := Finished)
  }

  // ---------------------------------------------------------------- invariant

  /** The number of chunk items in the channel; a fault can only come last. */
  function ChunkItems(q: seq<Item>): nat {
    if q != [] && q[|q| - 1].Fault? then |q| - 1 else |q|
  }

  /** What the channel holds continues what was copied. */
  ghost predicate QueueInv(list: seq<Hash>, r: Reader) {
    var n := ChunkItems(r.queue);
    && r.copied + n == r.index <= |list|
    && (forall i :: 0 <= i < n ==> !r.queue[i].Fault? && r.queue[i].hash == list[r.copied + i])
    && (n < |r.queue| ==> r.pc == Stopped(Faulted))
  }

  ghost predicate PcInv(list: seq<Hash>, r: Reader) {
    match r.pc
    case Feed(batch) => r.index + |batch| <= |list| && batch == list[r.index..r.index + |batch|]
    case QueryAll => r.index == 0
    case Stopped(StreamedAll) => 0 < r.total <= r.index
    case Stopped(Faulted) => r.status.Failed? || ChunkItems(r.queue) < |r.queue|
    case Stopped(CancelledSilently) => r.cancelled
    case _ => true
  }

  ghost predicate ReaderInv(env: Env, r: Reader) {
    var list := env.nar(r.file);
    && PcInv(list, r)
    && r.index <= |list|
    && (r.total > 0 && env.validated(r.file) ==> r.total == |list|)
    && (r.status.Reading? ==> QueueInv(list, r) && r.out == Flatten(env, list[..r.copied]))
    && (r.status.Failed? ==> r.out <= Flatten(env, list))
    && (r.status.Finished? ==>
          && r.pc.Stopped? && r.copied == r.index && r.queue == [] && r.out == Flatten(env, list[..r.copied])
          && (r.pc.why == StreamedAll || r.cancelled))
  }

  lemma {:induction false} FlattenPrefix(env: Env, list: seq<Hash>, n: nat)
    requires n <= |list|
    ensures Flatten(env, list[..n]) <= Flatten(env, list)
    decreases |list|
  {
    if n == |list| {
      assert list[..n] == list;
    } else {
      var init := list[..|list| - 1];
      FlattenPrefix(env, init, n);
      assert init[..n] == list[..n];
    }
  }

  lemma {:induction false} FlattenNext(env: Env, list: seq<Hash>, n: nat)
    requires n < |list|
    ensures Flatten(env, list[..n + 1]) == Flatten(env, list[..n]) + env.content(list[n])
  {
    assert list[..n + 1][..n] == list[..n];
  }

  /** Whatever its state, a reader has emitted a prefix of the NAR. */
  lemma EmitsPrefix(env: Env, r: Reader)
    requires ReaderInv(env, r)
    ensures r.out <= Flatten(env, env.nar(r.file))
  {
    if !r.status.Failed? {
      FlattenPrefix(env, env.nar(r.file), r.copied);
    }
  }

  /** A finish without error, not cancelled, emits the NAR up to at least the recorded total. */
  lemma FinishEmitsTotal(env: Env, r: Reader)
    requires ReaderInv(env, r) && r.status.Finished? && !r.cancelled
    ensures 0 < r.total <= r.copied <= |env.nar(r.file)|
    ensures r.out == Flatten(env, env.nar(r.file)[..r.copied])
    ensures env.validated(r.file) ==> r.out == Flatten(env, env.nar(r.file))
  {
    var list := env.nar(r.file);
    assert list[..|list|] == list;
  }

  // ---------------------------------------------------------------- every move keeps it

  lemma OpenIsGood(env: Env, t: Tables, file: Id)
    requires RowsInv(env, t) && file in t.narFiles
    ensures ReaderInv(env, Open(t, file))
  {
    assert env.nar(file)[..0] == [];
  }

  /** A query at the reader's index returns a segment of the list. */
  lemma PollReturnsSegment(env: Env, t: Tables, file: Id, index: nat)
    requires RowsInv(env, t)
    ensures var list, rows := env.nar(file), ChunksFrom(t, file, index);
      && (rows != [] ==> index + |rows| <= |list| && rows == list[index..index + |rows|])
      && var some := Limited(rows);
         some != [] ==> index + |some| <= |list| && some == list[index..index + |some|]
  {
    assert RowsArePrefix(t, file, env.nar(file));
    QueryReturnsSegment(t, file, env.nar(file), index);
    LimitedIsSegment(env.nar(file), index, ChunksFrom(t, file, index));
  }

  lemma LimitedIsSegment(list: seq<Hash>, index: nat, rows: seq<Hash>)
    requires rows != [] ==> index + |rows| <= |list| && rows == list[index..index + |rows|]
    ensures var some := Limited(rows);
      some != [] ==> index + |some| <= |list| && some == list[index..index + |some|]
  {}

  lemma ProduceKeepsInv(env: Env, repo: Repo, r: Reader, fetchOk: bool, timedOut: bool)
    requires RowsInv(env, repo.db) && ReaderInv(env, r)
    ensures ReaderInv(env, Produced(repo, r, fetchOk, timedOut))
  {
    match r.pc
    case Feed(batch) => FeedKeepsInv(env, repo, r, fetchOk, timedOut);
    case SendFault => SendFaultKeepsInv(env, repo, r, fetchOk, timedOut);
    case QueryAll => QueryAllKeepsInv(env, repo, r, fetchOk, timedOut);
    case Poll => PollKeepsInv(env, repo, r, fetchOk, timedOut);
    case Wait => PollKeepsInv(env, repo, r, fetchOk, timedOut);
    case CheckTotal => TotalKeepsInv(env, repo, r, fetchOk, timedOut);
    case Recheck => TotalKeepsInv(env, repo, r, fetchOk, timedOut);
    case Stopped(_) =>
  }

  /** A step that only moves the goroutine on, and perhaps learns the total. */
  lemma GoingOnKeepsInv(env: Env, r: Reader, r': Reader)
    requires ReaderInv(env, r) && !r.pc.Stopped? && r' == r.(pc := r'.pc, total := r'.total)
    requires PcInv(env.nar(r.file), r') && (r'.total > 0 && env.validated(r.file) ==> r'.total == |env.nar(r.file)|)
    ensures ReaderInv(env, r')
  {}

  lemma GivingUpKeepsInv(env: Env, r: Reader)
    requires ReaderInv(env, r) && r.pc.QueryAll?
    ensures ReaderInv(env, r.(pc := Stopped(Faulted), status := Failed))
  {
    EmitsPrefix(env, r);
  }

  lemma FeedingKeepsInv(env: Env, r: Reader, rows: seq<Hash>)
    requires ReaderInv(env, r) && !r.pc.Stopped?
    requires rows != [] ==> r.index + |rows| <= |env.nar(r.file)| && rows == env.nar(r.file)[r.index..r.index + |rows|]
    ensures ReaderInv(env, r.(pc := Feed(rows)))
  {
    GoingOnKeepsInv(env, r, r.(pc := Feed(rows)));
  }

  lemma QueryAllKeepsInv(env: Env, repo: Repo, r: Reader, fetchOk: bool, timedOut: bool)
    requires RowsInv(env, repo.db) && ReaderInv(env, r) && r.pc.QueryAll?
    ensures ReaderInv(env, Produced(repo, r, fetchOk, timedOut))
  {
    GivingUpKeepsInv(env, r);
    PollReturnsSegment(env, repo.db, r.file, 0);
    FeedingKeepsInv(env, r, ChunksFrom(repo.db, r.file, 0));
  }

  lemma PollKeepsInv(env: Env, repo: Repo, r: Reader, fetchOk: bool, timedOut: bool)
    requires RowsInv(env, repo.db) && ReaderInv(env, r) && (r.pc.Poll? || r.pc.Wait?)
    ensures ReaderInv(env, Produced(repo, r, fetchOk, timedOut))
  {
    PollReturnsSegment(env, repo.db, r.file, r.index);
    FeedingKeepsInv(env, r, Limited(ChunksFrom(repo.db, r.file, r.index)));
    GoingOnKeepsInv(env, r, r.(pc := CheckTotal));
    GoingOnKeepsInv(env, r, r.(pc := Recheck));
  }

  lemma TotalKeepsInv(env: Env, repo: Repo, r: Reader, fetchOk: bool, timedOut: bool)
    requires RowsInv(env, repo.db) && ReaderInv(env, r) && (r.pc.CheckTotal? || r.pc.Recheck?)
    ensures ReaderInv(env, Produced(repo, r, fetchOk, timedOut))
  {
    TotalIsRight(env, repo, r, fetchOk, timedOut);
    GoingOnKeepsInv(env, r, Produced(repo, r, fetchOk, timedOut));
  }

  lemma TotalIsRight(env: Env, repo: Repo, r: Reader, fetchOk: bool, timedOut: bool)
    requires RowsInv(env, repo.db) && (r.pc.CheckTotal? || r.pc.Recheck?)
    requires r.total > 0 && env.validated(r.file) ==> r.total == |env.nar(r.file)|
    ensures var r' := Produced(repo, r, fetchOk, timedOut);
      && r' == r.(pc := r'.pc, total := r'.total) && PcInv(env.nar(r.file), r')
      && (r'.total > 0 && env.validated(r.file) ==> r'.total == |env.nar(r.file)|)
  {}

  lemma FeedKeepsInv(env: Env, repo: Repo, r: Reader, fetchOk: bool, timedOut: bool)
    requires ReaderInv(env, r) && r.pc.Feed?
    ensures ReaderInv(env, Produced(repo, r, fetchOk, timedOut))
  {
    var r' := Produced(repo, r, fetchOk, timedOut);
    if r.pc.batch == [] {
      GoingOnKeepsInv(env, r, r');
    } else if |r.queue| < CHANNEL_SIZE {
      SendKeepsInv(env, r, r', r'.queue[|r.queue|]);
    }
  }

  lemma SendKeepsInv(env: Env, r: Reader, r': Reader, item: Item)
    requires ReaderInv(env, r) && r.pc.Feed? && r.pc.batch != []
    requires !item.Fault? && item.hash == r.pc.batch[0]
    requires r' == r.(queue := r.queue + [item], index := r.index + 1, pc := Feed(r.pc.batch[1..]))
    ensures ReaderInv(env, r')
  {
    var list := env.nar(r.file);
    assert r.pc.batch[0] == list[r.index];
    if r.status.Reading? {
      assert QueueInv(list, r');
    }
  }

  lemma SendFaultKeepsInv(env: Env, repo: Repo, r: Reader, fetchOk: bool, timedOut: bool)
    requires ReaderInv(env, r) && r.pc.SendFault?
    ensures ReaderInv(env, Produced(repo, r, fetchOk, timedOut))
  {}

  lemma ConsumeKeepsInv(env: Env, repo: Repo, r: Reader)
    requires ReaderInv(env, r) && MoveEnabled(env, r, Consume)
    ensures ReaderInv(env, Moved(env, repo, r, Consume))
  {
    if r.queue[0].Data? {
      CopyKeepsInv(env, r);
    } else {
      EmitsPrefix(env, r);
    }
  }

  lemma CopyKeepsInv(env: Env, r: Reader)
    requires ReaderInv(env, r) && r.status.Reading? && r.queue != [] && r.queue[0].Data?
    ensures ReaderInv(env,
      r.(queue := r.queue[1..], copied := r.copied + 1, out := r.out + env.content(r.queue[0].hash)))
  {
    var list := env.nar(r.file);
    var r' := r.(queue := r.queue[1..], copied := r.copied + 1, out := r.out + env.content(r.queue[0].hash));
    FlattenNext(env, list, r.copied);
    QueueShifts(list, r, r');
  }

  lemma CopyFailureKeepsInv(env: Env, repo: Repo, r: Reader, n: nat)
    requires ReaderInv(env, r) && MoveEnabled(env, r, CopyFails(n))
    ensures ReaderInv(env, Moved(env, repo, r, CopyFails(n)))
  {
    var list := env.nar(r.file);
    FlattenNext(env, list, r.copied);
    FlattenPrefix(env, list, r.copied + 1);
  }

  lemma QueueShifts(list: seq<Hash>, r: Reader, r': Reader)
    requires QueueInv(list, r) && r.queue != [] && r.queue[0].Data?
    requires r'.queue == r.queue[1..] && r'.copied == r.copied + 1 && r'.index == r.index && r'.pc == r.pc
    ensures QueueInv(list, r')
    ensures ChunkItems(r'.queue) < |r'.queue| <==> ChunkItems(r.queue) < |r.queue|
  {}

  lemma MoveKeepsInv(env: Env, repo: Repo, r: Reader, m: Move)
    requires RowsInv(env, repo.db) && ReaderInv(env, r) && MoveEnabled(env, r, m)
    ensures ReaderInv(env, Moved(env, repo, r, m))
  {
    match m
    case Produce(fetchOk, timedOut) => ProduceKeepsInv(env, repo, r, fetchOk, timedOut);
    case Consume => ConsumeKeepsInv(env, repo, r);
    case CopyFails(n) => CopyFailureKeepsInv(env, repo, r, n);
    case _ =>
  }

  // ---------------------------------------------------------------- when a success is the whole NAR

  lemma {:induction false} FlattenLength(env: Env, list: seq<Hash>)
    ensures |Flatten(env, list)| == Size(env, list)
  {
    if list != [] {
      FlattenLength(env, list[..|list| - 1]);
    }
  }

  /** A reader that reports success has emitted the whole NAR if and only if it has copied every chunk. */
  lemma SuccessIsWholeIff(env: Env, r: Reader)
    requires NoEmptyChunks(env) && ReaderInv(env, r) && r.status.Finished?
    ensures r.out == Flatten(env, env.nar(r.file)) <==> r.copied == |env.nar(r.file)|
  {
    var list := env.nar(r.file);
    FlattenLength(env, list[..r.copied]);
    FlattenLength(env, list);
    DeclaredSizeRulesOutTruncation(env, r.file, r.copied);
    assert list[..|list|] == list;
  }

  /** On either path: an uncancelled success over a recorded total that is right has emitted the whole NAR. */
  lemma RightTotalIsWhole(env: Env, r: Reader)
    requires NoEmptyChunks(env) && ReaderInv(env, r) && r.status.Finished? && !r.cancelled
    requires r.total == |env.nar(r.file)|
    ensures r.out == Flatten(env, env.nar(r.file))
  {
    FinishEmitsTotal(env, r);
    SuccessIsWholeIff(env, r);
  }

  /** Only a reader that was opened on a complete nar_file queries all rows, and it feeds exactly as many chunks as recorded then. */
  predicate CompleteInv(r: Reader) {
    && (r.pc.QueryAll? ==> r.complete)
    && (r.complete ==>
          && r.total > 0
          && match r.pc
             case QueryAll => r.index == 0
             case Feed(batch) => r.index + |batch| == r.total
             case SendFault => true
             case Stopped(why) => why == StreamedAll ==> r.index == r.total
             case _ => false)
  }

  lemma OpenIsComplete(t: Tables, file: Id)
    requires file in t.narFiles
    ensures CompleteInv(Open(t, file)) && (Open(t, file).complete <==> t.narFiles[file].totalChunks > 0)
  {}

  lemma ProduceKeepsComplete(repo: Repo, r: Reader, fetchOk: bool, timedOut: bool)
    requires CompleteInv(r)
    ensures CompleteInv(Produced(repo, r, fetchOk, timedOut))
  {}

  lemma MoveKeepsComplete(env: Env, repo: Repo, r: Reader, m: Move)
    requires CompleteInv(r) && MoveEnabled(env, r, m)
    ensures CompleteInv(Moved(env, repo, r, m))
  {
    match m
    case Produce(fetchOk, timedOut) => ProduceKeepsComplete(repo, r, fetchOk, timedOut);
    case _ =>
  }

  /** On the complete path an uncancelled success is the whole NAR if and only if the recorded total was right. */
  lemma CompletePathIsWholeIff(env: Env, r: Reader)
    requires NoEmptyChunks(env) && ReaderInv(env, r) && CompleteInv(r) && r.complete
    requires r.status.Finished? && !r.cancelled
    ensures r.out == Flatten(env, env.nar(r.file)) <==> r.total == |env.nar(r.file)|
  {
    SuccessIsWholeIff(env, r);
  }
}
