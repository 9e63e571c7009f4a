/** The writer side of CDC: one attempt to chunk a NAR, driven by whatever its select receives next. */
module ChunkWriter {
  import opened Collections
  import opened Database

  const MAX_BATCH: nat := 100

  datatype Chunk = Chunk(hash: Hash, size: nat)

  /** What the select takes, with the outcome of the store and database calls that it leads to. */
  datatype Event =
    | ChunkReady(chunk: Chunk, putOk: bool, txOk: bool)
    | TimerFired(txOk: bool)
    | ChunkerFailed
    | NilError
    | StreamClosed(batchOk: bool, markOk: bool)
    | Cancelled

  datatype Result = Running | Completed | Failed

  function Hashes(chunks: seq<Chunk>): seq<Hash> {
    seq(|chunks|, i requires 0 <= i < |chunks| => chunks[i].hash)
  }

  function TotalBytes(chunks: seq<Chunk>): nat {
    if chunks == [] then 0 else TotalBytes(chunks[..|chunks| - 1]) + chunks[|chunks| - 1].size
  }

  // ---------------------------------------------------------------- batches

  lemma RecordNothing(t: Tables, file: Id, start: nat)
    requires file in t.narFiles
    ensures RecordBatch(t, file, start, []) == t
  {
    var r := RecordBatch(t, file, start, []);
    assert r.chunks == t.chunks && r.slots == t.slots;
  }

  /** Two adjacent batches are one longer batch. */
  lemma RecordTwice(t: Tables, file: Id, start: nat, a: seq<Hash>, b: seq<Hash>, whole: seq<Hash>)
    requires file in t.narFiles && start == |a| && whole == a + b
    ensures RecordBatch(RecordBatch(t, file, 0, a), file, start, b) == RecordBatch(t, file, 0, whole)
  {
    BatchRowsConcat(file, 0, a, b);
    var x, y := BatchRows(file, 0, a), BatchRows(file, start, b);
    MergeTwice(x, y, t.slots);
    assert t.chunks + ToSet(a) + ToSet(b) == t.chunks + ToSet(whole);
  }

  lemma MergeTwice(x: map<Slot, Hash>, y: map<Slot, Hash>, z: map<Slot, Hash>)
    requires x.Keys !! y.Keys
    ensures y + (x + z) == (x + y) + z
  {}

  lemma BatchRowsConcat(file: Id, start: nat, a: seq<Hash>, b: seq<Hash>)
    ensures BatchRows(file, start, a + b) == BatchRows(file, start, a) + BatchRows(file, start + |a|, b)
  {}

  /** A batch adds its chunks, numbered from `start`, and changes no row that is there already. */
  lemma BatchAdds(t: Tables, file: Id, start: nat, batch: seq<Hash>)
    requires file in t.narFiles
    ensures var r := RecordBatch(t, file, start, batch);
      && r == t.(chunks := r.chunks, slots := r.slots)
      && (forall h :: h in r.chunks <==> h in t.chunks || h in batch)
      && (forall s :: s in t.slots ==> s in r.slots && r.slots[s] == t.slots[s])
      && (forall s :: s in r.slots && s !in t.slots ==>
            s.file == file && start <= s.index < start + |batch| && r.slots[s] == batch[s.index - start])
      && (forall s: Slot :: s.file == file && start <= s.index < start + |batch| ==> s in r.slots)
  {}

  ghost predicate NoRows(t: Tables, file: Id) {
    forall s :: s in t.slots ==> s.file != file
  }

  /** On a nar_file without rows, a recorded list is exactly the rows 0, 1, 2, ... in stream order. */
  lemma RecordedRows(t: Tables, file: Id, list: seq<Hash>)
    requires file in t.narFiles && NoRows(t, file)
    ensures var r := RecordBatch(t, file, 0, list);
      && RowsArePrefix(r, file, list)
      && (forall i: nat :: Slot(file, i) in r.slots <==> i < |list|)
      && ChunksFrom(r, file, 0) == list
      && (forall s: Slot :: s.file != file ==> (s in r.slots <==> s in t.slots))
      && (forall s: Slot :: s.file != file && s in t.slots ==> r.slots[s] == t.slots[s])
  {
    var r := RecordBatch(t, file, 0, list);
    assert forall i: nat :: Slot(file, i) in r.slots <==> i < |list|;
    assert RowsArePrefix(r, file, list);
    QueryReturnsSegment(r, file, list, 0);
    assert Slot(file, |list|) !in r.slots && (list != [] ==> Slot(file, |list| - 1) in r.slots);
  }

  // ---------------------------------------------------------------- one attempt

  /** The database after an attempt has received some chunks, committed the first of them and ended so. */
  ghost function AfterAttempt(t: Tables, file: Id, received: seq<Chunk>, committed: nat, result: Result): Tables
    requires file in t.narFiles && committed <= |received|
  {
    var rows := RecordBatch(t, file, 0, Hashes(received[..committed]));
    match result
    case Running => rows
    case Failed => Unlock(rows, file)
    case Completed => MarkComplete(rows, file, |received|, TotalBytes(received))
  }

  /**
   On a nar_file without leftover rows, an attempt leaves as rows exactly the first `committed` chunks of
   the stream, in order; a completed one records how many there are and how many bytes they hold.
   */
  lemma AttemptLeavesPrefix(t: Tables, file: Id, received: seq<Chunk>, committed: nat, result: Result)
    requires file in t.narFiles && NoRows(t, file) && committed <= |received|
    ensures var r := AfterAttempt(t, file, received, committed, result);
      && RowsArePrefix(r, file, Hashes(received))
      && ChunksFrom(r, file, 0) == Hashes(received)[..committed]
      && (result.Completed? && committed == |received| ==>
            && r.narFiles[file].totalChunks == |ChunksFrom(r, file, 0)|
            && r.narFiles[file].fileSize == TotalBytes(received))
      && (!result.Completed? ==> r.narFiles[file].totalChunks == t.narFiles[file].totalChunks)
  {
    var list := Hashes(received[..committed]);
    var rows := RecordBatch(t, file, 0, list);
    var r := AfterAttempt(t, file, received, committed, result);
    HashesOfPrefix(received, committed);
    RecordedRows(t, file, list);
    LongerListing(rows, file, Hashes(received), committed);
    SlotsDecideRows(rows, r, file, Hashes(received));
  }

  lemma HashesOfPrefix(chunks: seq<Chunk>, n: nat)
    requires n <= |chunks|
    ensures Hashes(chunks[..n]) == Hashes(chunks)[..n]
  {}

  lemma LongerListing(t: Tables, file: Id, listing: seq<Hash>, n: nat)
    requires n <= |listing| && RowsArePrefix(t, file, listing[..n])
    ensures RowsArePrefix(t, file, listing)
  {}

  lemma SlotsDecideRows(t: Tables, u: Tables, file: Id, listing: seq<Hash>)
    requires t.slots == u.slots
    ensures ChunksFrom(u, file, 0) == ChunksFrom(t, file, 0)
    ensures RowsArePrefix(u, file, listing) <==> RowsArePrefix(t, file, listing)
  {
    assert ChunkIndices(u, file, 0) == ChunkIndices(t, file, 0);
  }

  /** The chunks that some events delivered, in order. */
  ghost function Delivered(events: seq<Event>): seq<Chunk> {
    if events == [] then [] else
      Delivered(events[..|events| - 1]) + Arrival(events[|events| - 1])
  }

  function Arrival(event: Event): seq<Chunk> {
    if event.ChunkReady? && event.putOk then [event.chunk] else []
  }

  /** How far an attempt has come. */
  datatype Progress = Progress(received: seq<Chunk>, committed: nat, result: Result)

  /** An attempt to commit what waits; committing nothing cannot fail. */
  function Flushed(p: Progress, txOk: bool): Progress {
    if txOk || p.committed == |p.received| then p.(committed := |p.received|) else p.(result := Failed)
  }

  /** What one event does to it. */
  function Taken(p: Progress, event: Event, declared: nat): Progress {
    match event
    case NilError => p
    case Cancelled => p.(result := Failed)
    case ChunkerFailed => p.(result := Failed)
    case TimerFired(txOk) => Flushed(p, txOk)
    case StreamClosed(batchOk, markOk) =>
      var q := Flushed(p, batchOk);
      if q.result.Failed? || (declared > 0 && TotalBytes(q.received) != declared) || !markOk
      then q.(result := Failed) else q.(result := Completed)
    case ChunkReady(chunk, putOk, txOk) =>
      if !putOk then p.(result := Failed) else
        var q := p.(received := p.received + [chunk]);
        if |q.received| >= q.committed + MAX_BATCH then Flushed(q, txOk) else q
  }

  /** What some events do, one after the other; an attempt that has ended takes no more of them. */
  function Replay(events: seq<Event>, declared: nat): Progress {
    if events == [] then Progress([], 0, Running) else
      var p := Replay(events[..|events| - 1], declared);
      if p.result.Running? then Taken(p, events[|events| - 1], declared) else p
  }

  ghost predicate Bounded(p: Progress, declared: nat) {
    && p.committed <= |p.received| <= p.committed + MAX_BATCH
    && (p.result.Running? ==> |p.received| < p.committed + MAX_BATCH)
    && (p.result.Completed? ==>
          p.committed == |p.received| && (declared > 0 ==> TotalBytes(p.received) == declared))
  }

  lemma TakenBounds(p: Progress, event: Event, declared: nat)
    requires Bounded(p, declared) && p.result.Running?
    ensures Bounded(Taken(p, event, declared), declared)
  {}

  lemma {:induction false} ReplayBounds(events: seq<Event>, declared: nat)
    ensures Bounded(Replay(events, declared), declared)
  {
    if events != [] {
      var p := Replay(events[..|events| - 1], declared);
      ReplayBounds(events[..|events| - 1], declared);
      if p.result.Running? {
        TakenBounds(p, events[|events| - 1], declared);
      }
    }
  }

  // ---------------------------------------------------------------- what the events say

  /** The events since the timer last fired. */
  ghost function SinceTimer(events: seq<Event>): seq<Event> {
    if events == [] || events[|events| - 1].TimerFired? then [] else
      SinceTimer(events[..|events| - 1]) + [events[|events| - 1]]
  }

  /** How many chunks wait: those delivered since the timer fired, less every full hundred of them. */
  ghost function Waiting(events: seq<Event>): nat { LessHundreds(|Delivered(SinceTimer(events))|) }

  ghost function LessHundreds(n: nat): nat { if n < 100 then n else LessHundreds(n - 100) }

  /** The event ends an attempt that has come this far. */
  ghost predicate Ends(before: seq<Event>, event: Event) { EndsAt(Waiting(before), event) }

  ghost predicate EndsAt(waiting: nat, event: Event) {
    match event
    case NilError => false
    case TimerFired(txOk) => waiting > 0 && !txOk
    case ChunkReady(_, putOk, txOk) => !putOk || (waiting == 99 && !txOk)
    case Cancelled => true
    case ChunkerFailed => true
    case StreamClosed(_, _) => true
  }

  /** How many chunks wait after one more event that does not end the attempt. */
  function WaitingAfter(waiting: nat, event: Event): nat {
    if event.TimerFired? || waiting + |Arrival(event)| == 100 then 0 else waiting + |Arrival(event)|
  }

  /** The first n events do not end the attempt. */
  ghost predicate GoesOn(events: seq<Event>, n: nat)
    requires n <= |events|
  {
    forall k :: 0 <= k < n ==> !Ends(events[..k], events[k])
  }

  lemma {:induction false} Appended(events: seq<Event>, event: Event)
    ensures Delivered(events + [event]) == Delivered(events) + Arrival(event)
    ensures SinceTimer(events + [event]) == if event.TimerFired? then [] else SinceTimer(events) + [event]
  {
    assert (events + [event])[..|events|] == events;
  }

  lemma WaitingNext(events: seq<Event>, event: Event)
    ensures Waiting(events) < 100 && Waiting(events + [event]) == WaitingAfter(Waiting(events), event)
  {
    Appended(events, event);
    Appended(SinceTimer(events), event);
    OneMore(|Delivered(SinceTimer(events))|);
  }

  lemma {:induction false} OneMore(n: nat)
    ensures LessHundreds(n) < 100 && LessHundreds(n + 1) == if LessHundreds(n) == 99 then 0 else LessHundreds(n) + 1
  {
    if n >= 100 {
      OneMore(n - 100);
    }
  }

  /** The attempt holds what was delivered, and all but what waits is committed. */
  ghost predicate HasTaken(delivered: seq<Chunk>, waiting: nat, p: Progress) {
    p.result.Running? && p.received == delivered && p.committed + waiting == |delivered|
  }

  lemma TakesOneMore(delivered: seq<Chunk>, waiting: nat, event: Event, p: Progress, declared: nat)
    requires HasTaken(delivered, waiting, p) && waiting < 100 && !EndsAt(waiting, event)
    ensures HasTaken(delivered + Arrival(event), WaitingAfter(waiting, event), Taken(p, event, declared))
  {}

  lemma GoesOnBefore(events: seq<Event>, n: nat)
    requires n <= |events| && GoesOn(events, n)
    ensures GoesOn(events[..n], n)
  {
    forall k | 0 <= k < n
      ensures !Ends(events[..n][..k], events[..n][k])
    {
      assert events[..n][..k] == events[..k];
    }
  }

  /** ... as long as nothing has ended it. */
  lemma {:induction false} StillRunning(events: seq<Event>, declared: nat)
    requires GoesOn(events, |events|)
    ensures HasTaken(Delivered(events), Waiting(events), Replay(events, declared))
  {
    if events != [] {
      var init, last := events[..|events| - 1], events[|events| - 1];
      assert init + [last] == events;
      GoesOnBefore(events, |init|);
      StillRunning(init, declared);
      Appended(init, last);
      WaitingNext(init, last);
      TakesOneMore(Delivered(init), Waiting(init), last, Replay(init, declared), declared);
    }
  }

  /** How an event that ends an attempt decides it, given what was delivered before and how much of it waits. */
  ghost predicate EndsSo(delivered: seq<Chunk>, waiting: nat, event: Event, declared: nat, p: Progress) {
    && p.received == delivered + Arrival(event)
    && p.committed == |delivered| - (if event.StreamClosed? && event.batchOk then 0 else waiting)
    && (p.result.Completed? <==>
          && event.StreamClosed? && (event.batchOk || waiting == 0) && event.markOk
          && (declared == 0 || declared == TotalBytes(delivered)))
    && (p.result.Failed? <==> !p.result.Completed?)
  }

  lemma EndDecides(delivered: seq<Chunk>, waiting: nat, event: Event, p: Progress, declared: nat)
    requires HasTaken(delivered, waiting, p) && waiting < 100 && EndsAt(waiting, event)
    ensures EndsSo(delivered, waiting, event, declared, Taken(p, event, declared))
  {}

  /**
   For every sequence of events: the attempt is decided by the first of them that can end it. It is completed exactly if
   that is the end of the stream, the last batch and the final update are committed, and the size declared, if any, is
   that of the chunks delivered; otherwise it has failed.
   */
  lemma FirstEndDecides(events: seq<Event>, n: nat, declared: nat)
    requires n < |events| && GoesOn(events, n) && Ends(events[..n], events[n])
    ensures EndsSo(Delivered(events[..n]), Waiting(events[..n]), events[n], declared, Replay(events, declared))
  {
    var before := events[..n];
    GoesOnBefore(events, n);
    StillRunning(before, declared);
    WaitingNext(before, events[n]);
    EndDecides(Delivered(before), Waiting(before), events[n], Replay(before, declared), declared);
    ReplayNext(events, n, declared);
    ReplayEnds(events, n + 1, declared);
  }

  lemma ReplayNext(events: seq<Event>, n: nat, declared: nat)
    requires n < |events| && Replay(events[..n], declared).result.Running?
    ensures Replay(events[..n + 1], declared) == Taken(Replay(events[..n], declared), events[n], declared)
  {
    assert events[..n + 1][..n] == events[..n];
  }

  /** The row after an attempt: unlocked once it has ended, and with the totals of what was received if it completed. */
  ghost function RowAfter(row: NarFile, received: seq<Chunk>, result: Result): NarFile {
    match result
    case Running => row
    case Failed => row.(chunkingStartedAt := None)
    case Completed => row.(chunkingStartedAt := None, totalChunks := |received|, fileSize := TotalBytes(received))
  }

  /** What an attempt leaves, in columns: its own nar_file and rows, the chunks committed, and nothing else changed. */
  ghost predicate Leaves(t: Tables, file: Id, p: Progress, r: Tables)
    requires file in t.narFiles && p.committed <= |p.received|
  {
    && r == t.(narFiles := t.narFiles[file := RowAfter(t.narFiles[file], p.received, p.result)],
               chunks := t.chunks + ToSet(Hashes(p.received)[..p.committed]), slots := r.slots)
    && (forall s: Slot :: s in r.slots <==> (if s.file == file then s.index < p.committed else s in t.slots))
    && (forall s: Slot :: s in r.slots ==>
          r.slots[s] == if s.file == file then p.received[s.index].hash else t.slots[s])
  }

  lemma AttemptLeaves(t: Tables, file: Id, p: Progress)
    requires file in t.narFiles && NoRows(t, file) && p.committed <= |p.received|
    ensures Leaves(t, file, p, AfterAttempt(t, file, p.received, p.committed, p.result))
  {
    var list := Hashes(p.received[..p.committed]);
    HashesOfPrefix(p.received, p.committed);
    var rows := RecordBatch(t, file, 0, list);
    assert t.narFiles[file := t.narFiles[file]] == t.narFiles;
    assert rows.narFiles == t.narFiles && rows.chunks == t.chunks + ToSet(list);
  }

  /**
   For every order of events, on a nar_file without leftover rows: the rows are the first committed chunks in stream
   order, at most 100 chunks wait, and a completed attempt records all chunks received, how many they are and how many
   bytes they hold, which is the declared size if there is one. Nothing else in the database changes.
   */
  lemma EveryOrderOfEvents(t: Tables, file: Id, events: seq<Event>, declared: nat)
    requires file in t.narFiles && NoRows(t, file)
    ensures var p := Replay(events, declared);
      && p.committed <= |p.received| <= p.committed + 100
      && (p.result.Completed? ==> p.committed == |p.received| && (declared > 0 ==> TotalBytes(p.received) == declared))
      && var r := AfterAttempt(t, file, p.received, p.committed, p.result);
         Leaves(t, file, p, r) && ChunksFrom(r, file, 0) == Hashes(p.received)[..p.committed]
  {
    var p := Replay(events, declared);
    ReplayBounds(events, declared);
    AttemptLeavesPrefix(t, file, p.received, p.committed, p.result);
    AttemptLeaves(t, file, p);
  }

  class Writer {
    var db: Tables
    var chunkFiles: set<Hash>
    const file: Id
    const declared: nat

    constructor (db: Tables, chunkFiles: set<Hash>, file: Id, declared: nat)
      ensures this.db == db && this.chunkFiles == chunkFiles && this.file == file && this.declared == declared
    {
      this.db, this.chunkFiles, this.file, this.declared := db, chunkFiles, file, declared;
    }

    /** recordChunkBatch: one transaction, all or nothing. */
    method RecordChunkBatch(start: nat, batch: seq<Chunk>, txOk: bool) returns (ok: bool)
      requires file in db.narFiles
      modifies this`db
      ensures ok <==> txOk || batch == []
      ensures db == if ok then RecordBatch(old(db), file, start, Hashes(batch)) else old(db)
    {
      if batch == [] {
        RecordNothing(db, file, start);
        return true;
      }
      if !txOk {
        return false;
      }
      var t := db;
      var chunks := t.chunks;
      for i := 0 to |batch|
        invariant chunks == t.chunks + ToSet(Hashes(batch)[..i])
      {
        ToSetOfPrefix(Hashes(batch), i);
        chunks := chunks + {batch[i].hash};
      }
      assert Hashes(batch)[..|batch|] == Hashes(batch);
      var recorded := RecordBatch(t, file, start, Hashes(batch));
      assert chunks == recorded.chunks;
      db := t.(chunks := chunks, slots := recorded.slots);
      return true;
    }

    /** Commit everything received but not yet committed. */
    method Flush(ghost start: Tables, ghost received: seq<Chunk>, committed: nat, batch: seq<Chunk>, txOk: bool)
      returns (ok: bool)
      requires file in start.narFiles && committed <= |received| && batch == received[committed..]
      requires db == RecordBatch(start, file, 0, Hashes(received[..committed]))
      modifies this`db
      ensures ok <==> txOk || committed == |received|
      ensures db == RecordBatch(start, file, 0, Hashes(if ok then received else received[..committed]))
    {
      CommitBatch(start, file, received, committed);
      ok := RecordChunkBatch(committed, batch, txOk);
    }

    /** Between two turns of the loop: the batch is what was received and not yet committed. */
    ghost predicate Between(start: Tables, received: seq<Chunk>, committed: nat, batch: seq<Chunk>, totalSize: nat)
      reads this
    {
      && file in start.narFiles && committed <= |received| && batch == received[committed..] && |batch| < MAX_BATCH
      && totalSize == TotalBytes(received)
      && db == RecordBatch(start, file, 0, Hashes(received[..committed]))
    }

    /** After the loop. */
    ghost predicate Ended(start: Tables, received: seq<Chunk>, committed: nat, result: Result)
      reads this
    {
      && file in start.narFiles && committed <= |received| <= committed + MAX_BATCH
      && db == AfterAttempt(start, file, received, committed, result)
      && (result.Completed? ==> committed == |received| && (declared > 0 ==> TotalBytes(received) == declared))
    }

    method Fail(ghost start: Tables, ghost received: seq<Chunk>, committed: nat)
      requires file in start.narFiles && committed <= |received| <= committed + MAX_BATCH
      requires db == RecordBatch(start, file, 0, Hashes(received[..committed]))
      modifies this`db
      ensures Ended(start, received, committed, Failed)
    {
      db := Unlock(db, file);
    }

    method OnClose(batchOk: bool, markOk: bool, ghost start: Tables, ghost received: seq<Chunk>,
                   committed: nat, batch: seq<Chunk>, totalSize: nat)
      returns (result: Result, committed': nat)
      requires Between(start, received, committed, batch, totalSize)
      modifies this`db
      ensures !result.Running? && Ended(start, received, committed', result)
      ensures Progress(received, committed', result) ==
        Taken(Progress(received, committed, Running), StreamClosed(batchOk, markOk), declared)
    {
      WholeIsPrefix(received);
      var ok := Flush(start, received, committed, batch, batchOk);
      if !ok {
        Fail(start, received, committed);
        return Failed, committed;
      }
      committed' := committed + |batch|;
      if (declared > 0 && totalSize != declared) || !markOk {
        Fail(start, received, committed');
        return Failed, committed';
      }
      db := MarkComplete(db, file, committed', totalSize);
      return Completed, committed';
    }

    /** The turns that only commit: the timer, and the cap on the batch. */
    method OnFlush(txOk: bool, ghost start: Tables, ghost received: seq<Chunk>,
                   committed: nat, batch: seq<Chunk>, totalSize: nat)
      returns (result: Result, committed': nat, batch': seq<Chunk>)
      requires file in start.narFiles && committed <= |received| && batch == received[committed..] && |batch| <= MAX_BATCH
      requires totalSize == TotalBytes(received)
      requires db == RecordBatch(start, file, 0, Hashes(received[..committed]))
      modifies this`db
      ensures Progress(received, committed', result) == Flushed(Progress(received, committed, Running), txOk)
      ensures result.Running? || result.Failed?
      ensures result.Running? ==> Between(start, received, committed', batch', totalSize)
      ensures result.Failed? ==> Ended(start, received, committed', result)
    {
      WholeIsPrefix(received);
      var ok := Flush(start, received, committed, batch, txOk);
      if !ok {
        Fail(start, received, committed);
        return Failed, committed, batch;
      }
      return Running, committed + |batch|, [];
    }

    /** One turn of the select. */
    method Step(event: Event, ghost start: Tables, ghost received: seq<Chunk>,
                committed: nat, batch: seq<Chunk>, totalSize: nat)
      returns (result: Result, ghost received': seq<Chunk>, committed': nat, batch': seq<Chunk>, totalSize': nat)
      requires Between(start, received, committed, batch, totalSize)
      modifies this
      ensures received' == received + Arrival(event)
      ensures Progress(received', committed', result) == Taken(Progress(received, committed, Running), event, declared)
      ensures chunkFiles == old(chunkFiles) + ToSet(Hashes(Arrival(event)))
      ensures if result.Running? then Between(start, received', committed', batch', totalSize')
              else Ended(start, received', committed', result)
    {
      result, received', committed', batch', totalSize' := Running, received, committed, batch, totalSize;
      match event {
        case NilError =>
        case Cancelled =>
          Fail(start, received, committed);
          result := Failed;
        case ChunkerFailed =>
          Fail(start, received, committed);
          result := Failed;
        case TimerFired(txOk) =>
          result, committed', batch' := OnFlush(txOk, start, received, committed, batch, totalSize);
        case StreamClosed(batchOk, markOk) =>
          result, committed' := OnClose(batchOk, markOk, start, received, committed, batch, totalSize);
        case ChunkReady(chunk, putOk, txOk) =>
          if !putOk {
            Fail(start, received, committed);
            result := Failed;
          } else {
            ReceiveOne(received, committed, chunk);
            chunkFiles := chunkFiles + {chunk.hash};
            totalSize' := totalSize + chunk.size;
            received', batch' := received + [chunk], batch + [chunk];
            if |batch'| >= MAX_BATCH {
              result, committed', batch' := OnFlush(txOk, start, received', committed, batch', totalSize');
            }
          }
      }
    }

    /**
     The select loop of storeNarWithCDCFromReader. Whatever the order of events, what is committed is the
     first `committed` of the chunks received, numbered from 0 in stream order, and at most 100 wait.
     */
    method Run(events: seq<Event>) returns (result: Result, taken: nat, committed: nat, ghost received: seq<Chunk>)
      requires file in db.narFiles
      modifies this
      ensures taken <= |events| && received == Delivered(events[..taken])
      ensures Progress(received, committed, result) == Replay(events, declared)
      ensures Ended(old(db), received, committed, result)
      ensures chunkFiles == old(chunkFiles) + ToSet(Hashes(received))
    {
      result, taken, committed, received := Running, 0, 0, [];
      var batch: seq<Chunk>, totalSize := [], 0;
      RecordNothing(db, file, 0);
      while taken < |events| && result.Running?
        invariant taken <= |events| && received == Delivered(events[..taken])
        invariant Progress(received, committed, result) == Replay(events[..taken], declared)
        invariant if result.Running? then Between(old(db), received, committed, batch, totalSize)
                  else Ended(old(db), received, committed, result)
        invariant chunkFiles == old(chunkFiles) + ToSet(Hashes(received))
      {
        DeliveredNext(events, taken);
        HashesConcat(received, Arrival(events[taken]));
        result, received, committed, batch, totalSize :=
          Step(events[taken], old(db), received, committed, batch, totalSize);
        taken := taken + 1;
      }
      ReplayEnds(events, taken, declared);
    }
  }

  lemma WholeIsPrefix<T>(q: seq<T>)
    ensures q[..|q|] == q && q[|q|..] == []
  {}

  lemma {:induction false} DeliveredNext(events: seq<Event>, n: nat)
    requires n < |events|
    ensures Delivered(events[..n + 1]) == Delivered(events[..n]) + Arrival(events[n])
    ensures forall declared :: Replay(events[..n], declared).result.Running? ==>
      Replay(events[..n + 1], declared) == Taken(Replay(events[..n], declared), events[n], declared)
  {
    assert events[..n + 1][..n] == events[..n];
  }

  /** Events after the end change nothing. */
  lemma {:induction false} ReplayEnds(events: seq<Event>, n: nat, declared: nat)
    requires n <= |events| && (n < |events| ==> !Replay(events[..n], declared).result.Running?)
    ensures Replay(events, declared) == Replay(events[..n], declared)
    decreases |events|
  {
    if n == |events| {
      assert events[..n] == events;
    } else {
      var init := events[..|events| - 1];
      assert init[..n] == events[..n];
      ReplayEnds(init, n, declared);
    }
  }

  lemma HashesConcat(a: seq<Chunk>, b: seq<Chunk>)
    ensures ToSet(Hashes(a + b)) == ToSet(Hashes(a)) + ToSet(Hashes(b))
  {
    assert Hashes(a + b) == Hashes(a) + Hashes(b);
  }

  lemma CommitBatch(t: Tables, file: Id, received: seq<Chunk>, committed: nat)
    requires file in t.narFiles && committed <= |received|
    ensures var rows := RecordBatch(t, file, 0, Hashes(received[..committed]));
      && file in rows.narFiles
      && RecordBatch(rows, file, committed, Hashes(received[committed..])) == RecordBatch(t, file, 0, Hashes(received))
    ensures received[..|received|] == received
  {
    var a, b := Hashes(received[..committed]), Hashes(received[committed..]);
    HashesSplit(received, committed);
    RecordTwice(t, file, committed, a, b, Hashes(received));
    WholeIsPrefix(received);
  }

  lemma HashesSplit(chunks: seq<Chunk>, n: nat)
    requires n <= |chunks|
    ensures |Hashes(chunks[..n])| == n && Hashes(chunks[..n]) + Hashes(chunks[n..]) == Hashes(chunks)
  {}

  lemma {:induction false} ReceiveOne(received: seq<Chunk>, committed: nat, chunk: Chunk)
    requires committed <= |received|
    ensures TotalBytes(received + [chunk]) == TotalBytes(received) + chunk.size
    ensures (received + [chunk])[..committed] == received[..committed]
    ensures (received + [chunk])[committed..] == received[committed..] + [chunk]
    ensures ToSet(Hashes([chunk])) == {chunk.hash}
  {
    assert (received + [chunk])[..|received|] == received;
    assert Hashes([chunk]) == [chunk.hash];
  }
}
