/** Runs of the code from the empty installation that break a hypothesis, and what they lead to. */
module Races {
  import opened Collections
  import opened Database
  import opened Repository
  import opened ChunkingProtocol
  import opened ChunkReader
  import opened Cluster
  import opened Scenarios
  import Eviction

  // ---------------------------------------------------------------- a pass takes a chunk that is still to be committed

  /** A row whose bytes are not stored. */
  ghost predicate Dangling(r: Repo, s: Slot) { s in r.db.slots && r.db.slots[s] !in r.chunkFiles }

  /** The chunk is put, fsck finds it stray and removes it, the batch is committed. */
  lemma StrayCheckTakesPendingChunk(env: Env, key: NarKey, size: nat) returns (run: Run)
    requires env.nar(0) != [] && (env.validated(0) ==> 0 < size == Size(env, env.nar(0)))
    ensures Valid(env, run) && Dangling(Last(env, run).shared.repo, Slot(0, 0))
  {
    var h := env.nar(0)[0];
    run := Lock(env, Start, key, size, 1, 0);
    run := Proceed(env, run, Write(0, Put));
    var w := Last(env, run).shared;
    assert w.repo.db.slots == map[] && w.attempts == map[0 := Attempt(1, size, 1, 0, {}, None)];
    run := RemoveStray(env, run, h);
    run := CommitFirst(env, run, size);
  }

  lemma RemoveStray(env: Env, run: Run, h: Hash) returns (more: Run)
    requires Valid(env, run) && Last(env, run).shared.repo.db.slots == map[] && Last(env, run).shared.passes == map[]
    ensures Valid(env, more)
    ensures var w := Last(env, run).shared;
      Last(env, more).shared == w.(repo := w.repo.(chunkFiles := w.repo.chunkFiles - {h}), passes := map[0 := {h}])
  {
    more := Proceed(env, run, Delete(ListUnused(0, {h})));
    more := Proceed(env, more, Delete(RemoveFiles(0, {h})));
  }

  lemma CommitFirst(env: Env, run: Run, size: nat) returns (more: Run)
    requires Valid(env, run) && env.nar(0) != []
    requires var w := Last(env, run).shared;
      && 0 in w.attempts && w.attempts[0] == Attempt(1, size, 1, 0, {}, None) && 0 in w.repo.db.narFiles
      && w.repo.db.slots == map[] && env.nar(0)[0] !in w.repo.chunkFiles
    ensures Valid(env, more) && Dangling(Last(env, more).shared.repo, Slot(0, 0))
  {
    more := Proceed(env, run, Write(0, Commit));
  }

  /** In any state, evicting a chunk that an attempt still has to link, and removing its file, leaves its row dangling. */
  lemma EvictionTakesPendingChunk(env: Env, w: Shared, file: Id, evicted: set<Id>, pass: nat)
    requires Inv(env, w) && file in w.attempts && w.attempts[file].committed < w.attempts[file].received <= |env.nar(file)|
    requires pass !in w.passes && Slot(file, w.attempts[file].committed) !in w.repo.db.slots
    requires var t := Eviction.AfterEviction(w.repo.db, evicted, true);
      file in t.narFiles && env.nar(file)[w.attempts[file].committed] in w.repo.db.chunks - t.chunks
    ensures var h := env.nar(file)[w.attempts[file].committed];
      && Enabled(env, w, Delete(Evict(evicted, pass))) && !Undisturbed(env, w, Delete(Evict(evicted, pass)))
      && var w1 := Apply(env, w, Delete(Evict(evicted, pass)));
         && Enabled(env, w1, Delete(RemoveFiles(pass, {h})))
         && var w2 := Apply(env, w1, Delete(RemoveFiles(pass, {h})));
            && Enabled(env, w2, Write(file, Commit))
            && Dangling(Apply(env, w2, Write(file, Commit)).repo, Slot(file, w.attempts[file].committed))
  {
    EvictionListsPending(env, w, file, evicted, pass);
    var h := env.nar(file)[w.attempts[file].committed];
    var w1 := Apply(env, w, Delete(Evict(evicted, pass)));
    EvictionAddsNoRow(w.repo.db, evicted, Slot(file, w.attempts[file].committed));
    assert {h} <= w1.passes[pass];
    var w2 := Apply(env, w1, Delete(RemoveFiles(pass, {h})));
    CommitDangles(env, w2, file);
  }

  lemma EvictionAddsNoRow(t: Tables, evicted: set<Id>, s: Slot)
    requires Consistent(t) && s !in t.slots
    ensures s !in Eviction.AfterEviction(t, evicted, true).slots
  {
    Eviction.SweepPrunes(DeleteInfos(t, evicted), true);
  }

  lemma EvictionListsPending(env: Env, w: Shared, file: Id, evicted: set<Id>, pass: nat)
    requires WriterInv(env, w) && file in w.attempts && w.attempts[file].committed < w.attempts[file].received
    requires pass !in w.passes
    requires env.nar(file)[w.attempts[file].committed] in
      w.repo.db.chunks - Eviction.AfterEviction(w.repo.db, evicted, true).chunks
    ensures !Undisturbed(env, w, Delete(Evict(evicted, pass)))
  {
    assert AttemptInv(env, w.repo.db, file, w.attempts[file]);
    assert Pending(env, w, env.nar(file)[w.attempts[file].committed]);
  }

  lemma CommitDangles(env: Env, w: Shared, file: Id)
    requires file in w.attempts && file in w.repo.db.narFiles
    requires w.attempts[file].committed < w.attempts[file].received <= |env.nar(file)|
    requires Slot(file, w.attempts[file].committed) !in w.repo.db.slots
    requires env.nar(file)[w.attempts[file].committed] !in w.repo.chunkFiles
    ensures Enabled(env, w, Write(file, Commit))
    ensures Dangling(Apply(env, w, Write(file, Commit)).repo, Slot(file, w.attempts[file].committed))
  {}

  // ---------------------------------------------------------------- an overtaken attempt goes on

  /** An hour after it began, the lock of an attempt is taken over and its rows deleted; then it commits its next chunk. */
  lemma OvertakenAttemptLeavesGap(env: Env, key: NarKey, size: nat) returns (run: Run)
    requires |env.nar(0)| >= 2 && (env.validated(0) ==> 0 < size == Size(env, env.nar(0)))
    ensures Valid(env, run)
    ensures var t := Last(env, run).shared.repo.db;
      Slot(0, 1) in t.slots && Slot(0, 0) !in t.slots && !RowsArePrefix(t, 0, env.nar(0))
  {
    run := FirstChunkStored(env, key, size, 2);
    run := TakeOver(env, run, key, size, 2);
    run := GoOnLate(env, run, size);
  }

  /** The tables after the first chunk of a first attempt, and after its lock is taken over. */
  function OneRow(key: NarKey, size: nat, h: Hash): Tables {
    Tables(map[], map[0 := NarFile(key, size, 0, Some(0), None)], {h}, {}, map[Slot(0, 0) := h], 1)
  }

  function RowGone(key: NarKey, size: nat, h: Hash): Tables {
    Tables(map[], map[0 := NarFile(key, size, 0, Some(LOCK_TTL), None)], {h}, {}, map[], 1)
  }

  lemma FirstChunkStored(env: Env, key: NarKey, size: nat, len: nat) returns (run: Run)
    requires 0 < len <= |env.nar(0)| && (env.validated(0) ==> 0 < size == Size(env, env.nar(0)))
    ensures Careful(env, run)
    ensures var h := env.nar(0)[0];
      Last(env, run).shared == Shared(Repo(OneRow(key, size, h), {}, {h}), map[],
                                      map[0 := Attempt(len, size, 1, 1, {}, None)], {})
  {
    run := Lock(env, Start, key, size, len, 0);
    run := StoreFirst(env, run, 0, len, size);
    FirstStored(env, key, size);
    assert EMPTY.shared.attempts[0 := Attempt(len, size, 1, 1, {}, None)] == map[0 := Attempt(len, size, 1, 1, {}, None)];
  }

  lemma FirstStored(env: Env, key: NarKey, size: nat)
    requires env.nar(0) != []
    ensures var r := EMPTY.shared.repo;
      WithFirstChunk(env, r.(db := WithLocked(r.db, key, size, 0)), 0)
      == Repo(OneRow(key, size, env.nar(0)[0]), {}, {env.nar(0)[0]})
  {
    OnlyFirstRow(WithLocked(EMPTY.shared.repo.db, key, size, 0), 0, env.nar(0));
  }

  lemma TakeOver(env: Env, run: Run, key: NarKey, size: nat, len: nat) returns (more: Run)
    requires Valid(env, run) && 0 < len <= |env.nar(0)| && (env.validated(0) ==> 0 < size == Size(env, env.nar(0)))
    requires Last(env, run).shared.repo.db == OneRow(key, size, env.nar(0)[0])
    ensures Valid(env, more) && (Careful(env, run) ==> Careful(env, more))
    ensures var w, h := Last(env, run).shared, env.nar(0)[0];
      Last(env, more).shared == w.(
        repo := w.repo.(db := RowGone(key, size, h)),
        attempts := w.attempts[0 := Attempt(len, size, 0, 0, {h}, None)],
        overtaken := w.overtaken + (if 0 in w.attempts then {Late(0, w.attempts[0])} else {}))
  {
    TakenOver(key, size, env.nar(0)[0]);
    more := Proceed(env, run, Begin(0, key, size, len, LOCK_TTL));
  }

  lemma TakenOver(key: NarKey, size: nat, h: Hash)
    ensures var t := OneRow(key, size, h);
      && CreateNarFile(t, key, size) == t && FilesWithKey(t, key) == {0} && MayStart(t.narFiles[0], LOCK_TTL)
      && StaleChunks(t, 0) == {h} && Locked(t, 0, size, LOCK_TTL) == RowGone(key, size, h)
  {
    var t := OneRow(key, size, h);
    assert 0 in FilesWithKey(t, key);
    OnlyRow(t, h);
    assert DeleteSlots(t, 0).slots == map[];
  }

  lemma OnlyRow(t: Tables, h: Hash)
    requires t.slots == map[Slot(0, 0) := h]
    ensures ChunksFrom(t, 0, 0) == [h] && ToSet(ChunksFrom(t, 0, 0)) == {h}
  {
    assert ChunkIndices(t, 0, 0) == {0};
    assert Ascending({0}) == [0];
    assert ChunksFrom(t, 0, 0) == [h];
  }

  lemma GoOnLate(env: Env, run: Run, size: nat) returns (more: Run)
    requires Valid(env, run) && |env.nar(0)| >= 2
    requires var w := Last(env, run).shared;
      Late(0, Attempt(2, size, 1, 1, {}, None)) in w.overtaken && w.repo.db.slots == map[] && 0 in w.repo.db.narFiles
    ensures Valid(env, more)
    ensures var t := Last(env, more).shared.repo.db;
      Slot(0, 1) in t.slots && Slot(0, 0) !in t.slots && !RowsArePrefix(t, 0, env.nar(0))
  {
    more := Proceed(env, run, WriteLate(Late(0, Attempt(2, size, 1, 1, {}, None)), Put));
    assert Late(0, Attempt(2, size, 2, 1, {}, None)) in Last(env, more).shared.overtaken;
    more := CommitLate(env, more, size);
  }

  lemma CommitLate(env: Env, run: Run, size: nat) returns (more: Run)
    requires Valid(env, run) && |env.nar(0)| >= 2
    requires var w := Last(env, run).shared;
      Late(0, Attempt(2, size, 2, 1, {}, None)) in w.overtaken && w.repo.db.slots == map[] && 0 in w.repo.db.narFiles
    ensures Valid(env, more)
    ensures var t := Last(env, more).shared.repo.db;
      Slot(0, 1) in t.slots && Slot(0, 0) !in t.slots && !RowsArePrefix(t, 0, env.nar(0))
  {
    more := Proceed(env, run, WriteLate(Late(0, Attempt(2, size, 2, 1, {}, None)), Commit));
  }

  // ---------------------------------------------------------------- a listed chunk is put and committed

  /** Nothing is pending when the stale chunk is listed nor when its record is deleted; the delete leaves a gap. */
  ghost predicate LosesARow(env: Env, listing: Run, deleting: Run, run: Run)
    requires env.nar(0) != []
  {
    && Careful(env, listing) && Enabled(env, Last(env, listing).shared, CleanupStale(0, 0))
    && (forall h :: !Pending(env, Last(env, listing).shared, h))
    && Valid(env, deleting) && Extends(deleting, Run.Then(listing, Back(CleanupStale(0, 0))))
    && (forall h :: !Pending(env, Last(env, deleting).shared, h))
    && run == Run.Then(deleting, Back(Delete(DropRecords(0, {env.nar(0)[0]})))) && Valid(env, run)
    && !RowsArePrefix(Last(env, run).shared.repo.db, 1, env.nar(1))
  }

  /**
   A takeover lists the chunk of the stale rows. Before it deletes the record, another attempt stores and commits
   the same chunk. Nothing is pending when the chunk is listed, nor when its record is deleted, yet the delete
   cascades to a committed row and leaves a gap.
   */
  lemma CleanupTakesCommittedRow(env: Env, k0: NarKey, k1: NarKey, size0: nat, size1: nat)
    returns (listing: Run, deleting: Run, run: Run)
    requires |env.nar(0)| >= 1 && |env.nar(1)| >= 2 && env.nar(0)[0] == env.nar(1)[0] != env.nar(1)[1] && k0 != k1
    requires env.validated(0) ==> 0 < size0 == Size(env, env.nar(0))
    requires env.validated(1) ==> 0 < size1 == Size(env, env.nar(1))
    ensures LosesARow(env, listing, deleting, run)
  {
    listing := StaleAttempt(env, k0, size0);
    deleting := ListStale(env, listing, k0, size0);
    deleting := StoreBoth(env, deleting, Run.Then(listing, Back(CleanupStale(0, 0))), k0, k1, size0, size1);
    run := DropVictim(env, deleting);
  }

  ghost function Cleaning(env: Env, key: NarKey, size: nat, listed: bool): Shared
    requires env.nar(0) != []
  {
    var h := env.nar(0)[0];
    Shared(Repo(RowGone(key, size, h), {}, {h}),
           if listed then map[0 := {h}] else map[],
           map[0 := Attempt(1, size, 0, 0, if listed then {} else {h}, if listed then Some(0) else None)], {})
  }

  lemma StaleAttempt(env: Env, key: NarKey, size: nat) returns (run: Run)
    requires env.nar(0) != [] && (env.validated(0) ==> 0 < size == Size(env, env.nar(0)))
    ensures Careful(env, run) && Last(env, run).shared == Cleaning(env, key, size, false)
    ensures forall h :: !Pending(env, Last(env, run).shared, h)
  {
    run := FirstChunkStored(env, key, size, 1);
    run := Proceed(env, run, Crash(0));
    assert Last(env, run).shared.attempts == map[];
    run := TakeOver(env, run, key, size, 1);
    CommittedIsQuiet(env, Last(env, run).shared);
  }

  lemma ListStale(env: Env, run: Run, key: NarKey, size: nat) returns (more: Run)
    requires env.nar(0) != [] && Careful(env, run) && Last(env, run).shared == Cleaning(env, key, size, false)
    ensures Enabled(env, Last(env, run).shared, CleanupStale(0, 0))
    ensures more == Run.Then(run, Back(CleanupStale(0, 0))) && Valid(env, more)
    ensures Last(env, more).shared == Cleaning(env, key, size, true)
  {
    Listed(env, key, size);
    more := Proceed(env, run, CleanupStale(0, 0));
  }

  lemma Listed(env: Env, key: NarKey, size: nat)
    requires env.nar(0) != []
    ensures Enabled(env, Cleaning(env, key, size, false), CleanupStale(0, 0))
    ensures Apply(env, Cleaning(env, key, size, false), CleanupStale(0, 0)) == Cleaning(env, key, size, true)
  {
    var h, w := env.nar(0)[0], Cleaning(env, key, size, false);
    assert {h} * OrphanChunks(w.repo.db) == {h};
  }

  ghost predicate BothCommitted(env: Env, w: Shared)
    requires env.nar(0) != [] && |env.nar(1)| >= 2
  {
    && w.repo.db.slots == map[Slot(1, 0) := env.nar(1)[0], Slot(1, 1) := env.nar(1)[1]]
    && w.passes == map[0 := {env.nar(0)[0]}]
    && (forall f :: f in w.attempts ==> w.attempts[f].committed == w.attempts[f].received)
  }

  lemma StoreBoth(env: Env, run: Run, from: Run, k0: NarKey, k1: NarKey, size0: nat, size1: nat) returns (more: Run)
    requires env.nar(0) != [] && |env.nar(1)| >= 2 && k0 != k1
    requires env.validated(1) ==> 0 < size1 == Size(env, env.nar(1))
    requires Valid(env, run) && Extends(run, from) && Last(env, run).shared == Cleaning(env, k0, size0, true)
    ensures Valid(env, more) && Extends(more, from) && BothCommitted(env, Last(env, more).shared)
    ensures forall h :: !Pending(env, Last(env, more).shared, h)
  {
    more := StoreVictim(env, run, from, k0, k1, size0, size1);
    more := StoreSecond(env, more, size1);
    CommittedIsQuiet(env, Last(env, more).shared);
  }

  lemma StoreVictim(env: Env, run: Run, from: Run, k0: NarKey, k1: NarKey, size0: nat, size1: nat) returns (more: Run)
    requires env.nar(0) != [] && |env.nar(1)| >= 2 && k0 != k1
    requires env.validated(1) ==> 0 < size1 == Size(env, env.nar(1))
    requires Valid(env, run) && Extends(run, from) && Last(env, run).shared == Cleaning(env, k0, size0, true)
    ensures Valid(env, more) && Extends(more, from)
    ensures var w := Last(env, more).shared;
      && w.repo.db.slots == map[Slot(1, 0) := env.nar(1)[0]] && 1 in w.repo.db.narFiles
      && w.passes == map[0 := {env.nar(0)[0]}]
      && w.attempts == Cleaning(env, k0, size0, true).attempts[1 := Attempt(2, size1, 1, 1, {}, None)]
  {
    var w := Cleaning(env, k0, size0, true);
    NewKey(env, k0, k1, size0);
    more := Lock(env, run, k1, size1, 2, LOCK_TTL);
    more := StoreVictimNow(env, more, w.attempts, size1);
  }

  lemma StoreVictimNow(env: Env, run: Run, others: map<Id, Attempt>, size: nat) returns (more: Run)
    requires Valid(env, run) && |env.nar(1)| >= 2
    requires var w := Last(env, run).shared;
      && w.attempts == others[1 := Attempt(2, size, 0, 0, {}, None)]
      && 1 in w.repo.db.narFiles && w.repo.db.slots == map[]
    ensures Valid(env, more) && forall r :: Extends(run, r) ==> Extends(more, r)
    ensures var w := Last(env, more).shared;
      && w.repo.db.slots == map[Slot(1, 0) := env.nar(1)[0]] && 1 in w.repo.db.narFiles
      && w.passes == Last(env, run).shared.passes
      && w.attempts == others[1 := Attempt(2, size, 1, 1, {}, None)]
  {
    OnlyFirstRow(Last(env, run).shared.repo.db, 1, env.nar(1));
    more := StoreFirst(env, run, 1, 2, size);
  }

  lemma NewKey(env: Env, k0: NarKey, k1: NarKey, size: nat)
    requires env.nar(0) != [] && k0 != k1
    ensures var t := Cleaning(env, k0, size, true).repo.db;
      Consistent(t) && FilesWithKey(t, k1) == {} && t.nextFile == 1 && t.slots == map[]
  {}

  lemma CommittedIsQuiet(env: Env, w: Shared)
    requires forall f :: f in w.attempts ==> w.attempts[f].committed == w.attempts[f].received
    ensures forall h :: !Pending(env, w, h)
  {}

  lemma StoreSecond(env: Env, run: Run, size: nat) returns (more: Run)
    requires Valid(env, run) && |env.nar(1)| >= 2
    requires var w := Last(env, run).shared;
      && 1 in w.attempts && w.attempts[1] == Attempt(2, size, 1, 1, {}, None) && 1 in w.repo.db.narFiles
      && w.repo.db.slots == map[Slot(1, 0) := env.nar(1)[0]]
    ensures Valid(env, more) && forall r :: Extends(run, r) ==> Extends(more, r)
    ensures var w, w' := Last(env, run).shared, Last(env, more).shared;
      && w'.repo.db.slots == map[Slot(1, 0) := env.nar(1)[0], Slot(1, 1) := env.nar(1)[1]]
      && w'.passes == w.passes && w'.attempts == w.attempts[1 := Attempt(2, size, 2, 2, {}, None)]
  {
    var w := Last(env, run).shared;
    more := Proceed(env, run, Write(1, Put));
    var w1 := Last(env, more).shared;
    assert w1.attempts[1] == Attempt(2, size, 2, 1, {}, None) && w1.repo.db == w.repo.db;
    SecondRow(w.repo.db, env.nar(1));
    more := Proceed(env, more, Write(1, Commit));
    assert w1.attempts[1 := Attempt(2, size, 2, 2, {}, None)] == w.attempts[1 := Attempt(2, size, 2, 2, {}, None)];
  }

  lemma SecondRow(t: Tables, list: seq<Hash>)
    requires |list| >= 2 && 1 in t.narFiles && t.slots == map[Slot(1, 0) := list[0]]
    ensures RecordBatch(t, 1, 1, list[1..2]).slots == map[Slot(1, 0) := list[0], Slot(1, 1) := list[1]]
  {}

  lemma OnlyFirstRow(t: Tables, file: Id, list: seq<Hash>)
    requires list != [] && file in t.narFiles && t.slots == map[]
    ensures RecordBatch(t, file, 0, list[0..1]).slots == map[Slot(file, 0) := list[0]]
    ensures RecordBatch(t, file, 0, list[0..1]).chunks == t.chunks + {list[0]}
  {
    assert list[0..1] == [list[0]];
  }

  lemma DropVictim(env: Env, run: Run) returns (more: Run)
    requires env.nar(0) != [] && |env.nar(1)| >= 2 && env.nar(0)[0] == env.nar(1)[0] != env.nar(1)[1]
    requires Valid(env, run) && BothCommitted(env, Last(env, run).shared)
    ensures more == Run.Then(run, Back(Delete(DropRecords(0, {env.nar(0)[0]})))) && Valid(env, more)
    ensures !RowsArePrefix(Last(env, more).shared.repo.db, 1, env.nar(1))
  {
    RowsAfterDrop(Last(env, run).shared.repo.db, env.nar(1));
    more := Proceed(env, run, Delete(DropRecords(0, {env.nar(0)[0]})));
  }

  lemma RowsAfterDrop(t: Tables, list: seq<Hash>)
    requires |list| >= 2 && list[0] != list[1]
    requires t.slots == map[Slot(1, 0) := list[0], Slot(1, 1) := list[1]]
    ensures !RowsArePrefix(DeleteChunks(t, {list[0]}), 1, list)
  {
    var u := DeleteChunks(t, {list[0]});
    assert Slot(1, 1) in u.slots && Slot(1, 0) !in u.slots;
  }

  // ---------------------------------------------------------------- successes that are not the whole NAR

  lemma Turn(env: Env, run: Run, id: nat, m: Move) returns (more: Run)
    requires Careful(env, run) && id in Last(env, run).readers && MoveEnabled(env, Last(env, run).readers[id], m)
    ensures Careful(env, more)
    ensures var w := Last(env, run);
      Last(env, more) == w.(readers := w.readers[id := Moved(env, w.shared.repo, w.readers[id], m)])
  {
    more := Run.Then(run, Front(id, m));
  }

  /** A NAR of which one chunk was streamed is complete, and a reader has found that chunk. */
  lemma ReaderAtFirst(env: Env, key: NarKey, size: nat) returns (run: Run)
    requires NoEmptyChunks(env) && env.nar(0) != []
    requires env.validated(0) || size > 0 ==> 0 < size == Size(env, env.nar(0)) && |env.nar(0)| == 1
    ensures Careful(env, run) && 0 in Last(env, run).readers && env.nar(0)[0] in Last(env, run).shared.repo.chunkFiles
    ensures Last(env, run).readers[0] == Reader(0, Feed([env.nar(0)[0]]), 0, 1, [], false, 0, [], Reading, true)
  {
    run := FirstComplete(env, key, size);
    run := OpenFirst(env, run);
    run := Turn(env, run, 0, Produce(true, false));
  }

  lemma FirstComplete(env: Env, key: NarKey, size: nat) returns (run: Run)
    requires NoEmptyChunks(env) && env.nar(0) != []
    requires env.validated(0) || size > 0 ==> 0 < size == Size(env, env.nar(0)) && |env.nar(0)| == 1
    ensures Careful(env, run) && Last(env, run).readers == map[]
    ensures var r := Last(env, run).shared.repo;
      && 0 in r.db.narFiles && r.db.narFiles[0].totalChunks == 1
      && ChunksFrom(r.db, 0, 0) == [env.nar(0)[0]] && env.nar(0)[0] in r.chunkFiles
  {
    run := ChunkNar(env, Start, key, size);
    RunKeepsInv(env, run);
    var t := Last(env, run).shared.repo.db;
    assert t.slots == map[Slot(0, 0) := env.nar(0)[0]];
    assert Slot(0, 0) in t.slots;
    OnlyRow(t, env.nar(0)[0]);
  }

  lemma OpenFirst(env: Env, run: Run) returns (more: Run)
    requires Careful(env, run) && 0 !in Last(env, run).readers && 0 in Last(env, run).shared.repo.db.narFiles
    requires Last(env, run).shared.repo.db.narFiles[0].totalChunks == 1
    ensures Careful(env, more) && Last(env, more).shared == Last(env, run).shared && 0 in Last(env, more).readers
    ensures Last(env, more).readers[0] == Reader(0, QueryAll, 0, 1, [], false, 0, [], Reading, true)
  {
    more := Run.Then(run, OpenReader(0, 0));
  }

  /** The reader is cancelled while it feeds the channel, stops without a word, and reports success on nothing. */
  lemma SilentCancelTruncates(env: Env, key: NarKey, size: nat) returns (run: Run)
    requires NoEmptyChunks(env) && |env.nar(0)| == 1 && size == Size(env, env.nar(0)) > 0
    ensures Careful(env, run) && 0 in Last(env, run).readers
    ensures var r := Last(env, run).readers[0];
      r.status.Finished? && r.cancelled && r.out != Flatten(env, env.nar(r.file))
  {
    run := ReaderAtFirst(env, key, size);
    run := Turn(env, run, 0, Cancel);
    run := Turn(env, run, 0, StopOnCancel(true));
    run := Turn(env, run, 0, Move.Finish);
    RunKeepsInv(env, run);
    SuccessIsWholeIff(env, Last(env, run).readers[0]);
  }

  /** Without a declared size, a stream that ends after its first chunk is recorded as complete and read as such. */
  lemma TruncatedTotalTruncates(env: Env, key: NarKey) returns (run: Run)
    requires NoEmptyChunks(env) && |env.nar(0)| >= 2 && !env.validated(0)
    ensures Careful(env, run) && 0 in Last(env, run).readers
    ensures var r := Last(env, run).readers[0];
      r.status.Finished? && !r.cancelled && r.out != Flatten(env, env.nar(r.file))
  {
    run := ReaderAtFirst(env, key, 0);
    var h := env.nar(0)[0];
    CopyMoves(env, Last(env, run).shared.repo, h);
    EndMoves(env, Last(env, run).shared.repo, h);
    run := Turn(env, run, 0, Produce(true, false));
    run := Turn(env, run, 0, Consume);
    run := Turn(env, run, 0, Produce(true, false));
    run := Turn(env, run, 0, Move.Finish);
    RunKeepsInv(env, run);
    SuccessIsWholeIff(env, Last(env, run).readers[0]);
  }

  lemma CopyMoves(env: Env, repo: Repo, h: Hash)
    requires h in repo.chunkFiles
    ensures var r0 := Reader(0, Feed([h]), 0, 1, [], false, 0, [], Reading, true);
      var r1 := Reader(0, Feed([]), 1, 1, [Data(h)], false, 0, [], Reading, true);
      var r2 := Reader(0, Feed([]), 1, 1, [], false, 1, env.content(h), Reading, true);
      && Moved(env, repo, r0, Produce(true, false)) == r1
      && MoveEnabled(env, r1, Consume) && Moved(env, repo, r1, Consume) == r2
  {
    assert [h][1..] == [] && [Data(h)][1..] == [];
    assert [] + [Data(h)] == [Data(h)] && [] + env.content(h) == env.content(h);
  }

  lemma EndMoves(env: Env, repo: Repo, h: Hash)
    ensures var r2 := Reader(0, Feed([]), 1, 1, [], false, 1, env.content(h), Reading, true);
      var r3 := Reader(0, Stopped(StreamedAll), 1, 1, [], false, 1, env.content(h), Reading, true);
      && Moved(env, repo, r2, Produce(true, false)) == r3
      && MoveEnabled(env, r3, Move.Finish) && Moved(env, repo, r3, Move.Finish) == r3.(status := Finished)
  {}
}
