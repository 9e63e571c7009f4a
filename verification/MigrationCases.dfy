/** Runs of the migration, from a NAR that is stored whole and not yet migrated, in which it comes to harm. */
module MigrationCases {
  import opened Collections
  import opened Database
  import opened Repository
  import opened ChunkingProtocol
  import opened Migration
  import opened MigrationLinks
  import Fsck
  import Scenarios

  /** The state when the last copy is gone: no whole file, and the chunks are not the NAR. */
  ghost predicate Lost(env: Env, r: Repo, k: NarKey, f: Id) {
    k !in r.nars && IsChunkedFile(r.db, f, k) && !Intact(env, r, f)
  }

  /** Where the whole file is found, the run stores it next. */
  lemma CheckFindsFile(env: Env, run: Run, k: NarKey) returns (more: Run)
    requires NoEmptyChunks(env) && Valid(env, run, k) && Unmigrated(env, First(run), k)
    requires Last(env, run, k).pc.Idle? && k in Last(env, run, k).w.repo.nars && PastOf(env, run, k).finished == 0
    ensures Valid(env, more, k) && First(more) == First(run) && PastOf(env, more, k) == PastOf(env, run, k)
    ensures Last(env, more, k) == Last(env, run, k).(pc := Storing)
  {
    RunKeepsMigration(env, run, k);
    NotYetChunked(env, Last(env, run, k), k, PastOf(env, run, k));
    more := GoOn(env, run, k, Check);
  }

  lemma NotYetChunked(env: Env, s: State, k: NarKey, p: Past)
    requires MigrationInv(env, s, k, p) && p.finished == 0
    ensures !HasChunks(s.w.repo.db, k)
  {
    if HasChunks(s.w.repo.db, k) {
      LookupFindsChunked(s.w.repo.db, k);
      ChunkedIffFinished(s, k, p);
    }
  }

  /** From the cleanup on: rename, remove. */
  lemma CleanUp(env: Env, run: Run, k: NarKey) returns (more: Run)
    requires Valid(env, run, k) && Last(env, run, k).pc.Renaming?
    ensures Valid(env, more, k) && First(more) == First(run)
    ensures PastOf(env, more, k) == PastOf(env, run, k).(renamed := true)
    ensures Last(env, more, k).w.repo == Cleanup(Last(env, run, k).w.repo, k)
  {
    more := GoOn(env, run, k, RenameTx);
    more := GoOn(env, more, k, RemoveFile);
  }

  lemma CleanupRemoves(r: Repo, k: NarKey)
    ensures k !in Cleanup(r, k).nars && Cleanup(r, k).db.narFiles == r.db.narFiles
  {}

  // ---------------------------------------------------------------- the exit for a locked, unfinished nar_file

  /**
   The whole file is found while somebody's lock on the unfinished nar_file is fresh: another attempt's, or the
   run's own from before a crash. The code takes it for done, and cleans up.
   */
  lemma FreshLockLosesNar(env: Env, run: Run, k: NarKey, f: Id, now: nat) returns (more: Run)
    requires NoEmptyChunks(env) && Valid(env, run, k) && Unmigrated(env, First(run), k)
    requires Last(env, run, k).pc.Idle? && k in Last(env, run, k).w.repo.nars && PastOf(env, run, k).finished == 0
    requires var t := Last(env, run, k).w.repo.db; IsChunkedFile(t, f, k) && !MayStart(t.narFiles[f], now)
    requires env.nar(f) != []
    ensures Valid(env, more, k) && First(more) == First(run)
    ensures PastOf(env, more, k).streamed == PastOf(env, run, k).streamed && PastOf(env, more, k).gaveUp
    ensures Lost(env, Last(env, more, k).w.repo, k, f)
  {
    more := CheckFindsFile(env, run, k);
    RunKeepsMigration(env, more, k);
    ChunkedIffFinished(Last(env, more, k), k, PastOf(env, more, k));
    more := GoOn(env, more, k, AlreadyExists(now));
    CleanupRemoves(Last(env, more, k).w.repo, k);
    more := CleanUp(env, more, k);
    GoneIsLost(env, more, k, f);
  }

  lemma GoneIsLost(env: Env, run: Run, k: NarKey, f: Id)
    requires NoEmptyChunks(env) && Valid(env, run, k) && Unmigrated(env, First(run), k)
    requires k !in Last(env, run, k).w.repo.nars && IsChunkedFile(Last(env, run, k).w.repo.db, f, k)
    requires PastOf(env, run, k).finished != |env.nar(f)|
    ensures Lost(env, Last(env, run, k).w.repo, k, f)
  {
    var g := WholeFileGoneIsChunkedIff(env, run, k);
    RunKeepsMigration(env, run, k);
  }

  /** A crash while the whole stream is being chunked, and a rerun within the hour: the only copy is deleted. */
  lemma CrashThenRerunLosesNar(env: Env, s: State, k: NarKey, now: nat, later: nat) returns (run: Run)
    requires NoEmptyChunks(env) && Unmigrated(env, s, k) && FilesWithKey(s.w.repo.db, ChunkedKey(k)) == {}
    requires var f := s.w.repo.db.nextFile; env.nar(f) != [] && !env.validated(f)
    requires now <= later < now + LOCK_TTL
    ensures Valid(env, run, k) && First(run) == s
    ensures PastOf(env, run, k).streamed == |env.nar(s.w.repo.db.nextFile)|
    ensures Lost(env, Last(env, run, k).w.repo, k, s.w.repo.db.nextFile)
  {
    var f := s.w.repo.db.nextFile;
    run := StartStream(env, s, k, |env.nar(f)|, now);
    run := GoOn(env, run, k, Event.Crash);
    run := FreshLockLosesNar(env, run, k, f, later);
  }

  /** A stream over the uncompressed form is begun for the first time. */
  lemma StartStream(env: Env, s: State, k: NarKey, len: nat, now: nat) returns (run: Run)
    requires NoEmptyChunks(env) && Unmigrated(env, s, k) && FilesWithKey(s.w.repo.db, ChunkedKey(k)) == {}
    requires var f := s.w.repo.db.nextFile; len <= |env.nar(f)| && !env.validated(f)
    ensures Valid(env, run, k) && First(run) == s
    ensures PastOf(env, run, k) == Past(len, 0, false, false, false, false)
    ensures var f, w := s.w.repo.db.nextFile, s.w;
      Last(env, run, k) == State(w.(repo := w.repo.(db := Scenarios.WithLocked(w.repo.db, ChunkedKey(k), 0, now)),
                                    attempts := map[f := Attempt(len, 0, 0, 0, {}, None)]), Chunking(f))
  {
    var f := s.w.repo.db.nextFile;
    Scenarios.BeginNew(s.w.repo.db, ChunkedKey(k), 0, now);
    run := CheckFindsFile(env, Begun(s), k);
    run := GoOn(env, run, k, Lock(f, len, now));
    assert map[][f := Attempt(len, 0, 0, 0, {}, None)] == map[f := Attempt(len, 0, 0, 0, {}, None)];
  }

  // ---------------------------------------------------------------- a truncated stream

  /** A stream that breaks off after its first chunk is recorded as complete, and the only whole copy is deleted. */
  lemma TruncatedStreamLosesNar(env: Env, s: State, k: NarKey, now: nat) returns (run: Run)
    requires NoEmptyChunks(env) && Unmigrated(env, s, k) && FilesWithKey(s.w.repo.db, ChunkedKey(k)) == {}
    requires var f := s.w.repo.db.nextFile; |env.nar(f)| >= 2 && !env.validated(f)
    ensures Valid(env, run, k) && First(run) == s && !PastOf(env, run, k).gaveUp
    ensures Lost(env, Last(env, run, k).w.repo, k, s.w.repo.db.nextFile)
  {
    var f := s.w.repo.db.nextFile;
    run := StartStream(env, s, k, 1, now);
    run := StreamOne(env, run, k, f);
    run := EndNow(env, run, k, f);
    GoneIsLost(env, run, k, f);
  }

  lemma EndNow(env: Env, run: Run, k: NarKey, f: Id) returns (more: Run)
    requires NoEmptyChunks(env) && Valid(env, run, k) && Unmigrated(env, First(run), k)
    requires Last(env, run, k).pc == Relinking(f)
    ensures Valid(env, more, k) && First(more) == First(run)
    ensures k !in Last(env, more, k).w.repo.nars && IsChunkedFile(Last(env, more, k).w.repo.db, f, k)
    ensures PastOf(env, more, k).finished == PastOf(env, run, k).finished
    ensures PastOf(env, more, k).gaveUp == PastOf(env, run, k).gaveUp
  {
    RelinkingRow(env, run, k, f);
    more := RelinkNow(env, run, k, f);
    CleanupKeepsRow(Last(env, more, k).w.repo, k, f);
    more := CleanUp(env, more, k);
  }

  lemma CleanupKeepsRow(r: Repo, k: NarKey, f: Id)
    requires IsChunkedFile(r.db, f, k)
    ensures k !in Cleanup(r, k).nars && IsChunkedFile(Cleanup(r, k).db, f, k)
  {}

  lemma RelinkingRow(env: Env, run: Run, k: NarKey, f: Id)
    requires NoEmptyChunks(env) && Valid(env, run, k) && Unmigrated(env, First(run), k)
    requires Last(env, run, k).pc == Relinking(f)
    ensures k.compression != NONE && IsChunkedFile(Last(env, run, k).w.repo.db, f, k)
  {
    RunKeepsMigration(env, run, k);
  }

  lemma StreamOne(env: Env, run: Run, k: NarKey, f: Id) returns (more: Run)
    requires Valid(env, run, k) && PastOf(env, run, k) == Past(1, 0, false, false, false, false) && |env.nar(f)| >= 2
    requires var s := Last(env, run, k);
      && s.pc == Chunking(f) && s.w.passes == map[] && f in s.w.repo.db.narFiles
      && f in s.w.attempts && s.w.attempts[f] == Attempt(1, 0, 0, 0, {}, None)
    ensures Valid(env, more, k) && First(more) == First(run)
    ensures PastOf(env, more, k) == Past(1, 1, false, false, false, false) && Last(env, more, k).pc == Relinking(f)
  {
    more := GoOn(env, run, k, Work(Write(f, Put)));
    assert Last(env, more, k).w.attempts[f] == Attempt(1, 0, 1, 0, {}, None);
    more := GoOn(env, more, k, Work(Write(f, Commit)));
    assert Last(env, more, k).w.attempts[f] == Attempt(1, 0, 1, 1, {}, None);
    more := GoOn(env, more, k, Finished);
  }

  lemma RelinkNow(env: Env, run: Run, k: NarKey, f: Id) returns (more: Run)
    requires Valid(env, run, k) && Last(env, run, k).pc == Relinking(f)
    requires k.compression != NONE && IsChunkedFile(Last(env, run, k).w.repo.db, f, k)
    ensures Valid(env, more, k) && First(more) == First(run) && Last(env, more, k).pc.Renaming?
    ensures PastOf(env, more, k) == Remembered(PastOf(env, run, k), Last(env, run, k).w.repo.db, k, RelinkTx)
    ensures IsChunkedFile(Last(env, more, k).w.repo.db, f, k)
  {
    RelinkKeepsFile(Last(env, run, k).w.repo.db, f, k);
    more := GoOn(env, run, k, RelinkTx);
  }

  lemma RelinkKeepsFile(t: Tables, f: Id, k: NarKey)
    requires k.compression != NONE && IsChunkedFile(t, f, k)
    ensures t.narFiles[f].key != k && IsChunkedFile(Relinked(t, f, k), f, k)
  {}

  // ---------------------------------------------------------------- a narinfo is left behind

  /**
   The relink is skipped, by a crash before it or because its transaction fails; whatever comes first, the cleanup is
   done. The narinfo keeps its link to the old nar_file, which then has neither file nor chunks.
   */
  lemma SkippedRelinkStrandsNarInfo(env: Env, run: Run, k: NarKey, info: Id, whole: Id, crash: bool) returns (more: Run)
    requires NoEmptyChunks(env) && Valid(env, run, k) && Unmigrated(env, First(run), k)
    requires NamesOld(First(run).w.repo.db, k, info, whole)
    requires Last(env, run, k).pc.Relinking? && PastOf(env, run, k).finished > 0
    requires !PastOf(env, run, k).relinked && !PastOf(env, run, k).unlinked
    ensures Valid(env, more, k) && First(more) == First(run)
    ensures var r := Last(env, more, k).w.repo; FilesOf(r.db, info) == {whole} && whole in Fsck.MissingFiles(r)
  {
    more := SkipRelink(env, run, k, crash);
    CleanupRemoves(Last(env, more, k).w.repo, k);
    more := CleanUp(env, more, k);
    RunKeepsLinks(env, more, k, info, whole);
    RunKeepsMigration(env, more, k);
  }

  lemma SkipRelink(env: Env, run: Run, k: NarKey, crash: bool) returns (more: Run)
    requires NoEmptyChunks(env) && Valid(env, run, k) && Unmigrated(env, First(run), k)
    requires Last(env, run, k).pc.Relinking? && PastOf(env, run, k).finished > 0
    ensures Valid(env, more, k) && First(more) == First(run) && PastOf(env, more, k) == PastOf(env, run, k)
    ensures Last(env, more, k).pc.Renaming?
  {
    if crash {
      more := GoOn(env, run, k, Event.Crash);
      RunKeepsMigration(env, more, k);
      FinishedIsFound(env, Last(env, more, k), k, PastOf(env, more, k));
      more := GoOn(env, more, k, Check);
    } else {
      more := GoOn(env, run, k, RelinkFails);
    }
  }

  lemma FinishedIsFound(env: Env, s: State, k: NarKey, p: Past)
    requires MigrationInv(env, s, k, p) && p.finished > 0
    ensures HasChunks(s.w.repo.db, k)
  {
    ChunkedIffFinished(s, k, p);
    RenameKeepsChunked(s.w.repo, k);
  }

  /**
   A crash after a rename that followed the exit for a locked nar_file, and a migration that later succeeds: its relink looks
   for the old URL, finds no narinfo, and deletes the old nar_file with the only link.
   */
  lemma RelinkAfterRenameUnlinks(env: Env, s: State, k: NarKey, info: Id, whole: Id, now: nat) returns (run: Run)
    requires NoEmptyChunks(env) && Unmigrated(env, s, k) && FilesWithKey(s.w.repo.db, ChunkedKey(k)) == {}
    requires NamesOld(s.w.repo.db, k, info, whole) && !env.validated(s.w.repo.db.nextFile)
    ensures Valid(env, run, k) && First(run) == s
    ensures PastOf(env, run, k).unlinked && FilesOf(Last(env, run, k).w.repo.db, info) == {}
  {
    var f := s.w.repo.db.nextFile;
    run := StartStream(env, s, k, 0, now);
    run := GoOn(env, run, k, Event.Crash);
    run := RenameTooEarly(env, run, k, f, now);
    run := StreamNothing(env, run, k, f, now + LOCK_TTL);
    run := RelinkTooLate(env, run, k, f, info, whole);
  }

  lemma RelinkTooLate(env: Env, run: Run, k: NarKey, f: Id, info: Id, whole: Id) returns (more: Run)
    requires NoEmptyChunks(env) && Valid(env, run, k) && Unmigrated(env, First(run), k)
    requires NamesOld(First(run).w.repo.db, k, info, whole)
    requires Last(env, run, k).pc == Relinking(f) && PastOf(env, run, k).renamed && !PastOf(env, run, k).relinked
    ensures Valid(env, more, k) && First(more) == First(run)
    ensures PastOf(env, more, k).unlinked && FilesOf(Last(env, more, k).w.repo.db, info) == {}
  {
    RelinkingRow(env, run, k, f);
    more := RelinkNow(env, run, k, f);
    RunKeepsLinks(env, more, k, info, whole);
  }

  lemma RenameTooEarly(env: Env, run: Run, k: NarKey, f: Id, now: nat) returns (more: Run)
    requires NoEmptyChunks(env) && Valid(env, run, k) && Unmigrated(env, First(run), k)
    requires Last(env, run, k).pc.Idle? && k in Last(env, run, k).w.repo.nars
    requires PastOf(env, run, k) == Past(0, 0, false, false, false, false)
    requires var t := Last(env, run, k).w.repo.db;
      IsChunkedFile(t, f, k) && t.narFiles[f].chunkingStartedAt == Some(now) && t.narFiles[f].totalChunks == 0
    ensures Valid(env, more, k) && First(more) == First(run) && Last(env, more, k).pc.Idle?
    ensures PastOf(env, more, k) == Past(0, 0, true, true, false, false)
    ensures Last(env, more, k).w.repo == Rename(Last(env, run, k).w.repo, k)
  {
    more := CheckFindsFile(env, run, k);
    RunKeepsMigration(env, more, k);
    ChunkedIffFinished(Last(env, more, k), k, PastOf(env, more, k));
    more := GoOn(env, more, k, AlreadyExists(now));
    more := GoOn(env, more, k, RenameTx);
    more := GoOn(env, more, k, Event.Crash);
  }

  lemma StreamNothing(env: Env, run: Run, k: NarKey, f: Id, now: nat) returns (more: Run)
    requires NoEmptyChunks(env) && Valid(env, run, k) && Unmigrated(env, First(run), k)
    requires Last(env, run, k).pc.Idle? && k in Last(env, run, k).w.repo.nars && PastOf(env, run, k).finished == 0
    requires PastOf(env, run, k).renamed && !PastOf(env, run, k).relinked && !env.validated(f)
    requires var t := Last(env, run, k).w.repo.db;
      IsChunkedFile(t, f, k) && MayStart(t.narFiles[f], now) && forall s :: s in t.slots ==> s.file != f
    ensures Valid(env, more, k) && First(more) == First(run) && Last(env, more, k).pc == Relinking(f)
    ensures PastOf(env, more, k).renamed && !PastOf(env, more, k).relinked
  {
    more := CheckFindsFile(env, run, k);
    var t := Last(env, run, k).w.repo.db;
    assert f in FilesWithKey(t, ChunkedKey(k));
    NoStaleRows(t, f);
    more := GoOn(env, more, k, Lock(f, 0, now));
    more := GoOn(env, more, k, Finished);
  }

  lemma NoStaleRows(t: Tables, f: Id)
    requires f in t.narFiles && forall s :: s in t.slots ==> s.file != f
    ensures StaleChunks(t, f) == {}
  {
    assert ChunkIndices(t, f, 0) == {};
  }
}
