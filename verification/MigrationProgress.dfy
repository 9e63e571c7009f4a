/** A migration that was interrupted, however often, can be run again and succeed. */
module MigrationProgress {
  import opened Collections
  import opened Database
  import opened Repository
  import opened ChunkingProtocol
  import opened Migration
  import opened MigrationCases
  import FsckRun

  /** A failure that is noticed gives the lock back: the next attempt need not wait. */
  lemma FailureUnlocks(env: Env, s: State, k: NarKey, p: Past, now: nat)
    requires MigrationInv(env, s, k, p) && s.pc.Chunking? && Possible(env, s, k, Fail)
    ensures var t := After(env, s, k, Fail).w.repo.db;
      s.pc.file in t.narFiles && t.narFiles[s.pc.file].chunkingStartedAt.None? && MayStart(t.narFiles[s.pc.file], now)
  {
    AbortUnlocks(env, s.w, s.pc.file, now);
  }

  lemma AbortUnlocks(env: Env, w: Shared, file: Id, now: nat)
    requires WriterInv(env, w) && file in w.attempts && file in w.repo.db.narFiles
    ensures var t := Apply(env, w, Write(file, Abort)).repo.db;
      file in t.narFiles && t.narFiles[file].chunkingStartedAt.None? && MayStart(t.narFiles[file], now)
  {
    assert AttemptInv(env, w.repo.db, file, w.attempts[file]);
  }

  /** The run is streaming the whole NAR and past its cleanup. */
  ghost predicate Streams(env: Env, s: State, f: Id) {
    && s.pc == Chunking(f) && f in s.w.attempts && f in s.w.repo.db.narFiles
    && var at := s.w.attempts[f];
       && at.stale == {} && (at.cleanup.Some? ==> ChunkingProtocol.Finished(s.w, at.cleanup.value))
       && at.committed <= at.received <= at.len == |env.nar(f)| && at.declared == 0
  }

  function NextWrite(at: Attempt): WriterStep { if at.committed < at.received then Commit else Put }

  lemma WritesOn(env: Env, s: State, k: NarKey, f: Id)
    requires Streams(env, s, f) && s.w.attempts[f].committed < s.w.attempts[f].len
    ensures var e := Work(Write(f, NextWrite(s.w.attempts[f])));
      Possible(env, s, k, e) && Streams(env, After(env, s, k, e), f)
      && StepsLeft(After(env, s, k, e).w.attempts[f]) < StepsLeft(s.w.attempts[f])
  {}

  ghost function StepsLeft(at: Attempt): nat
    requires at.committed <= at.received <= at.len
  {
    2 * (at.len - at.committed) + (if at.committed < at.received then 0 else 1)
  }

  lemma {:induction false} StreamAll(env: Env, run: Run, k: NarKey, f: Id) returns (more: Run)
    requires Valid(env, run, k) && Streams(env, Last(env, run, k), f)
    ensures Valid(env, more, k) && First(more) == First(run) && Last(env, more, k).pc == Relinking(f)
    ensures PastOf(env, more, k) == PastOf(env, run, k).(finished := PastOf(env, run, k).streamed, gaveUp := false)
    decreases StepsLeft(Last(env, run, k).w.attempts[f])
  {
    var s := Last(env, run, k);
    if s.w.attempts[f].committed == s.w.attempts[f].len {
      more := GoOn(env, run, k, Event.Finished);
    } else {
      WritesOn(env, s, k, f);
      more := GoOn(env, run, k, Work(Write(f, NextWrite(s.w.attempts[f]))));
      more := StreamAll(env, more, k, f);
    }
  }

  /** After a takeover, the chunks of the deleted rows are looked through first. */
  lemma LookThrough(env: Env, run: Run, k: NarKey, f: Id) returns (more: Run)
    requires Valid(env, run, k)
    requires var s := Last(env, run, k);
      && s.pc == Chunking(f) && f in s.w.repo.db.narFiles && f in s.w.attempts
      && s.w.attempts[f] == Attempt(|env.nar(f)|, 0, 0, 0, s.w.attempts[f].stale, None)
    ensures Valid(env, more, k) && First(more) == First(run) && PastOf(env, more, k) == PastOf(env, run, k)
    ensures Streams(env, Last(env, more, k), f)
  {
    var w := Last(env, run, k).w;
    var pass := FsckRun.FreshId(w.passes.Keys);
    more := GoOn(env, run, k, Work(CleanupStale(f, pass)));
    more := GoOn(env, more, k, Work(Delete(DoneWith(pass, w.attempts[f].stale))));
  }

  /** The nar_file of the uncompressed form, if there is one, is not locked by anybody. */
  ghost predicate MayLock(env: Env, t: Tables, k: NarKey, f: Id, now: nat) {
    && !env.validated(f)
    && if FilesWithKey(t, ChunkedKey(k)) == {} then f == t.nextFile else IsChunkedFile(t, f, k) && MayStart(t.narFiles[f], now)
  }

  lemma LockIsPossible(env: Env, s: State, k: NarKey, f: Id, now: nat)
    requires Consistent(s.w.repo.db) && s.pc.Storing? && MayLock(env, s.w.repo.db, k, f, now)
    ensures Possible(env, s, k, Lock(f, |env.nar(f)|, now))
    ensures var s' := After(env, s, k, Lock(f, |env.nar(f)|, now));
      && s'.pc == Chunking(f) && f in s'.w.repo.db.narFiles && f in s'.w.attempts
      && s'.w.attempts[f] == Attempt(|env.nar(f)|, 0, 0, 0, s'.w.attempts[f].stale, None)
  {
    var t := s.w.repo.db;
    if FilesWithKey(t, ChunkedKey(k)) == {} {
      NewFileIsFree(t, ChunkedKey(k), now);
    } else {
      assert f in FilesWithKey(t, ChunkedKey(k));
    }
  }

  lemma NewFileIsFree(t: Tables, key: NarKey, now: nat)
    requires Consistent(t) && FilesWithKey(t, key) == {}
    ensures var u := CreateNarFile(t, key, 0); t.nextFile in FilesWithKey(u, key) && MayStart(u.narFiles[t.nextFile], now)
  {}

  /**
   Whatever happened to earlier attempts: while the whole file is there, no stream was finished and nobody holds a fresh
   lock, a rerun can still do the whole migration. Then the file is gone and the chunks are the NAR; and the narinfos were
   relinked, unless a rename had come first.
   */
  lemma MigrationCanSucceed(env: Env, run: Run, k: NarKey, f: Id, now: nat) returns (more: Run)
    requires NoEmptyChunks(env) && Valid(env, run, k) && Unmigrated(env, First(run), k)
    requires Last(env, run, k).pc.Idle? && k in Last(env, run, k).w.repo.nars && PastOf(env, run, k).finished == 0
    requires MayLock(env, Last(env, run, k).w.repo.db, k, f, now)
    ensures Valid(env, more, k) && First(more) == First(run)
    ensures k !in Last(env, more, k).w.repo.nars && Intact(env, Last(env, more, k).w.repo, f)
    ensures PastOf(env, more, k).relinked <==> PastOf(env, run, k).relinked || !PastOf(env, run, k).renamed
  {
    RunKeepsMigration(env, run, k);
    more := CheckFindsFile(env, run, k);
    LockIsPossible(env, Last(env, more, k), k, f, now);
    more := GoOn(env, more, k, Lock(f, |env.nar(f)|, now));
    more := LookThrough(env, more, k, f);
    more := StreamAll(env, more, k, f);
    more := FinishUp(env, more, k, f);
  }

  /** Relink, rename, remove. */
  lemma FinishUp(env: Env, run: Run, k: NarKey, f: Id) returns (more: Run)
    requires NoEmptyChunks(env) && Valid(env, run, k) && Unmigrated(env, First(run), k)
    requires Last(env, run, k).pc == Relinking(f) && PastOf(env, run, k).finished == |env.nar(f)|
    ensures Valid(env, more, k) && First(more) == First(run)
    ensures k !in Last(env, more, k).w.repo.nars && Intact(env, Last(env, more, k).w.repo, f)
    ensures PastOf(env, more, k).relinked <==> PastOf(env, run, k).relinked || !PastOf(env, run, k).renamed
  {
    RelinkingRow(env, run, k, f);
    more := RelinkNow(env, run, k, f);
    CleanupKeepsRow(Last(env, more, k).w.repo, k, f);
    more := CleanUp(env, more, k);
    ChunksAreWhole(env, more, k, f);
  }

  lemma ChunksAreWhole(env: Env, run: Run, k: NarKey, f: Id)
    requires NoEmptyChunks(env) && Valid(env, run, k) && Unmigrated(env, First(run), k)
    requires k !in Last(env, run, k).w.repo.nars && IsChunkedFile(Last(env, run, k).w.repo.db, f, k)
    requires PastOf(env, run, k).finished == |env.nar(f)|
    ensures Intact(env, Last(env, run, k).w.repo, f)
  {
    var g := WholeFileGoneIsChunkedIff(env, run, k);
    RunKeepsMigration(env, run, k);
    OneChunkedFile(Last(env, run, k).w.repo.db, k, f, g);
  }

  lemma OneChunkedFile(t: Tables, k: NarKey, f: Id, g: Id)
    requires Consistent(t) && IsChunkedFile(t, f, k) && IsChunkedFile(t, g, k)
    ensures f == g
  {}
}
