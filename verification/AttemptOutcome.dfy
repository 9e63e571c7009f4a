/** When an attempt to chunk a NAR may begin, what its first transaction does, and when the next one may. */
module AttemptOutcome {
  import opened Collections
  import opened Database
  import opened Repository
  import opened ChunkingProtocol

  /** Not complete, and not locked in the last hour. */
  predicate Free(row: NarFile, now: nat) {
    row.totalChunks == 0 && (row.chunkingStartedAt == None || now >= row.chunkingStartedAt.value + 3600)
  }

  /** An attempt begins on the nar_file with the key if that is free, or on a new one if there is none with the key. */
  lemma BeginIff(env: Env, w: Shared, file: Id, key: NarKey, size: nat, len: nat, now: nat)
    requires Consistent(w.repo.db) && len <= |env.nar(file)| && (env.validated(file) ==> 0 < size == Size(env, env.nar(file)))
    ensures var t := w.repo.db;
      Enabled(env, w, Begin(file, key, size, len, now)) <==>
        || (file in t.narFiles && t.narFiles[file].key == key && Free(t.narFiles[file], now))
        || (file == t.nextFile && forall f :: f in t.narFiles ==> t.narFiles[f].key != key)
  {
    var t := w.repo.db;
    var u := CreateNarFile(t, key, size);
    if f :| f in t.narFiles && t.narFiles[f].key == key {
      assert f in FilesWithKey(t, key);
      assert u == t;
    } else {
      assert FilesWithKey(t, key) == {};
      assert forall f :: f in FilesWithKey(u, key) ==> f == t.nextFile;
    }
  }

  /** Somebody's lock is on the nar_file, an old one if an attempt may begin. */
  predicate WasLocked(t: Tables, file: Id) { file in t.narFiles && t.narFiles[file].chunkingStartedAt.Some? }

  /** The nar_file is locked and has the size; on a takeover its rows are gone; nothing else has changed. */
  ghost predicate Began(t: Tables, u: Tables, file: Id, key: NarKey, size: nat, now: nat) {
    && u.narinfos == t.narinfos && u.links == t.links && u.chunks == t.chunks
    && file in u.narFiles && u.narFiles.Keys == t.narFiles.Keys + {file}
    && (forall f :: f in t.narFiles && f != file ==> u.narFiles[f] == t.narFiles[f])
    && u.narFiles[file] == (
         if file in t.narFiles then t.narFiles[file].(fileSize := size, chunkingStartedAt := Some(now))
         else NarFile(key, size, 0, Some(now), None))
    && (forall s :: s in u.slots <==> s in t.slots && !(s.file == file && WasLocked(t, file)))
    && (forall s :: s in u.slots ==> u.slots[s] == t.slots[s])
  }

  /** It starts from nothing, and has the chunks of the rows it deleted to look through. */
  ghost predicate StartsAfresh(t: Tables, at: Attempt, file: Id, size: nat, len: nat) {
    && at == Attempt(len, size, 0, 0, at.stale, None)
    && forall h :: h in at.stale <==> WasLocked(t, file) && exists s :: s in t.slots && s.file == file && t.slots[s] == h
  }

  lemma BeginOutcome(env: Env, w: Shared, file: Id, key: NarKey, size: nat, len: nat, now: nat)
    requires Consistent(w.repo.db) && Enabled(env, w, Begin(file, key, size, len, now))
    ensures var w' := Apply(env, w, Begin(file, key, size, len, now));
      && Began(w.repo.db, w'.repo.db, file, key, size, now)
      && file in w'.attempts && StartsAfresh(w.repo.db, w'.attempts[file], file, size, len)
      && w'.repo.chunkFiles == w.repo.chunkFiles && w'.repo.nars == w.repo.nars && w'.passes == w.passes
  {
    var t := w.repo.db;
    var u := CreateNarFile(t, key, size);
    QueryReturnsAllRows(u, file);
    if file !in t.narFiles {
      assert u.narFiles[file] == NarFile(key, size, 0, None, None);
    }
    CreationAddsOne(t, key, size, file);
    LockingTakesOver(u, file, size, now);
  }

  lemma CreationAddsOne(t: Tables, key: NarKey, size: nat, file: Id)
    requires Consistent(t) && file in FilesWithKey(CreateNarFile(t, key, size), key)
    ensures var u := CreateNarFile(t, key, size);
      && u.narinfos == t.narinfos && u.links == t.links && u.chunks == t.chunks && u.slots == t.slots
      && u.narFiles.Keys == t.narFiles.Keys + {file} && (WasLocked(u, file) <==> WasLocked(t, file))
      && (file !in t.narFiles ==> u.narFiles[file] == NarFile(key, size, 0, None, None))
      && (forall f :: f in t.narFiles ==> u.narFiles[f] == t.narFiles[f])
  {
    if FilesWithKey(t, key) == {} {
      assert forall f :: f in t.narFiles ==> f !in FilesWithKey(t, key);
    }
  }

  lemma LockingTakesOver(u: Tables, file: Id, size: nat, now: nat)
    requires file in u.narFiles
    ensures var v := Locked(u, file, size, now);
      && v.narinfos == u.narinfos && v.links == u.links && v.chunks == u.chunks
      && v.narFiles == u.narFiles[file := u.narFiles[file].(fileSize := size, chunkingStartedAt := Some(now))]
      && (forall s :: s in v.slots <==> s in u.slots && !(s.file == file && WasLocked(u, file)))
      && (forall s :: s in v.slots ==> v.slots[s] == u.slots[s])
  {}

  /** The cleanup after a takeover lists, of those chunks, the ones that no row uses any more. */
  lemma CleanupLists(env: Env, w: Shared, file: Id, pass: nat, h: Hash)
    requires Enabled(env, w, CleanupStale(file, pass))
    ensures var w' := Apply(env, w, CleanupStale(file, pass));
      && pass in w'.passes && w'.repo == w.repo && file in w'.attempts && w'.attempts[file].stale == {}
      && (h in w'.passes[pass] <==>
            && h in w.attempts[file].stale && h in w.repo.db.chunks
            && forall s :: s in w.repo.db.slots ==> w.repo.db.slots[s] != h)
  {
    assert h in w.repo.db.slots.Values <==> exists s :: s in w.repo.db.slots && w.repo.db.slots[s] == h;
  }

  /**
   An attempt that fails gives the lock back, so the next one may begin at once; one that crashes does not, and the
   next one has to wait until the lock is an hour old.
   */
  lemma NextAttemptIff(env: Env, w: Shared, file: Id, now: nat)
    requires Inv(env, w) && file in w.attempts && file in w.repo.db.narFiles
    ensures Enabled(env, w, Write(file, Abort)) && Enabled(env, w, Crash(file))
    ensures Free(Apply(env, w, Write(file, Abort)).repo.db.narFiles[file], now)
    ensures Free(Apply(env, w, Crash(file)).repo.db.narFiles[file], now) <==>
      WasLocked(w.repo.db, file) ==> now >= w.repo.db.narFiles[file].chunkingStartedAt.value + 3600
  {
    assert AttemptInv(env, w.repo.db, file, w.attempts[file]);
  }
}
