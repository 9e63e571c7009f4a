/**
 The shared state of all instances while NARs are being chunked: any number of attempts in progress,
 interleaved step by step with new narinfos and files, evictions, stale-lock cleanups and fsck repairs.

 Each transaction is one step and so is each statement outside one: a deleting pass first lists the chunks
 it found unused, and only then, one by one, deletes their records and their files. `Enabled` is what the
 code lets happen. `Undisturbed` is what must not happen for the invariants to hold.
 */
module ChunkingProtocol {
  import opened Collections
  import opened Database
  import opened Repository
  import ChunkWriter
  import Eviction
  import Fsck

  type Bytes = seq<bv8>

  /** cdcChunkingLockTTL, in seconds. */
  const LOCK_TTL: nat := 3600

  /**
   What never changes: the bytes a chunk hash stands for, and the chunk list of each nar_file. Attempts on a
   `validated` nar_file are given the size of its NAR; on others it may be 0, "unknown".
   */
  datatype Env = Env(content: Hash -> Bytes, nar: Id -> seq<Hash>, validated: Id -> bool)

  /**
   An attempt streams the first `len` chunks of the NAR: a stream may end early. `stale` are the chunks it
   still has to look through after a takeover, `cleanup` the pass that deletes those found unused.
   */
  datatype Attempt = Attempt(
    len: nat, declared: nat, received: nat, committed: nat, stale: set<Hash>, cleanup: Option<nat>)

  /** An attempt whose lock was taken over by another one, and which may not know. */
  datatype Late = Late(file: Id, attempt: Attempt)

  /** `passes`: for each deleting pass, the chunks on its list that it is not yet done with. */
  datatype Shared = Shared(repo: Repo, passes: map<nat, set<Hash>>, attempts: map<Id, Attempt>, overtaken: set<Late>)

  datatype WriterStep = Put | Commit | Complete | Abort

  datatype Metadata =
    | SaveInfo(info: Id, row: NarInfo)
    | LinkInfo(link: Link)
    | EnsureFile(key: NarKey, size: nat)
    | RenameInfos(previous: NarKey, url: NarKey)
    | MarkVerified(files: set<Id>, now: nat)
    | StoreNar(key: NarKey)
    | RemoveNars(keys: set<NarKey>)

  datatype Deletion =
    | Evict(evicted: set<Id>, pass: nat)
    | DropInfos(infos: set<Id>)
    | DropFiles(files: set<Id>)
    | ListUnused(pass: nat, hashes: set<Hash>)
    | DropRecords(pass: nat, hashes: set<Hash>)
    | RemoveFiles(pass: nat, hashes: set<Hash>)
    | DoneWith(pass: nat, hashes: set<Hash>)

  datatype Action =
    | Begin(file: Id, key: NarKey, size: nat, len: nat, now: nat)
    | CleanupStale(file: Id, pass: nat)
    | Write(file: Id, step: WriterStep)
    | WriteLate(late: Late, step: WriterStep)
    | Crash(file: Id)
    | Relink(file: Id, previous: NarKey)
    | Save(data: Metadata)
    | Delete(what: Deletion)

  function Size(env: Env, list: seq<Hash>): nat {
    if list == [] then 0 else Size(env, list[..|list| - 1]) + |env.content(list[|list| - 1])|
  }

  // ---------------------------------------------------------------- transactions

  /** findOrCreateNarFileForCDC goes on unless the NAR is complete or another attempt holds a fresh lock. */
  predicate MayStart(row: NarFile, now: nat) {
    row.totalChunks == 0 && (row.chunkingStartedAt.Some? ==> now >= row.chunkingStartedAt.value + LOCK_TTL)
  }

  function Locked(t: Tables, file: Id, size: nat, now: nat): Tables
    requires file in t.narFiles
  {
    var row := t.narFiles[file];
    var u := if row.chunkingStartedAt.Some? then DeleteSlots(t, file) else t;
    UpdateFile(u, file, row.(fileSize := size, chunkingStartedAt := Some(now)))
  }

  /** The chunks whose rows a takeover deletes. */
  function StaleChunks(t: Tables, file: Id): set<Hash>
    requires file in t.narFiles
  {
    if t.narFiles[file].chunkingStartedAt.Some? then ToSet(ChunksFrom(t, file, 0)) else {}
  }

  function Relinked(t: Tables, file: Id, previous: NarKey): Tables
    requires file in t.narFiles && t.narFiles[file].key != previous
  {
    LinkByURL(DeleteFiles(t, FilesWithKey(t, previous)), previous, file)
  }

  // ---------------------------------------------------------------- the steps of an attempt

  /** A pass that has nothing left on its list. */
  predicate Finished(w: Shared, pass: nat) { pass in w.passes ==> w.passes[pass] == {} }

  ghost predicate CanWrite(env: Env, w: Shared, file: Id, at: Attempt, step: WriterStep) {
    match step
    case Put =>
      && at.stale == {} && (at.cleanup.Some? ==> Finished(w, at.cleanup.value))
      && at.received < at.len <= |env.nar(file)|
      && at.received < at.committed + ChunkWriter.MAX_BATCH
    case Commit =>
      file in w.repo.db.narFiles && at.committed <= at.received <= |env.nar(file)|
    case Complete =>
      && at.stale == {} && (at.cleanup.Some? ==> Finished(w, at.cleanup.value))
      && at.committed == at.received == at.len <= |env.nar(file)|
      && (at.declared > 0 ==> Size(env, env.nar(file)[..at.len]) == at.declared)
    case Abort => true
  }

  /** The database and the chunk store after a step. */
  ghost function Written(env: Env, w: Shared, file: Id, at: Attempt, step: WriterStep): Repo
    requires CanWrite(env, w, file, at, step)
  {
    var r, list := w.repo, env.nar(file);
    match step
    case Put => r.(chunkFiles := r.chunkFiles + {list[at.received]})
    case Commit => r.(db := RecordBatch(r.db, file, at.committed, list[at.committed..at.received]))
    case Complete => r.(db := MarkComplete(r.db, file, at.len, Size(env, list[..at.len])))
    case Abort => r.(db := Unlock(r.db, file))
  }

  /** The attempt after a step that does not end it. */
  function Advanced(at: Attempt, step: WriterStep): Attempt {
    if step.Put? then at.(received := at.received + 1) else at.(committed := at.received)
  }

  predicate Ends(step: WriterStep) { step.Complete? || step.Abort? }

  // ---------------------------------------------------------------- what the code lets happen

  ghost predicate CanSave(w: Shared, m: Metadata) {
    var t := w.repo.db;
    match m
    case SaveInfo(info, row) =>
      if info in t.narinfos then t.narinfos[info].hash == row.hash && t.narinfos[info].url.None?
      else forall i :: i in t.narinfos ==> t.narinfos[i].hash != row.hash
    case LinkInfo(l) => l.info in t.narinfos && l.file in t.narFiles
    case _ => true
  }

  ghost predicate CanDelete(w: Shared, d: Deletion) {
    match d
    case Evict(_, pass) => pass !in w.passes
    case ListUnused(pass, hashes) => pass !in w.passes && hashes !! w.repo.db.slots.Values
    case DropRecords(pass, hashes) => pass in w.passes && hashes <= w.passes[pass]
    case RemoveFiles(pass, hashes) => pass in w.passes && hashes <= w.passes[pass]
    case DoneWith(pass, hashes) => pass in w.passes
    case _ => true
  }

  ghost predicate Enabled(env: Env, w: Shared, a: Action) {
    var db := w.repo.db;
    match a
    case Begin(file, key, size, len, now) =>
      var t := CreateNarFile(db, key, size);
      && file in FilesWithKey(t, key) && MayStart(t.narFiles[file], now)
      && len <= |env.nar(file)|
      && (env.validated(file) ==> 0 < size == Size(env, env.nar(file)))
    case CleanupStale(file, pass) => file in w.attempts && w.attempts[file].cleanup.None? && pass !in w.passes
    case Write(file, step) => file in w.attempts && CanWrite(env, w, file, w.attempts[file], step)
    case WriteLate(late, step) => late in w.overtaken && CanWrite(env, w, late.file, late.attempt, step)
    case Crash(file) => file in w.attempts
    case Relink(file, previous) => file in db.narFiles && db.narFiles[file].key != previous
    case Save(m) => CanSave(w, m)
    case Delete(d) => CanDelete(w, d)
  }

  function Saved(r: Repo, m: Metadata): Repo {
    match m
    case SaveInfo(info, row) => r.(db := r.db.(narinfos := r.db.narinfos[info := row]))
    case LinkInfo(l) => r.(db := r.db.(links := r.db.links + {l}))
    case EnsureFile(key, size) => r.(db := EnsureNarFile(r.db, key, size))
    case RenameInfos(previous, url) => r.(db := RenameURL(r.db, previous, url))
    case MarkVerified(files, now) => r.(db := Fsck.StampFiles(r.db, files, now))
    case StoreNar(key) => r.(nars := r.nars + {key})
    case RemoveNars(keys) => r.(nars := r.nars - keys)
  }

  ghost function Deleted(w: Shared, d: Deletion): Shared
    requires CanDelete(w, d)
  {
    var r := w.repo;
    match d
    case Evict(evicted, pass) =>
      var t := Eviction.AfterEviction(r.db, evicted, true);
      w.(repo := r.(db := t), passes := w.passes[pass := r.db.chunks - t.chunks])
    case DropInfos(infos) => w.(repo := r.(db := DeleteInfos(r.db, infos)))
    case DropFiles(files) => w.(repo := r.(db := DeleteFiles(r.db, files)))
    case ListUnused(pass, hashes) => w.(passes := w.passes[pass := hashes])
    case DropRecords(pass, hashes) => w.(repo := r.(db := DeleteChunks(r.db, hashes)))
    case RemoveFiles(pass, hashes) => w.(repo := r.(chunkFiles := r.chunkFiles - hashes))
    case DoneWith(pass, hashes) =>
      w.(passes := if w.passes[pass] <= hashes then w.passes - {pass} else w.passes[pass := w.passes[pass] - hashes])
  }

  ghost function Apply(env: Env, w: Shared, a: Action): Shared
    requires Enabled(env, w, a)
  {
    var db := w.repo.db;
    match a
    case Begin(file, key, size, len, now) =>
      var t := CreateNarFile(db, key, size);
      w.(repo := w.repo.(db := Locked(t, file, size, now)),
         attempts := w.attempts[file := Attempt(len, size, 0, 0, StaleChunks(t, file), None)],
         overtaken := w.overtaken + (if file in w.attempts then {Late(file, w.attempts[file])} else {}))
    case CleanupStale(file, pass) =>
      var at := w.attempts[file];
      w.(passes := w.passes[pass := at.stale * OrphanChunks(db)],
         attempts := w.attempts[file := at.(stale := {}, cleanup := Some(pass))])
    case Write(file, step) =>
      var at := w.attempts[file];
      w.(repo := Written(env, w, file, at, step),
         attempts := if Ends(step) then w.attempts - {file} else w.attempts[file := Advanced(at, step)])
    case WriteLate(late, step) =>
      w.(repo := Written(env, w, late.file, late.attempt, step),
         overtaken := w.overtaken - {late} +
           (if Ends(step) then {} else {late.(attempt := Advanced(late.attempt, step))}))
    case Crash(file) => w.(attempts := w.attempts - {file})
    case Relink(file, previous) => w.(repo := w.repo.(db := Relinked(db, file, previous)))
    case Save(m) => w.(repo := Saved(w.repo, m))
    case Delete(d) => Deleted(w, d)
  }

  // ---------------------------------------------------------------- what must not happen

  /** A chunk in the store that an attempt will still link. */
  ghost predicate Pending(env: Env, w: Shared, h: Hash) {
    exists f, i :: f in w.attempts && w.attempts[f].committed <= i < w.attempts[f].received
                   && i < |env.nar(f)| && env.nar(f)[i] == h
  }

  ghost predicate NonePending(env: Env, w: Shared, hashes: set<Hash>) {
    forall h :: h in hashes ==> !Pending(env, w, h)
  }

  /** A chunk that some pass has listed and is not done with. */
  ghost predicate Doomed(w: Shared, h: Hash) {
    exists p :: p in w.passes && h in w.passes[p]
  }

  /**
   The hypothesis, for the whole time a chunk is on the list of a deleting pass: no attempt has put it without
   committing it when it is listed, and none puts it before the pass is done with it. And an attempt whose
   lock was taken over takes no further step.
   */
  ghost predicate Undisturbed(env: Env, w: Shared, a: Action)
    requires Enabled(env, w, a)
  {
    match a
    case CleanupStale(file, _) => NonePending(env, w, w.attempts[file].stale * OrphanChunks(w.repo.db))
    case Write(file, Put) => !Doomed(w, env.nar(file)[w.attempts[file].received])
    case WriteLate(_, _) => false
    case Delete(Evict(evicted, _)) =>
      NonePending(env, w, w.repo.db.chunks - Eviction.AfterEviction(w.repo.db, evicted, true).chunks)
    case Delete(ListUnused(_, hashes)) => NonePending(env, w, hashes)
    case _ => true
  }

  // ---------------------------------------------------------------- invariants

  /** Rows point to stored bytes and to nothing that is about to be deleted; neither will what is still to be linked. */
  ghost predicate BytesInv(env: Env, w: Shared) {
    && Consistent(w.repo.db)
    && (forall s :: s in w.repo.db.slots ==> w.repo.db.slots[s] in w.repo.chunkFiles && !Doomed(w, w.repo.db.slots[s]))
    && (forall h :: Pending(env, w, h) ==> h in w.repo.chunkFiles && !Doomed(w, h))
  }

  /** The rows of every nar_file are a prefix of its chunk list; a complete one has what it says. */
  ghost predicate RowsInv(env: Env, t: Tables) {
    && (forall f: Id :: RowsArePrefix(t, f, env.nar(f)))
    && (forall f :: f in t.narFiles && t.narFiles[f].totalChunks > 0 ==> TotalInv(env, t, f, t.narFiles[f].totalChunks))
  }

  ghost predicate TotalInv(env: Env, t: Tables, f: Id, total: nat) {
    && 0 < total <= |env.nar(f)| && Slot(f, total - 1) in t.slots
    && (env.validated(f) ==> total == |env.nar(f)|)
  }

  ghost predicate AttemptInv(env: Env, t: Tables, f: Id, a: Attempt) {
    && a.committed <= a.received <= a.len <= |env.nar(f)|
    && a.received <= a.committed + ChunkWriter.MAX_BATCH
    && (env.validated(f) ==> 0 < a.declared == Size(env, env.nar(f)))
    && f < t.nextFile
    && (f in t.narFiles ==> t.narFiles[f].totalChunks == 0)
    && (f in t.narFiles && a.committed > 0 ==> Slot(f, a.committed - 1) in t.slots)
  }

  ghost predicate WriterInv(env: Env, w: Shared) {
    && RowsInv(env, w.repo.db)
    && (forall f :: f in w.attempts ==> AttemptInv(env, w.repo.db, f, w.attempts[f]))
  }

  ghost predicate Inv(env: Env, w: Shared) { BytesInv(env, w) && WriterInv(env, w) }

  // ---------------------------------------------------------------- bytes: every step keeps them

  /** Attempts may end, be replaced by one that has received nothing, or commit. */
  ghost predicate NoMorePending(w: Shared, w': Shared) {
    forall f :: f in w'.attempts && w'.attempts[f].committed < w'.attempts[f].received ==>
      && f in w.attempts && w.attempts[f].committed <= w'.attempts[f].committed
      && w'.attempts[f].received <= w.attempts[f].received
  }

  lemma PendingBefore(env: Env, w: Shared, w': Shared, h: Hash)
    requires NoMorePending(w, w') && Pending(env, w', h)
    ensures Pending(env, w, h)
  {
    var f, i :| f in w'.attempts && w'.attempts[f].committed <= i < w'.attempts[f].received
                && i < |env.nar(f)| && env.nar(f)[i] == h;
    assert f in w.attempts;
  }

  /** No row is added, only doomed files go, and only chunks that nobody uses or will link are newly doomed. */
  ghost predicate LosesOnlyUnused(env: Env, w: Shared, w': Shared) {
    && Consistent(w'.repo.db)
    && (forall s :: s in w'.repo.db.slots ==> s in w.repo.db.slots && w'.repo.db.slots[s] == w.repo.db.slots[s])
    && (forall h :: h in w.repo.chunkFiles && h !in w'.repo.chunkFiles ==> Doomed(w, h))
    && (forall h :: Doomed(w', h) && !Doomed(w, h) ==> h !in w'.repo.db.slots.Values && !Pending(env, w, h))
  }

  lemma BytesKept(env: Env, w: Shared, w': Shared)
    requires BytesInv(env, w) && NoMorePending(w, w') && LosesOnlyUnused(env, w, w')
    ensures BytesInv(env, w')
  {
    forall h | Pending(env, w', h)
      ensures h in w'.repo.chunkFiles && !Doomed(w', h)
    {
      PendingBefore(env, w, w', h);
    }
    forall s | s in w'.repo.db.slots
      ensures w'.repo.db.slots[s] in w'.repo.chunkFiles && !Doomed(w', w'.repo.db.slots[s])
    {
      assert w'.repo.db.slots[s] in w'.repo.db.slots.Values;
    }
  }

  lemma SamePassesSameDoom(w: Shared, w': Shared)
    requires w'.passes == w.passes
    ensures forall h :: Doomed(w', h) <==> Doomed(w, h)
  {}

  /** Opening a pass dooms what it lists and nothing else. */
  lemma NewPassDooms(w: Shared, w': Shared, pass: nat, hashes: set<Hash>)
    requires pass !in w.passes && w'.passes == w.passes[pass := hashes]
    ensures forall h :: Doomed(w', h) <==> Doomed(w, h) || h in hashes
  {
    forall h | Doomed(w, h)
      ensures Doomed(w', h)
    {
      var p :| p in w.passes && h in w.passes[p];
      assert p in w'.passes && h in w'.passes[p];
    }
    assert pass in w'.passes && w'.passes[pass] == hashes;
  }

  lemma PutKeepsBytes(env: Env, w: Shared, file: Id)
    requires BytesInv(env, w) && Enabled(env, w, Write(file, Put)) && Undisturbed(env, w, Write(file, Put))
    ensures BytesInv(env, Apply(env, w, Write(file, Put)))
  {
    var w' := Apply(env, w, Write(file, Put));
    var next := env.nar(file)[w.attempts[file].received];
    SamePassesSameDoom(w, w');
    forall h | Pending(env, w', h)
      ensures h in w'.repo.chunkFiles && !Doomed(w', h)
    {
      var f, i :| f in w'.attempts && w'.attempts[f].committed <= i < w'.attempts[f].received
                  && i < |env.nar(f)| && env.nar(f)[i] == h;
      if h != next {
        assert f in w.attempts && i < w.attempts[f].received;
        assert Pending(env, w, h);
      }
    }
  }

  lemma BatchIsPending(env: Env, w: Shared, file: Id)
    requires file in w.attempts && w.attempts[file].committed <= w.attempts[file].received <= |env.nar(file)|
    ensures forall h :: h in env.nar(file)[w.attempts[file].committed..w.attempts[file].received] ==> Pending(env, w, h)
  {
    var at := w.attempts[file];
    var batch := env.nar(file)[at.committed..at.received];
    forall h | h in batch
      ensures Pending(env, w, h)
    {
      var k :| 0 <= k < |batch| && batch[k] == h;
      assert env.nar(file)[at.committed + k] == h;
    }
  }

  lemma CommitKeepsBytes(env: Env, w: Shared, file: Id)
    requires BytesInv(env, w) && Enabled(env, w, Write(file, Commit))
    ensures BytesInv(env, Apply(env, w, Write(file, Commit)))
  {
    var w', at := Apply(env, w, Write(file, Commit)), w.attempts[file];
    SamePassesSameDoom(w, w');
    BatchIsPending(env, w, file);
    var batch := env.nar(file)[at.committed..at.received];
    forall s | s in w'.repo.db.slots
      ensures w'.repo.db.slots[s] in w'.repo.chunkFiles && !Doomed(w', w'.repo.db.slots[s])
    {
      if s !in w.repo.db.slots {
        assert w'.repo.db.slots[s] in batch;
      }
    }
    forall h | Pending(env, w', h)
      ensures Pending(env, w, h)
    {
      PendingBefore(env, w, w', h);
    }
  }

  /** A step that touches neither passes nor chunk files, adds no row, and leaves attempts as they are or ends them. */
  lemma FewerRowsKeepBytes(env: Env, w: Shared, w': Shared)
    requires BytesInv(env, w) && NoMorePending(w, w') && Consistent(w'.repo.db)
    requires w'.passes == w.passes && w'.repo.chunkFiles == w.repo.chunkFiles
    requires forall s :: s in w'.repo.db.slots ==> s in w.repo.db.slots && w'.repo.db.slots[s] == w.repo.db.slots[s]
    ensures BytesInv(env, w')
  {
    SamePassesSameDoom(w, w');
    BytesKept(env, w, w');
  }

  lemma BeginKeepsBytes(env: Env, w: Shared, a: Action)
    requires BytesInv(env, w) && a.Begin? && Enabled(env, w, a)
    ensures BytesInv(env, Apply(env, w, a))
  {
    FewerRowsKeepBytes(env, w, Apply(env, w, a));
  }

  lemma EndingKeepsBytes(env: Env, w: Shared, a: Action)
    requires BytesInv(env, w) && Enabled(env, w, a) && (a.Crash? || a.Relink? || (a.Write? && Ends(a.step)))
    ensures BytesInv(env, Apply(env, w, a))
  {
    FewerRowsKeepBytes(env, w, Apply(env, w, a));
  }

  lemma SavingKeepsBytes(env: Env, w: Shared, m: Metadata)
    requires BytesInv(env, w) && CanSave(w, m)
    ensures BytesInv(env, w.(repo := Saved(w.repo, m)))
  {
    if m.EnsureFile? {
      EnsuringAddsOne(w.repo.db, m.key, m.size);
    } else {
      SavingKeepsRows(w, m);
    }
    FewerRowsKeepBytes(env, w, w.(repo := Saved(w.repo, m)));
  }

  lemma ListingKeepsBytes(env: Env, w: Shared, w': Shared, pass: nat, hashes: set<Hash>)
    requires BytesInv(env, w) && NoMorePending(w, w') && NonePending(env, w, hashes)
    requires pass !in w.passes && w'.passes == w.passes[pass := hashes] && w'.repo.chunkFiles == w.repo.chunkFiles
    requires Consistent(w'.repo.db) && hashes !! w'.repo.db.slots.Values
    requires forall s :: s in w'.repo.db.slots ==> s in w.repo.db.slots && w'.repo.db.slots[s] == w.repo.db.slots[s]
    ensures BytesInv(env, w')
  {
    NewPassDooms(w, w', pass, hashes);
    BytesKept(env, w, w');
  }

  lemma EvictKeepsBytes(env: Env, w: Shared, evicted: set<Id>, pass: nat)
    requires BytesInv(env, w) && pass !in w.passes && Undisturbed(env, w, Delete(Evict(evicted, pass)))
    ensures BytesInv(env, Apply(env, w, Delete(Evict(evicted, pass))))
  {
    var db, w' := w.repo.db, Apply(env, w, Delete(Evict(evicted, pass)));
    Eviction.SweepPrunes(DeleteInfos(db, evicted), true);
    var gone := db.chunks - w'.repo.db.chunks;
    forall s | s in w'.repo.db.slots
      ensures s in db.slots && w'.repo.db.slots[s] == db.slots[s] && w'.repo.db.slots[s] in w'.repo.db.chunks
    {}
    ListingKeepsBytes(env, w, w', pass, gone);
  }

  lemma DeletionKeepsBytes(env: Env, w: Shared, d: Deletion)
    requires BytesInv(env, w) && CanDelete(w, d) && !d.Evict? && Undisturbed(env, w, Delete(d))
    ensures BytesInv(env, Apply(env, w, Delete(d)))
  {
    var w' := Apply(env, w, Delete(d));
    if d.ListUnused? {
      ListingKeepsBytes(env, w, w', d.pass, d.hashes);
    } else {
      forall h | Doomed(w', h)
        ensures Doomed(w, h)
      {
        var p :| p in w'.passes && h in w'.passes[p];
        assert p in w.passes && h in w.passes[p];
      }
      BytesKept(env, w, w');
    }
  }

  lemma CleanupKeepsBytes(env: Env, w: Shared, file: Id, pass: nat)
    requires BytesInv(env, w) && Enabled(env, w, CleanupStale(file, pass))
    requires Undisturbed(env, w, CleanupStale(file, pass))
    ensures BytesInv(env, Apply(env, w, CleanupStale(file, pass)))
  {
    var victims := w.attempts[file].stale * OrphanChunks(w.repo.db);
    ListingKeepsBytes(env, w, Apply(env, w, CleanupStale(file, pass)), pass, victims);
  }

  /** Every undisturbed step keeps the bytes of every row. */
  lemma StepKeepsBytes(env: Env, w: Shared, a: Action)
    requires BytesInv(env, w) && Enabled(env, w, a) && Undisturbed(env, w, a)
    ensures BytesInv(env, Apply(env, w, a))
  {
    match a
    case Write(file, Put) => PutKeepsBytes(env, w, file);
    case Write(file, Commit) => CommitKeepsBytes(env, w, file);
    case CleanupStale(file, pass) => CleanupKeepsBytes(env, w, file, pass);
    case Delete(Evict(evicted, pass)) => EvictKeepsBytes(env, w, evicted, pass);
    case Delete(d) => DeletionKeepsBytes(env, w, d);
    case WriteLate(_, _) => assert false;
    case Begin(_, _, _, _, _) => BeginKeepsBytes(env, w, a);
    case Save(m) => SavingKeepsBytes(env, w, m);
    case _ => EndingKeepsBytes(env, w, a);
  }

  // ---------------------------------------------------------------- rows: every step keeps them a prefix

  ghost predicate NoEmptyChunks(env: Env) {
    forall f: Id, i: nat :: i < |env.nar(f)| ==> env.content(env.nar(f)[i]) != []
  }

  lemma {:induction false} SizeOfPrefix(env: Env, list: seq<Hash>, n: nat)
    requires n <= |list| && forall i :: 0 <= i < |list| ==> env.content(list[i]) != []
    ensures Size(env, list[..n]) <= Size(env, list)
    ensures Size(env, list[..n]) == Size(env, list) ==> n == |list|
    decreases |list|
  {
    if n < |list| {
      var init := list[..|list| - 1];
      SizeOfPrefix(env, init, n);
      assert init[..n] == list[..n];
    } else {
      assert list[..n] == list;
    }
  }

  /** The declared size, when there is one, lets an attempt complete exactly if its stream was whole. */
  lemma DeclaredSizeRulesOutTruncation(env: Env, f: Id, len: nat)
    requires NoEmptyChunks(env) && len <= |env.nar(f)|
    ensures Size(env, env.nar(f)[..len]) == Size(env, env.nar(f)) <==> len == |env.nar(f)|
  {
    SizeOfPrefix(env, env.nar(f), len);
    assert env.nar(f)[..|env.nar(f)|] == env.nar(f);
  }

  /** The same attempts as far as rows are concerned, or fewer. */
  ghost predicate SameProgress(w: Shared, w': Shared) {
    forall f :: f in w'.attempts ==>
      f in w.attempts && w'.attempts[f] == w.attempts[f].(stale := w'.attempts[f].stale, cleanup := w'.attempts[f].cleanup)
  }

  lemma PruningKeepsWriter(env: Env, w: Shared, w': Shared)
    requires WriterInv(env, w) && PrunesRows(w.repo.db, w'.repo.db) && SameProgress(w, w')
    ensures WriterInv(env, w')
  {
    PruningKeepsRowsInv(env, w.repo.db, w'.repo.db);
    forall f | f in w'.attempts
      ensures AttemptInv(env, w'.repo.db, f, w'.attempts[f])
    {
      assert AttemptInv(env, w.repo.db, f, w.attempts[f]);
    }
  }

  lemma PruningKeepsRowsInv(env: Env, t: Tables, u: Tables)
    requires RowsInv(env, t) && PrunesRows(t, u)
    ensures RowsInv(env, u)
  {
    forall f: Id
      ensures RowsArePrefix(u, f, env.nar(f))
    {
      assert RowsArePrefix(t, f, env.nar(f));
    }
    forall f | f in u.narFiles && u.narFiles[f].totalChunks > 0
      ensures TotalInv(env, u, f, u.narFiles[f].totalChunks)
    {
      assert TotalInv(env, t, f, t.narFiles[f].totalChunks);
    }
  }

  /** Tables with the same slots, and nar_files that differ only in columns the invariant ignores. */
  ghost predicate SameRows(t: Tables, u: Tables) {
    && u.slots == t.slots && u.nextFile == t.nextFile
    && u.narFiles.Keys == t.narFiles.Keys
    && forall f :: f in u.narFiles ==> u.narFiles[f].totalChunks == t.narFiles[f].totalChunks
  }

  lemma SameRowsKeepWriter(env: Env, w: Shared, w': Shared)
    requires WriterInv(env, w) && SameRows(w.repo.db, w'.repo.db)
    requires forall f :: f in w'.attempts ==> AttemptInv(env, w.repo.db, f, w'.attempts[f])
    ensures WriterInv(env, w')
  {
    forall f: Id
      ensures RowsArePrefix(w'.repo.db, f, env.nar(f))
    {
      assert RowsArePrefix(w.repo.db, f, env.nar(f));
    }
    forall f | f in w'.attempts
      ensures AttemptInv(env, w'.repo.db, f, w'.attempts[f])
    {
      assert AttemptInv(env, w.repo.db, f, w'.attempts[f]);
    }
  }

  lemma SavingKeepsRows(w: Shared, m: Metadata)
    requires CanSave(w, m) && !m.EnsureFile?
    ensures SameRows(w.repo.db, Saved(w.repo, m).db)
    ensures Consistent(w.repo.db) ==> Consistent(Saved(w.repo, m).db)
  {}

  /** A new, unchunked nar_file, or a new size for one that exists. */
  lemma EnsuringAddsOne(t: Tables, key: NarKey, size: nat)
    requires Consistent(t)
    ensures var u := EnsureNarFile(t, key, size);
      && Consistent(u) && u.slots == t.slots && u.links == t.links && t.nextFile <= u.nextFile
      && (forall f :: f in t.narFiles ==> f in u.narFiles && u.narFiles[f].totalChunks == t.narFiles[f].totalChunks)
      && (forall f :: f in u.narFiles && f !in t.narFiles ==> f == t.nextFile && u.narFiles[f].totalChunks == 0)
  {}

  lemma UnchunkedRowsKeepRowsInv(env: Env, t: Tables, u: Tables)
    requires RowsInv(env, t) && u.slots == t.slots
    requires forall f :: f in u.narFiles ==>
      u.narFiles[f].totalChunks == if f in t.narFiles then t.narFiles[f].totalChunks else 0
    ensures RowsInv(env, u)
  {
    forall f: Id
      ensures RowsArePrefix(u, f, env.nar(f))
    {
      assert RowsArePrefix(t, f, env.nar(f));
    }
  }

  lemma EnsuringKeepsWriter(env: Env, w: Shared, key: NarKey, size: nat)
    requires WriterInv(env, w) && Consistent(w.repo.db)
    ensures WriterInv(env, w.(repo := w.repo.(db := EnsureNarFile(w.repo.db, key, size))))
  {
    var t, u := w.repo.db, EnsureNarFile(w.repo.db, key, size);
    EnsuringAddsOne(t, key, size);
    UnchunkedRowsKeepRowsInv(env, t, u);
    forall f | f in w.attempts
      ensures AttemptInv(env, u, f, w.attempts[f])
    {
      assert AttemptInv(env, t, f, w.attempts[f]);
    }
  }

  lemma RelinkKeepsWriter(env: Env, w: Shared, file: Id, previous: NarKey)
    requires Inv(env, w) && Enabled(env, w, Relink(file, previous))
    ensures WriterInv(env, Apply(env, w, Relink(file, previous)))
  {
    var db := w.repo.db;
    var t := DeleteFiles(db, FilesWithKey(db, previous));
    DeleteFilesPrunes(db, FilesWithKey(db, previous));
    var mid := w.(repo := w.repo.(db := t));
    PruningKeepsWriter(env, w, mid);
    SameRowsKeepWriter(env, mid, Apply(env, w, Relink(file, previous)));
  }

  /** What is doomed is unused, so that deleting its record takes no row with it. */
  lemma DeletionPrunes(env: Env, w: Shared, d: Deletion)
    requires BytesInv(env, w) && CanDelete(w, d)
    ensures PrunesRows(w.repo.db, Deleted(w, d).repo.db)
  {
    var db := w.repo.db;
    match d
    case Evict(evicted, _) =>
      DeleteInfosPrunes(db, evicted);
      Eviction.SweepPrunes(DeleteInfos(db, evicted), true);
      PrunesRowsTransitive(db, DeleteInfos(db, evicted), Eviction.AfterEviction(db, evicted, true));
    case DropInfos(infos) => DeleteInfosPrunes(db, infos);
    case DropFiles(files) => DeleteFilesPrunes(db, files);
    case DropRecords(pass, hashes) =>
      forall s | s in db.slots
        ensures db.slots[s] !in hashes
      {
        assert !Doomed(w, db.slots[s]);
      }
      UnusedRecordsPrune(db, hashes);
    case _ => PrunesReflexive(w.repo);
  }

  lemma UnusedRecordsPrune(t: Tables, hashes: set<Hash>)
    requires Consistent(t) && forall s :: s in t.slots ==> t.slots[s] !in hashes
    ensures PrunesRows(t, DeleteChunks(t, hashes)) && DeleteChunks(t, hashes).slots == t.slots
  {}

  lemma QuietStepsKeepWriter(env: Env, w: Shared, a: Action)
    requires Inv(env, w) && Enabled(env, w, a) && (a.CleanupStale? || a.Crash? || a.Delete? || a.Save?)
    ensures WriterInv(env, Apply(env, w, a))
  {
    var w' := Apply(env, w, a);
    if a.Save? && a.data.EnsureFile? {
      EnsuringKeepsWriter(env, w, a.data.key, a.data.size);
    } else if a.Save? {
      SavingKeepsRows(w, a.data);
      SameRowsKeepWriter(env, w, w');
    } else {
      if a.Delete? {
        DeletionPrunes(env, w, a.what);
      } else {
        PrunesReflexive(w.repo);
      }
      PruningKeepsWriter(env, w, w');
    }
  }

  lemma PutKeepsWriter(env: Env, w: Shared, file: Id)
    requires WriterInv(env, w) && Enabled(env, w, Write(file, Put))
    ensures WriterInv(env, Apply(env, w, Write(file, Put)))
  {
    SameRowsKeepWriter(env, w, Apply(env, w, Write(file, Put)));
  }

  lemma AbortKeepsWriter(env: Env, w: Shared, file: Id)
    requires WriterInv(env, w) && Enabled(env, w, Write(file, Abort))
    ensures WriterInv(env, Apply(env, w, Write(file, Abort)))
  {
    SameRowsKeepWriter(env, w, Apply(env, w, Write(file, Abort)));
  }

  lemma MarkingKeepsRows(env: Env, t: Tables, file: Id, total: nat, size: nat)
    requires RowsInv(env, t) && (file in t.narFiles && total > 0 ==> TotalInv(env, t, file, total))
    ensures RowsInv(env, MarkComplete(t, file, total, size))
  {
    var u := MarkComplete(t, file, total, size);
    forall f: Id
      ensures RowsArePrefix(u, f, env.nar(f))
    {
      assert RowsArePrefix(t, f, env.nar(f));
    }
  }

  lemma CompleteKeepsWriter(env: Env, w: Shared, file: Id)
    requires WriterInv(env, w) && NoEmptyChunks(env) && Enabled(env, w, Write(file, Complete))
    ensures WriterInv(env, Apply(env, w, Write(file, Complete)))
  {
    var at, w' := w.attempts[file], Apply(env, w, Write(file, Complete));
    DeclaredSizeRulesOutTruncation(env, file, at.len);
    MarkingKeepsRows(env, w.repo.db, file, at.len, Size(env, env.nar(file)[..at.len]));
    forall f | f in w'.attempts
      ensures AttemptInv(env, w'.repo.db, f, w'.attempts[f])
    {
      assert AttemptInv(env, w.repo.db, f, w.attempts[f]);
    }
  }

  /** A batch that starts where the committed rows end extends the prefix, leftover rows or not. */
  lemma BatchExtendsPrefix(t: Tables, file: Id, list: seq<Hash>, from: nat, to: nat)
    requires file in t.narFiles && RowsArePrefix(t, file, list) && from <= to <= |list|
    requires from > 0 ==> Slot(file, from - 1) in t.slots
    ensures var u := RecordBatch(t, file, from, list[from..to]);
      RowsArePrefix(u, file, list) && (to > 0 ==> Slot(file, to - 1) in u.slots)
  {
    var u := RecordBatch(t, file, from, list[from..to]);
    assert forall i: nat :: Slot(file, i) in u.slots <==> Slot(file, i) in t.slots || from <= i < to;
    assert forall i: nat :: i < from ==> Slot(file, i) in t.slots;
  }

  /** ... and that is the exact condition: any other batch leaves a gap. */
  lemma BatchLeavesNoGapIff(t: Tables, file: Id, list: seq<Hash>, from: nat, to: nat)
    requires file in t.narFiles && RowsArePrefix(t, file, list) && from < to <= |list|
    ensures RowsArePrefix(RecordBatch(t, file, from, list[from..to]), file, list) <==>
      from == 0 || Slot(file, from - 1) in t.slots
  {
    var u := RecordBatch(t, file, from, list[from..to]);
    assert forall i: nat :: Slot(file, i) in u.slots <==> Slot(file, i) in t.slots || from <= i < to;
    if from == 0 || Slot(file, from - 1) in t.slots {
      BatchExtendsPrefix(t, file, list, from, to);
    } else {
      assert Slot(file, from) in u.slots && Slot(file, from - 1) !in u.slots;
    }
  }

  lemma BatchKeepsRows(env: Env, t: Tables, file: Id, from: nat, to: nat)
    requires RowsInv(env, t) && file in t.narFiles && from <= to <= |env.nar(file)|
    requires from > 0 ==> Slot(file, from - 1) in t.slots
    ensures var u := RecordBatch(t, file, from, env.nar(file)[from..to]);
      RowsInv(env, u) && (to > 0 ==> Slot(file, to - 1) in u.slots) && t.slots.Keys <= u.slots.Keys
  {
    var u := RecordBatch(t, file, from, env.nar(file)[from..to]);
    BatchExtendsPrefix(t, file, env.nar(file), from, to);
    forall f: Id
      ensures RowsArePrefix(u, f, env.nar(f))
    {
      assert RowsArePrefix(t, f, env.nar(f));
    }
  }

  lemma CommitKeepsWriter(env: Env, w: Shared, file: Id)
    requires WriterInv(env, w) && Enabled(env, w, Write(file, Commit))
    ensures WriterInv(env, Apply(env, w, Write(file, Commit)))
  {
    var at := w.attempts[file];
    BatchKeepsRows(env, w.repo.db, file, at.committed, at.received);
    CommittedKeepsWriter(env, w, file, RecordBatch(w.repo.db, file, at.committed, env.nar(file)[at.committed..at.received]));
  }

  lemma CommittedKeepsWriter(env: Env, w: Shared, file: Id, u: Tables)
    requires WriterInv(env, w) && file in w.attempts && RowsInv(env, u)
    requires u.narFiles == w.repo.db.narFiles && u.nextFile == w.repo.db.nextFile
    requires w.repo.db.slots.Keys <= u.slots.Keys
    requires w.attempts[file].received > 0 ==> Slot(file, w.attempts[file].received - 1) in u.slots
    ensures var at := w.attempts[file];
      WriterInv(env, w.(repo := w.repo.(db := u), attempts := w.attempts[file := at.(committed := at.received)]))
  {
    assert forall f :: f in w.attempts ==> AttemptInv(env, w.repo.db, f, w.attempts[f]);
  }

  lemma CreateKeepsRows(env: Env, t: Tables, key: NarKey, size: nat)
    requires Consistent(t) && RowsInv(env, t)
    ensures RowsInv(env, CreateNarFile(t, key, size))
  {
    var u := CreateNarFile(t, key, size);
    forall f: Id
      ensures RowsArePrefix(u, f, env.nar(f))
    {
      assert RowsArePrefix(t, f, env.nar(f));
    }
  }

  lemma LockKeepsRows(env: Env, t: Tables, file: Id, size: nat, now: nat)
    requires RowsInv(env, t) && file in t.narFiles && MayStart(t.narFiles[file], now)
    ensures RowsInv(env, Locked(t, file, size, now))
  {
    var u := Locked(t, file, size, now);
    forall f: Id
      ensures RowsArePrefix(u, f, env.nar(f))
    {
      assert RowsArePrefix(t, f, env.nar(f));
    }
  }

  lemma BeginKeepsWriter(env: Env, w: Shared, a: Action)
    requires Inv(env, w) && a.Begin? && Enabled(env, w, a)
    ensures WriterInv(env, Apply(env, w, a))
  {
    var t := CreateNarFile(w.repo.db, a.key, a.size);
    CreateKeepsRows(env, w.repo.db, a.key, a.size);
    LockKeepsRows(env, t, a.file, a.size, a.now);
    var w' := Apply(env, w, a);
    forall f | f in w'.attempts
      ensures AttemptInv(env, w'.repo.db, f, w'.attempts[f])
    {
      if f != a.file {
        assert AttemptInv(env, w.repo.db, f, w.attempts[f]);
      }
    }
  }

  lemma StepKeepsWriter(env: Env, w: Shared, a: Action)
    requires Inv(env, w) && NoEmptyChunks(env) && Enabled(env, w, a) && !a.WriteLate?
    ensures WriterInv(env, Apply(env, w, a))
  {
    match a
    case Write(file, Put) => PutKeepsWriter(env, w, file);
    case Write(file, Commit) => CommitKeepsWriter(env, w, file);
    case Write(file, Complete) => CompleteKeepsWriter(env, w, file);
    case Write(file, Abort) => AbortKeepsWriter(env, w, file);
    case Begin(_, _, _, _, _) => BeginKeepsWriter(env, w, a);
    case Relink(file, previous) => RelinkKeepsWriter(env, w, file, previous);
    case _ => QuietStepsKeepWriter(env, w, a);
  }

  /** Every undisturbed step keeps the whole invariant. */
  lemma StepKeepsInv(env: Env, w: Shared, a: Action)
    requires Inv(env, w) && NoEmptyChunks(env) && Enabled(env, w, a) && Undisturbed(env, w, a)
    ensures Inv(env, Apply(env, w, a))
  {
    StepKeepsBytes(env, w, a);
    StepKeepsWriter(env, w, a);
  }
}
