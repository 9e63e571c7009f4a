/** Migration of a stored, compressed NAR to chunks (eager mode): relink, rename, remove; crash and rerun. */
module Migration {
  import opened Collections
  import opened Database
  import opened Repository
  import opened ChunkingProtocol
  import Cluster

  const ZSTD := "zstd"

  /** The key of the chunked, uncompressed form, and of the zstd file some NARs are stored as. */
  function ChunkedKey(k: NarKey): NarKey { k.(compression := NONE) }

  function ZstdKey(k: NarKey): NarKey { k.(compression := ZSTD) }

  /** getNarFileFromDB with CDC enabled: the uncompressed row wins. */
  function Lookup(t: Tables, k: NarKey): set<Id> {
    if FilesWithKey(t, ChunkedKey(k)) != {} then FilesWithKey(t, ChunkedKey(k)) else FilesWithKey(t, k)
  }

  /** HasNarInChunks */
  predicate HasChunks(t: Tables, k: NarKey) {
    exists f :: f in Lookup(t, k) && t.narFiles[f].totalChunks > 0
  }

  predicate Chunked(t: Tables, k: NarKey) {
    exists f :: f in FilesWithKey(t, ChunkedKey(k)) && t.narFiles[f].totalChunks > 0
  }

  // ---------------------------------------------------------------- migrateNarToChunksCleanup

  function Rename(r: Repo, k: NarKey): Repo { r.(db := RenameURL(r.db, k, ChunkedKey(k))) }

  /** Deletes the original file or, if there is none, the zstd variant. */
  function Remove(r: Repo, k: NarKey): Repo {
    r.(nars := if k in r.nars || k.compression == ZSTD then r.nars - {k} else r.nars - {ZstdKey(k)})
  }

  function Cleanup(r: Repo, k: NarKey): Repo { Remove(Rename(r, k), k) }

  /** The chunks are complete, the whole file is still there or already gone, and no zstd variant is stored. */
  ghost predicate Ready(r: Repo, k: NarKey) {
    && Consistent(r.db) && k.compression != NONE && Chunked(r.db, k)
    && (k.compression != ZSTD ==> ZstdKey(k) !in r.nars)
  }

  /** What is left once the rename has been done, or not, and the removal has, or not. */
  function Cleaned(r: Repo, k: NarKey, renamed: bool, removed: bool): Repo {
    var r1 := if renamed then Rename(r, k) else r;
    if removed then Remove(r1, k) else r1
  }

  lemma RenameTwice(t: Tables, a: NarKey, b: NarKey)
    requires a != b
    ensures RenameURL(RenameURL(t, a, b), a, b) == RenameURL(t, a, b)
  {}

  lemma RenameKeepsChunked(r: Repo, k: NarKey)
    requires Chunked(r.db, k)
    ensures Chunked(Rename(r, k).db, k) && HasChunks(r.db, k)
  {
    var f :| f in FilesWithKey(r.db, ChunkedKey(k)) && r.db.narFiles[f].totalChunks > 0;
    assert f in FilesWithKey(Rename(r, k).db, ChunkedKey(k));
  }

  /** Both steps of the cleanup may be repeated, in any order and any number of times. */
  lemma CleanupIsIdempotent(r: Repo, k: NarKey, renamed: bool, removed: bool)
    requires Ready(r, k)
    ensures var c := Cleaned(r, k, renamed, removed);
      && Rename(c, k) == Cleaned(r, k, true, removed) && Remove(c, k) == Cleaned(r, k, renamed, true)
      && HasChunks(c.db, k)
  {
    RenameTwice(r.db, k, ChunkedKey(k));
    RenameKeepsChunked(r, k);
    RenameKeepsChunked(Rename(r, k), k);
    assert Remove(Remove(r, k), k).nars == Remove(r, k).nars;
  }

  /** Another NAR stored as zstd under the same hash survives the cleanup only while the original is there to be removed. */
  lemma ZstdVariantSurvivesIff(r: Repo, k: NarKey)
    requires k.compression != ZSTD && ZstdKey(k) in r.nars
    ensures ZstdKey(k) in Cleanup(r, k).nars <==> k in r.nars
  {}

  /** The cleanup removes one file, the original if it is there or itself the zstd form, and otherwise the zstd form. */
  lemma CleanupRemoves(r: Repo, k: NarKey, x: NarKey)
    ensures x in Cleanup(r, k).nars <==>
      && x in r.nars && x != (if k in r.nars || k.compression == "zstd" then k else NarKey(k.hash, "zstd", k.query))
  {}

  // ---------------------------------------------------------------- links

  lemma RelinkedFiles(t: Tables, file: Id, k: NarKey, info: Id)
    requires file in t.narFiles && t.narFiles[file].key != k && info in t.narinfos
    ensures FilesOf(Relinked(t, file, k), info) ==
      FilesOf(t, info) - FilesWithKey(t, k) + (if t.narinfos[info].url == Some(k) then {file} else {})
  {
    var t1, t2 := DeleteFiles(t, FilesWithKey(t, k)), Relinked(t, file, k);
    assert FilesOf(t1, info) == FilesOf(t, info) - FilesWithKey(t, k);
    forall l | l in t2.links && l.info == info
      ensures l in t1.links || (l.file == file && t.narinfos[info].url == Some(k))
    {
    }
    if t.narinfos[info].url == Some(k) {
      assert Link(info, file) in t2.links;
    }
  }

  /**
   What the migration does to the links of any narinfo: those to the old nar_file go, and a link to the
   new one takes their place exactly when the narinfo's URL is the old one.
   */
  lemma MigrationRelinksByURL(r: Repo, k: NarKey, file: Id, info: Id)
    requires Consistent(r.db) && file in r.db.narFiles && r.db.narFiles[file].key == ChunkedKey(k)
    requires k.compression != NONE && info in r.db.narinfos
    ensures var t := Cleanup(r.(db := Relinked(r.db, file, k)), k).db;
      var named := r.db.narinfos[info].url == Some(k);
      && Consistent(t) && info in t.narinfos
      && FilesOf(t, info) == FilesOf(r.db, info) - FilesWithKey(r.db, k) + (if named then {file} else {})
      && t.narinfos[info].url == (if named then Some(ChunkedKey(k)) else r.db.narinfos[info].url)
  {
    var t2 := Relinked(r.db, file, k);
    var t := Cleanup(r.(db := t2), k).db;
    RelinkedFiles(r.db, file, k, info);
    assert t.links == t2.links;
    assert FilesOf(t, info) == FilesOf(t2, info);
  }

  // ---------------------------------------------------------------- the steps of MigrateNarToChunks

  datatype Pc = Idle | Storing | Chunking(file: Id) | Relinking(file: Id) | Renaming | Removing

  datatype State = State(w: Shared, pc: Pc)

  /** `Lock` begins an attempt whose stream will deliver `len` chunks; `Work` are the writer's own steps. */
  datatype Event =
    | Check
    | Lock(file: Id, len: nat, now: nat)
    | AlreadyExists(now: nat)
    | Work(action: Action)
    | Finished
    | Fail
    | RelinkTx
    | RelinkFails
    | RenameTx
    | RenameFails
    | RemoveFile
    | Crash

  predicate OwnWork(file: Id, a: Action) {
    || (a.CleanupStale? && a.file == file)
    || (a.Write? && a.file == file && !Ends(a.step))
    || (a.Delete? && (a.what.DropRecords? || a.what.RemoveFiles? || a.what.DoneWith?))
  }

  /**
   The code passes 0 as the declared size. Once the whole file has been found, either an attempt begins or, if the
   nar_file of the uncompressed form is complete or somebody's lock on it is fresh, the exit is taken that leads
   straight to the cleanup.
   */
  ghost predicate Possible(env: Env, s: State, k: NarKey, e: Event) {
    var db := s.w.repo.db;
    match e
    case Check => s.pc.Idle?
    case Lock(file, len, now) => s.pc.Storing? && Enabled(env, s.w, Begin(file, ChunkedKey(k), 0, len, now))
    case AlreadyExists(now) =>
      s.pc.Storing? && exists f :: IsChunkedFile(db, f, k) && !MayStart(db.narFiles[f], now)
    case Work(a) => s.pc.Chunking? && OwnWork(s.pc.file, a) && Enabled(env, s.w, a)
    case Finished => s.pc.Chunking? && Enabled(env, s.w, Write(s.pc.file, Complete))
    case Fail => s.pc.Storing? || (s.pc.Chunking? && s.pc.file in s.w.attempts)
    case RelinkTx => s.pc.Relinking? && Enabled(env, s.w, Relink(s.pc.file, k))
    case RelinkFails => s.pc.Relinking?
    case RenameTx => s.pc.Renaming?
    case RenameFails => s.pc.Renaming?
    case RemoveFile => s.pc.Removing?
    case Crash => true
  }

  ghost function After(env: Env, s: State, k: NarKey, e: Event): State
    requires Possible(env, s, k, e)
  {
    var r := s.w.repo;
    match e
    case Check => s.(pc := if HasChunks(r.db, k) then Renaming else if k in r.nars then Storing else Idle)
    case Lock(file, len, now) => State(Apply(env, s.w, Begin(file, ChunkedKey(k), 0, len, now)), Chunking(file))
    case AlreadyExists(_) => s.(pc := Renaming)
    case Work(a) => s.(w := Apply(env, s.w, a))
    case Finished => State(Apply(env, s.w, Write(s.pc.file, Complete)), Relinking(s.pc.file))
    case Fail => State((if s.pc.Chunking? then Apply(env, s.w, Write(s.pc.file, Abort)) else s.w).(passes := map[]), Idle)
    case RelinkTx => State(Apply(env, s.w, Relink(s.pc.file, k)), Renaming)
    case RelinkFails => s.(pc := Renaming)
    case RenameTx => State(s.w.(repo := Rename(r, k)), Removing)
    case RenameFails => s.(pc := Removing)
    case RemoveFile => State(s.w.(repo := Remove(r, k)), Idle)
    case Crash => State(s.w.(attempts := map[], passes := map[]), Idle)
  }

  /** Any sequence of steps, crashes and reruns included. */
  datatype Run = Begun(state: State) | Then(past: Run, event: Event)

  ghost predicate Valid(env: Env, run: Run, k: NarKey)
    decreases run, 0
  {
    run.Then? ==> Valid(env, run.past, k) && Possible(env, Last(env, run.past, k), k, run.event)
  }

  ghost function Last(env: Env, run: Run, k: NarKey): State
    requires Valid(env, run, k)
    decreases run, 1
  {
    if run.Begun? then run.state else After(env, Last(env, run.past, k), k, run.event)
  }

  function First(run: Run): State { if run.Begun? then run.state else First(run.past) }

  /**
   What has happened: the length of the last stream begun and of the last one finished, whether the last exit
   before the cleanup was taken on an unfinished NAR, and whether a rename and, before any rename, a relink committed.
   */
  datatype Past = Past(streamed: nat, finished: nat, gaveUp: bool, renamed: bool, relinked: bool, unlinked: bool)

  function Remembered(p: Past, t: Tables, k: NarKey, e: Event): Past {
    match e
    case Lock(_, len, _) => p.(streamed := len)
    case Finished => p.(finished := p.streamed, gaveUp := false)
    case AlreadyExists(_) => p.(gaveUp := !Chunked(t, k))
    case RenameTx => p.(renamed := true)
    case RelinkTx => p.(relinked := p.relinked || !p.renamed, unlinked := p.unlinked || (p.renamed && !p.relinked))
    case _ => p
  }

  ghost function PastOf(env: Env, run: Run, k: NarKey): Past
    requires Valid(env, run, k)
  {
    if run.Begun? then Past(0, 0, false, false, false, false)
    else Remembered(PastOf(env, run.past, k), Last(env, run.past, k).w.repo.db, k, run.event)
  }

  // ---------------------------------------------------------------- the whole file goes only after a complete stream

  predicate IsChunkedFile(t: Tables, f: Id, k: NarKey) { f in t.narFiles && t.narFiles[f].key == ChunkedKey(k) }

  /** Rows of the compressed form are never marked as chunked: chunks are always stored uncompressed. */
  ghost predicate CompressedUnchunked(t: Tables, k: NarKey) {
    forall f :: f in t.narFiles && t.narFiles[f].key == k ==> t.narFiles[f].totalChunks == 0
  }

  /** The nar_file of the uncompressed form, if there is one, says it has n chunks. */
  ghost predicate Totals(t: Tables, k: NarKey, n: nat) {
    forall f :: IsChunkedFile(t, f, k) ==> t.narFiles[f].totalChunks == n
  }

  ghost predicate HasRow(t: Tables, k: NarKey) { exists f :: IsChunkedFile(t, f, k) }

  ghost predicate PcInv(s: State, k: NarKey, p: Past) {
    var db := s.w.repo.db;
    && (if s.pc.Chunking? then
          s.w.attempts.Keys == {s.pc.file} && s.w.attempts[s.pc.file].len == p.streamed && IsChunkedFile(db, s.pc.file, k)
        else s.w.attempts == map[])
    && (s.pc.Relinking? ==> IsChunkedFile(db, s.pc.file, k))
    && (s.pc.Storing? || s.pc.Chunking? ==> k in s.w.repo.nars)
  }

  predicate Cleaning(s: State, k: NarKey) { s.pc.Renaming? || s.pc.Removing? || k !in s.w.repo.nars }

  /** What is recorded is what the last finished stream delivered; the cleanup follows it or an unfinished exit. */
  ghost predicate RecordInv(s: State, k: NarKey, p: Past) {
    && Totals(s.w.repo.db, k, p.finished)
    && (p.finished > 0 || s.pc.Relinking? || Cleaning(s, k) ==> HasRow(s.w.repo.db, k))
    && (p.finished > 0 || s.pc.Relinking? ==> !p.gaveUp && p.finished == p.streamed)
    && (Cleaning(s, k) ==> p.finished == if p.gaveUp then 0 else p.streamed)
  }

  ghost predicate MigrationInv(env: Env, s: State, k: NarKey, p: Past) {
    && Inv(env, s.w) && k.compression != NONE && CompressedUnchunked(s.w.repo.db, k)
    && PcInv(s, k, p) && RecordInv(s, k, p) && WorkInv(s)
  }

  /** The only deleting pass is that of the attempt itself, which puts nothing before it is over. */
  ghost predicate WorkInv(s: State) {
    && (forall i :: i in s.w.passes && s.w.passes[i] != {} ==>
          s.pc.Chunking? && s.pc.file in s.w.attempts && s.w.attempts[s.pc.file].cleanup == Some(i))
    && (s.pc.Chunking? && s.pc.file in s.w.attempts && s.w.attempts[s.pc.file].stale != {} ==>
          s.w.attempts[s.pc.file].received == 0)
  }

  /** So with nothing else running, the migration disturbs nobody, itself included. */
  lemma OwnWorkIsUndisturbed(env: Env, s: State, k: NarKey, p: Past, a: Action)
    requires MigrationInv(env, s, k, p) && s.pc.Chunking? && OwnWork(s.pc.file, a) && Enabled(env, s.w, a)
    ensures Undisturbed(env, s.w, a)
  {
    var at := s.w.attempts[s.pc.file];
    assert AttemptInv(env, s.w.repo.db, s.pc.file, at);
    if a.CleanupStale? && at.stale != {} {
      assert forall h :: !Pending(env, s.w, h);
    }
  }

  lemma WorkKeepsWorkInv(env: Env, s: State, k: NarKey, p: Past, a: Action)
    requires MigrationInv(env, s, k, p) && s.pc.Chunking? && OwnWork(s.pc.file, a) && Enabled(env, s.w, a)
    ensures WorkInv(s.(w := Apply(env, s.w, a)))
  {}

  /** Before the first run: the NAR is stored whole, not chunked, and nobody is at work on it. */
  ghost predicate Unmigrated(env: Env, s: State, k: NarKey) {
    && s.pc.Idle? && Inv(env, s.w) && s.w.attempts == map[] && s.w.passes == map[] && k in s.w.repo.nars && k.compression != NONE
    && !Chunked(s.w.repo.db, k) && CompressedUnchunked(s.w.repo.db, k)
  }

  lemma LookupFindsChunked(t: Tables, k: NarKey)
    requires HasChunks(t, k) && CompressedUnchunked(t, k)
    ensures Chunked(t, k)
  {
    var f :| f in Lookup(t, k) && t.narFiles[f].totalChunks > 0;
    assert FilesWithKey(t, ChunkedKey(k)) != {};
  }

  /** Tables whose nar_files with these two keys have the same totals agree on what is recorded. */
  ghost predicate SameTotals(t: Tables, u: Tables, k: NarKey) {
    && (forall f :: IsChunkedFile(t, f, k) <==> IsChunkedFile(u, f, k))
    && (forall f :: IsChunkedFile(t, f, k) ==> u.narFiles[f].totalChunks == t.narFiles[f].totalChunks)
    && (CompressedUnchunked(t, k) ==> CompressedUnchunked(u, k))
  }

  /** A step that leaves the totals alone, remembers nothing new, and cleans up only if that was justified before. */
  lemma RecordKept(s: State, s': State, k: NarKey, p: Past)
    requires RecordInv(s, k, p) && SameTotals(s.w.repo.db, s'.w.repo.db, k)
    requires s'.pc.Relinking? ==> s.pc.Relinking?
    requires Cleaning(s', k) ==> Cleaning(s, k) || s.pc.Relinking? || p.finished > 0
    ensures RecordInv(s', k, p)
  {
    if HasRow(s.w.repo.db, k) {
      var f :| IsChunkedFile(s.w.repo.db, f, k);
      assert IsChunkedFile(s'.w.repo.db, f, k);
    }
  }

  lemma ChunkedIffFinished(s: State, k: NarKey, p: Past)
    requires RecordInv(s, k, p)
    ensures Chunked(s.w.repo.db, k) <==> p.finished > 0
  {
    if p.finished > 0 {
      var f :| IsChunkedFile(s.w.repo.db, f, k);
      assert f in FilesWithKey(s.w.repo.db, ChunkedKey(k));
    }
    if Chunked(s.w.repo.db, k) {
      var f :| f in FilesWithKey(s.w.repo.db, ChunkedKey(k)) && s.w.repo.db.narFiles[f].totalChunks > 0;
      assert IsChunkedFile(s.w.repo.db, f, k);
    }
  }

  lemma WorkKeepsTotals(env: Env, w: Shared, file: Id, a: Action, k: NarKey)
    requires Enabled(env, w, a) && OwnWork(file, a)
    ensures SameTotals(w.repo.db, Apply(env, w, a).repo.db, k)
    ensures Apply(env, w, a).repo.nars == w.repo.nars
    ensures file in w.attempts ==> Apply(env, w, a).attempts.Keys == w.attempts.Keys
    ensures file in w.attempts ==> Apply(env, w, a).attempts[file].len == w.attempts[file].len
    ensures file in w.repo.db.narFiles ==> file in Apply(env, w, a).repo.db.narFiles
  {}

  lemma WorkKeepsInv(env: Env, s: State, k: NarKey, p: Past, a: Action)
    requires NoEmptyChunks(env) && MigrationInv(env, s, k, p) && Possible(env, s, k, Work(a))
    ensures MigrationInv(env, After(env, s, k, Work(a)), k, p)
  {
    OwnWorkIsUndisturbed(env, s, k, p, a);
    StepKeepsInv(env, s.w, a);
    WorkKeepsTotals(env, s.w, s.pc.file, a, k);
    WorkKeepsWorkInv(env, s, k, p, a);
    RecordKept(s, After(env, s, k, Work(a)), k, p);
  }

  lemma LockKeepsTotals(t: Tables, k: NarKey, file: Id, now: nat, n: nat)
    requires Consistent(t) && k.compression != NONE && Totals(t, k, n) && (n > 0 ==> HasRow(t, k))
    requires var u := CreateNarFile(t, ChunkedKey(k), 0);
      file in FilesWithKey(u, ChunkedKey(k)) && MayStart(u.narFiles[file], now)
    ensures var v := Locked(CreateNarFile(t, ChunkedKey(k), 0), file, 0, now);
      && n == 0 && IsChunkedFile(v, file, k) && Totals(v, k, 0)
      && (CompressedUnchunked(t, k) ==> CompressedUnchunked(v, k))
  {
    var u := CreateNarFile(t, ChunkedKey(k), 0);
    assert Consistent(u);
    assert forall f :: IsChunkedFile(u, f, k) ==> f == file;
    if HasRow(t, k) {
      var f :| IsChunkedFile(t, f, k);
      assert f in FilesWithKey(t, ChunkedKey(k));
      assert IsChunkedFile(u, f, k);
    }
  }

  lemma LockKeepsInv(env: Env, s: State, k: NarKey, p: Past, e: Event)
    requires NoEmptyChunks(env) && MigrationInv(env, s, k, p) && e.Lock? && Possible(env, s, k, e)
    ensures MigrationInv(env, After(env, s, k, e), k, p.(streamed := e.len))
  {
    StepKeepsInv(env, s.w, Begin(e.file, ChunkedKey(k), 0, e.len, e.now));
    LockKeepsTotals(s.w.repo.db, k, e.file, e.now, p.finished);
  }

  lemma FinishKeepsInv(env: Env, s: State, k: NarKey, p: Past)
    requires NoEmptyChunks(env) && MigrationInv(env, s, k, p) && Possible(env, s, k, Finished)
    ensures MigrationInv(env, After(env, s, k, Finished), k, p.(finished := p.streamed, gaveUp := false))
  {
    StepKeepsInv(env, s.w, Write(s.pc.file, Complete));
    var s' := After(env, s, k, Finished);
    assert forall f :: IsChunkedFile(s'.w.repo.db, f, k) ==> f == s.pc.file;
    assert IsChunkedFile(s'.w.repo.db, s.pc.file, k);
  }

  lemma CrashKeepsInv(env: Env, s: State, k: NarKey, p: Past)
    requires MigrationInv(env, s, k, p)
    ensures MigrationInv(env, After(env, s, k, Event.Crash), k, p)
  {
    ForgettingKeepsInv(env, s.w, map[]);
    RecordKept(s, After(env, s, k, Event.Crash), k, p);
  }

  lemma FailKeepsInv(env: Env, s: State, k: NarKey, p: Past)
    requires NoEmptyChunks(env) && MigrationInv(env, s, k, p) && Possible(env, s, k, Fail)
    ensures MigrationInv(env, After(env, s, k, Fail), k, p)
  {
    if s.pc.Chunking? {
      StepKeepsInv(env, s.w, Write(s.pc.file, Abort));
      var w1 := Apply(env, s.w, Write(s.pc.file, Abort));
      ForgettingKeepsInv(env, w1, w1.attempts);
    } else {
      ForgettingKeepsInv(env, s.w, s.w.attempts);
    }
    RecordKept(s, After(env, s, k, Fail), k, p);
  }

  lemma ForgettingKeepsInv(env: Env, w: Shared, attempts: map<Id, Attempt>)
    requires Inv(env, w) && (attempts == map[] || attempts == w.attempts)
    ensures Inv(env, w.(attempts := attempts, passes := map[]))
  {
    BytesKept(env, w, w.(attempts := attempts, passes := map[]));
  }

  lemma RelinkKeepsInv(env: Env, s: State, k: NarKey, p: Past)
    requires NoEmptyChunks(env) && MigrationInv(env, s, k, p) && Possible(env, s, k, RelinkTx)
    ensures MigrationInv(env, After(env, s, k, RelinkTx), k, p)
  {
    StepKeepsInv(env, s.w, Relink(s.pc.file, k));
    RecordKept(s, After(env, s, k, RelinkTx), k, p);
  }

  lemma ExitKeepsInv(env: Env, s: State, k: NarKey, p: Past, e: Event)
    requires MigrationInv(env, s, k, p) && e.AlreadyExists? && Possible(env, s, k, e)
    ensures MigrationInv(env, After(env, s, k, e), k, p.(gaveUp := !Chunked(s.w.repo.db, k)))
  {
    ChunkedIffFinished(s, k, p);
  }

  lemma ChoiceKeepsInv(env: Env, s: State, k: NarKey, p: Past, e: Event)
    requires MigrationInv(env, s, k, p) && Possible(env, s, k, e) && (e.Check? || e.RelinkFails? || e.RenameFails?)
    ensures MigrationInv(env, After(env, s, k, e), k, p)
  {
    if e.Check? && HasChunks(s.w.repo.db, k) {
      LookupFindsChunked(s.w.repo.db, k);
      ChunkedIffFinished(s, k, p);
    }
    RecordKept(s, After(env, s, k, e), k, p);
  }

  lemma RenameKeepsInv(env: Env, s: State, k: NarKey, p: Past)
    requires NoEmptyChunks(env) && MigrationInv(env, s, k, p) && s.pc.Renaming?
    ensures MigrationInv(env, State(s.w.(repo := Rename(s.w.repo, k)), Removing), k, p)
  {
    StepKeepsInv(env, s.w, Save(RenameInfos(k, ChunkedKey(k))));
    SameFilesSameTotals(s.w.repo.db, Rename(s.w.repo, k).db, k);
    RecordKept(s, State(s.w.(repo := Rename(s.w.repo, k)), Removing), k, p);
  }

  lemma RemoveKeepsInv(env: Env, s: State, k: NarKey, p: Past)
    requires NoEmptyChunks(env) && MigrationInv(env, s, k, p) && s.pc.Removing?
    ensures MigrationInv(env, State(s.w.(repo := Remove(s.w.repo, k)), Idle), k, p)
  {
    FewerNarsKeepInv(env, s.w, Remove(s.w.repo, k).nars);
    SameFilesSameTotals(s.w.repo.db, s.w.repo.db, k);
    RecordKept(s, State(s.w.(repo := Remove(s.w.repo, k)), Idle), k, p);
  }

  lemma FewerNarsKeepInv(env: Env, w: Shared, nars: set<NarKey>)
    requires NoEmptyChunks(env) && Inv(env, w) && nars <= w.repo.nars
    ensures Inv(env, w.(repo := w.repo.(nars := nars)))
  {
    StepKeepsInv(env, w, Save(RemoveNars(w.repo.nars - nars)));
    assert w.repo.nars - (w.repo.nars - nars) == nars;
  }

  lemma SameFilesSameTotals(t: Tables, u: Tables, k: NarKey)
    requires u.narFiles == t.narFiles
    ensures SameTotals(t, u, k)
  {}

  /** Rename and relink are remembered for the links only. */
  lemma LinksApart(env: Env, s: State, k: NarKey, p: Past, q: Past)
    requires MigrationInv(env, s, k, p) && q == p.(renamed := q.renamed, relinked := q.relinked, unlinked := q.unlinked)
    ensures MigrationInv(env, s, k, q)
  {}

  lemma StepKeepsMigration(env: Env, s: State, k: NarKey, p: Past, e: Event)
    requires NoEmptyChunks(env) && MigrationInv(env, s, k, p) && Possible(env, s, k, e)
    ensures MigrationInv(env, After(env, s, k, e), k, Remembered(p, s.w.repo.db, k, e))
  {
    match e
    case Work(a) => WorkKeepsInv(env, s, k, p, a);
    case Lock(_, _, _) => LockKeepsInv(env, s, k, p, e);
    case AlreadyExists(_) => ExitKeepsInv(env, s, k, p, e);
    case Finished => FinishKeepsInv(env, s, k, p);
    case Fail => FailKeepsInv(env, s, k, p);
    case Crash => CrashKeepsInv(env, s, k, p);
    case RelinkTx =>
      RelinkKeepsInv(env, s, k, p);
      LinksApart(env, After(env, s, k, e), k, p, Remembered(p, s.w.repo.db, k, e));
    case RenameTx =>
      RenameKeepsInv(env, s, k, p);
      LinksApart(env, After(env, s, k, e), k, p, Remembered(p, s.w.repo.db, k, e));
    case RemoveFile => RemoveKeepsInv(env, s, k, p);
    case _ => ChoiceKeepsInv(env, s, k, p, e);
  }

  lemma {:induction false} RunKeepsMigration(env: Env, run: Run, k: NarKey)
    requires NoEmptyChunks(env) && Valid(env, run, k) && Unmigrated(env, First(run), k)
    ensures MigrationInv(env, Last(env, run, k), k, PastOf(env, run, k))
  {
    if run.Begun? {
      UnmigratedIsGood(env, run.state, k);
    } else {
      RunKeepsMigration(env, run.past, k);
      StepKeepsMigration(env, Last(env, run.past, k), k, PastOf(env, run.past, k), run.event);
    }
  }

  lemma UnmigratedIsGood(env: Env, s: State, k: NarKey)
    requires Unmigrated(env, s, k)
    ensures MigrationInv(env, s, k, Past(0, 0, false, false, false, false))
  {
    assert forall f :: IsChunkedFile(s.w.repo.db, f, k) ==> f in FilesWithKey(s.w.repo.db, ChunkedKey(k));
  }

  /** The chunks are the whole NAR: its rows are its whole list, as many as recorded, and all stored. */
  ghost predicate Intact(env: Env, repo: Repo, f: Id) {
    && f in repo.db.narFiles && ChunksFrom(repo.db, f, 0) == env.nar(f)
    && !ChunksBroken(repo, f, repo.db.narFiles[f].totalChunks)
  }

  lemma IntactIff(env: Env, w: Shared, f: Id)
    requires Inv(env, w) && f in w.repo.db.narFiles
    requires w.repo.db.narFiles[f].totalChunks <= |env.nar(f)|
    requires w.repo.db.narFiles[f].totalChunks == |env.nar(f)| == 0 ==> forall s :: s in w.repo.db.slots ==> s.file != f
    ensures Intact(env, w.repo, f) <==> w.repo.db.narFiles[f].totalChunks == |env.nar(f)|
  {
    var t, total := w.repo.db, w.repo.db.narFiles[f].totalChunks;
    if total == |env.nar(f)| && total > 0 {
      Cluster.CompleteHasItsChunks(env, w, f);
      Cluster.WholeRows(t, f, env.nar(f));
      Cluster.WholeIsNotBroken(env, w.repo, f);
    } else if total == |env.nar(f)| {
      assert ChunkIndices(t, f, 0) == {};
    }
  }

  /**
   In every run of the migration, whatever fails, crashes and is run again: when the whole file is gone, the uncompressed
   nar_file holds the whole NAR in its chunks if and only if the last stream that was finished was as long as the NAR.
   For a NAR of at least one chunk that is: the last stream begun was not truncated, and the cleanup was not
   entered by the exit for a nar_file that is locked and unfinished.
   */
  lemma WholeFileGoneIsChunkedIff(env: Env, run: Run, k: NarKey) returns (f: Id)
    requires NoEmptyChunks(env) && Valid(env, run, k) && Unmigrated(env, First(run), k)
    requires k !in Last(env, run, k).w.repo.nars
    ensures IsChunkedFile(Last(env, run, k).w.repo.db, f, k)
    ensures Intact(env, Last(env, run, k).w.repo, f) <==> PastOf(env, run, k).finished == |env.nar(f)|
    ensures env.nar(f) != [] ==>
      (Intact(env, Last(env, run, k).w.repo, f) <==>
       PastOf(env, run, k).streamed == |env.nar(f)| && !PastOf(env, run, k).gaveUp)
  {
    RunKeepsMigration(env, run, k);
    var w, n := Last(env, run, k).w, PastOf(env, run, k).finished;
    f :| IsChunkedFile(w.repo.db, f, k);
    assert RowsArePrefix(w.repo.db, f, env.nar(f));
    if n > 0 {
      assert TotalInv(env, w.repo.db, f, n);
    }
    IntactIff(env, w, f);
  }

  /** The exit is harmless if and only if the nar_file it finds is complete; the code does not ask which it is. */
  lemma ExitIsRightIff(env: Env, s: State, k: NarKey, p: Past, now: nat) returns (f: Id)
    requires MigrationInv(env, s, k, p) && Possible(env, s, k, AlreadyExists(now))
    ensures IsChunkedFile(s.w.repo.db, f, k) && !MayStart(s.w.repo.db.narFiles[f], now)
    ensures Chunked(s.w.repo.db, k) <==> s.w.repo.db.narFiles[f].totalChunks > 0
    ensures !Chunked(s.w.repo.db, k) ==>
      var row := s.w.repo.db.narFiles[f]; row.chunkingStartedAt.Some? && now < row.chunkingStartedAt.value + LOCK_TTL
  {
    f :| IsChunkedFile(s.w.repo.db, f, k) && !MayStart(s.w.repo.db.narFiles[f], now);
    ChunkedIffFinished(s, k, p);
  }

  lemma GoOn(env: Env, run: Run, k: NarKey, e: Event) returns (more: Run)
    requires Valid(env, run, k) && Possible(env, Last(env, run, k), k, e)
    ensures more == Then(run, e) && Valid(env, more, k) && First(more) == First(run)
    ensures Last(env, more, k) == After(env, Last(env, run, k), k, e)
    ensures PastOf(env, more, k) == Remembered(PastOf(env, run, k), Last(env, run, k).w.repo.db, k, e)
  {
    more := Then(run, e);
  }
}
