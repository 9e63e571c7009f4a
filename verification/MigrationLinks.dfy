/** What a migration does to the narinfos that name the migrated NAR, over all its runs. */
module MigrationLinks {
  import opened Collections
  import opened Database
  import opened Repository
  import opened ChunkingProtocol
  import opened Migration

  predicate Extends(more: Run, run: Run) { more == run || (more.Then? && Extends(more.past, run)) }

  // ---------------------------------------------------------------- after the relink

  /** Whether a rename has committed, or a removal been done, between the two. */
  function RenamedSince(more: Run, run: Run): bool {
    more != run && more.Then? && (more.event.RenameTx? || RenamedSince(more.past, run))
  }

  function RemovedSince(more: Run, run: Run): bool {
    more != run && more.Then? && (more.event.RemoveFile? || RemovedSince(more.past, run))
  }

  predicate InCleanup(s: State) { s.pc.Idle? || s.pc.Renaming? || s.pc.Removing? }

  lemma StepCleans(env: Env, s: State, r: Repo, k: NarKey, renamed: bool, removed: bool, e: Event)
    requires Ready(r, k) && InCleanup(s) && s.w.repo == Cleaned(r, k, renamed, removed) && Possible(env, s, k, e)
    ensures InCleanup(After(env, s, k, e))
    ensures After(env, s, k, e).w.repo == Cleaned(r, k, renamed || e.RenameTx?, removed || e.RemoveFile?)
  {
    CleanupIsIdempotent(r, k, renamed, removed);
  }

  /** Once the chunks are complete and relinked, every run only cleans up: what it leaves is decided by what it got done. */
  lemma {:induction false} RerunsOnlyClean(env: Env, run: Run, more: Run, k: NarKey)
    requires Valid(env, run, k) && Valid(env, more, k) && Extends(more, run)
    requires Ready(Last(env, run, k).w.repo, k) && InCleanup(Last(env, run, k))
    ensures InCleanup(Last(env, more, k))
    ensures Last(env, more, k).w.repo ==
      Cleaned(Last(env, run, k).w.repo, k, RenamedSince(more, run), RemovedSince(more, run))
  {
    if more != run {
      RerunsOnlyClean(env, run, more.past, k);
      StepCleans(env, Last(env, more.past, k), Last(env, run, k).w.repo, k,
                 RenamedSince(more.past, run), RemovedSince(more.past, run), more.event);
    }
  }

  /**
   However often a migration crashes after the relink has committed, and wherever: a rerun that gets as far as the
   removal leaves what the uninterrupted run leaves if and only if some rename has committed or there was none to do.
   */
  lemma CrashesAfterRelinkRecoverIff(env: Env, run: Run, more: Run, k: NarKey)
    requires Valid(env, run, k) && Last(env, run, k).pc.Renaming? && Ready(Last(env, run, k).w.repo, k)
    requires Valid(env, more, k) && Extends(more, run) && RemovedSince(more, run)
    ensures var r, straight := Last(env, run, k).w.repo, Then(Then(run, RenameTx), RemoveFile);
      && Valid(env, straight, k)
      && (Last(env, more, k).w.repo == Last(env, straight, k).w.repo <==>
          RenamedSince(more, run) || Rename(r, k) == r)
  {
    RerunsOnlyClean(env, run, more, k);
    var straight := GoOn(env, run, k, RenameTx);
    straight := GoOn(env, straight, k, RemoveFile);
    RemovalKeepsTables(Last(env, run, k).w.repo, k);
  }

  lemma RemovalKeepsTables(r: Repo, k: NarKey)
    ensures Remove(r, k).db == r.db && Remove(Rename(r, k), k).db == Rename(r, k).db
    ensures Remove(r, k) == Remove(Rename(r, k), k) <==> Rename(r, k) == r
  {}

  // ---------------------------------------------------------------- one narinfo, over every run

  /** Before the first run: the narinfo names the NAR and is linked to its only, whole, nar_file. */
  ghost predicate NamesOld(t: Tables, k: NarKey, info: Id, whole: Id) {
    && info in t.narinfos && t.narinfos[info].url == Some(k)
    && FilesOf(t, info) == {whole} && whole in t.narFiles && t.narFiles[whole].key == k
  }

  ghost predicate LinkInv(t: Tables, k: NarKey, p: Past, info: Id, whole: Id) {
    && info in t.narinfos && t.narinfos[info].url == Some(if p.renamed then ChunkedKey(k) else k)
    && (p.unlinked ==> p.renamed && !p.relinked)
    && (p.relinked ==> HasRow(t, k))
    && (if p.relinked then forall f :: f in FilesOf(t, info) <==> IsChunkedFile(t, f, k)
        else if p.unlinked then FilesOf(t, info) == {}
        else FilesOf(t, info) == {whole} && whole in t.narFiles && t.narFiles[whole].key == k)
  }

  /** Steps that leave narinfos, links and the keys of nar_files alone. */
  ghost predicate SameNames(t: Tables, u: Tables, k: NarKey) {
    && u.narinfos == t.narinfos && u.links == t.links
    && (forall f :: f in t.narFiles ==> f in u.narFiles && u.narFiles[f].key == t.narFiles[f].key)
    && (HasRow(t, k) ==> forall f :: IsChunkedFile(u, f, k) ==> IsChunkedFile(t, f, k))
  }

  lemma SameNamesKeepLinks(t: Tables, u: Tables, k: NarKey, p: Past, q: Past, info: Id, whole: Id)
    requires LinkInv(t, k, p, info, whole) && SameNames(t, u, k)
    requires q.renamed == p.renamed && q.relinked == p.relinked && q.unlinked == p.unlinked
    ensures LinkInv(u, k, q, info, whole)
  {
    assert FilesOf(u, info) == FilesOf(t, info);
    if p.relinked {
      var f :| IsChunkedFile(t, f, k);
      assert IsChunkedFile(u, f, k);
    }
  }

  lemma LockKeepsNames(t: Tables, k: NarKey, file: Id, now: nat)
    requires Consistent(t)
    requires var u := CreateNarFile(t, ChunkedKey(k), 0); file in u.narFiles
    ensures SameNames(t, Locked(CreateNarFile(t, ChunkedKey(k), 0), file, 0, now), k)
  {
    CreateKeepsNames(t, k);
    LockedKeepsNames(CreateNarFile(t, ChunkedKey(k), 0), k, file, now);
  }

  lemma CreateKeepsNames(t: Tables, k: NarKey)
    requires Consistent(t)
    ensures SameNames(t, CreateNarFile(t, ChunkedKey(k), 0), k)
  {
    if HasRow(t, k) {
      var f :| IsChunkedFile(t, f, k);
      assert f in FilesWithKey(t, ChunkedKey(k));
    }
  }

  lemma LockedKeepsNames(t: Tables, k: NarKey, file: Id, now: nat)
    requires file in t.narFiles
    ensures var u := Locked(t, file, 0, now);
      u.narinfos == t.narinfos && u.links == t.links && u.narFiles.Keys == t.narFiles.Keys
      && forall f :: f in t.narFiles ==> u.narFiles[f].key == t.narFiles[f].key
  {}

  lemma WorkKeepsNames(env: Env, w: Shared, file: Id, a: Action, k: NarKey)
    requires Enabled(env, w, a) && (OwnWork(file, a) || a == Write(file, Complete) || a == Write(file, Abort))
    ensures SameNames(w.repo.db, Apply(env, w, a).repo.db, k)
  {}

  lemma RenameKeepsLinks(t: Tables, k: NarKey, p: Past, info: Id, whole: Id)
    requires LinkInv(t, k, p, info, whole) && k.compression != NONE
    ensures LinkInv(RenameURL(t, k, ChunkedKey(k)), k, p.(renamed := true), info, whole)
  {
    var u := RenameURL(t, k, ChunkedKey(k));
    assert FilesOf(u, info) == FilesOf(t, info);
    assert forall f :: IsChunkedFile(u, f, k) <==> IsChunkedFile(t, f, k);
  }

  /** The relink reaches the narinfo only while its URL is still the old one; the old link goes in any case. */
  lemma RelinkKeepsLinks(t: Tables, k: NarKey, p: Past, file: Id, info: Id, whole: Id)
    requires Consistent(t) && k.compression != NONE && IsChunkedFile(t, file, k) && LinkInv(t, k, p, info, whole)
    ensures LinkInv(Relinked(t, file, k), k, Remembered(p, t, k, RelinkTx), info, whole)
  {
    var u := Relinked(t, file, k);
    RelinkedFiles(t, file, k, info);
    assert ChunkedKey(k) != k;
    OnlyRow(t, u, k, file);
    assert !p.relinked && !p.unlinked ==> whole in FilesWithKey(t, k);
  }

  lemma OnlyRow(t: Tables, u: Tables, k: NarKey, file: Id)
    requires Consistent(t) && k.compression != NONE && IsChunkedFile(t, file, k)
    requires u.narFiles == t.narFiles - FilesWithKey(t, k)
    ensures forall f :: IsChunkedFile(t, f, k) <==> f == file
    ensures forall f :: IsChunkedFile(u, f, k) <==> f == file
    ensures file !in FilesWithKey(t, k) && HasRow(u, k)
  {
    assert IsChunkedFile(u, file, k);
  }

  lemma StepKeepsLinks(env: Env, s: State, k: NarKey, p: Past, e: Event, info: Id, whole: Id)
    requires MigrationInv(env, s, k, p) && Possible(env, s, k, e) && LinkInv(s.w.repo.db, k, p, info, whole)
    ensures LinkInv(After(env, s, k, e).w.repo.db, k, Remembered(p, s.w.repo.db, k, e), info, whole)
  {
    if e.RelinkTx? {
      RelinkKeepsLinks(s.w.repo.db, k, p, s.pc.file, info, whole);
    } else if e.RenameTx? {
      RenameKeepsLinks(s.w.repo.db, k, p, info, whole);
    } else {
      OthersKeepNames(env, s, k, e);
      OthersRemembered(p, s.w.repo.db, k, e);
      SameNamesKeepLinks(s.w.repo.db, After(env, s, k, e).w.repo.db, k, p, Remembered(p, s.w.repo.db, k, e), info, whole);
    }
  }

  lemma OthersRemembered(p: Past, t: Tables, k: NarKey, e: Event)
    requires !e.RelinkTx? && !e.RenameTx?
    ensures var q := Remembered(p, t, k, e);
      q.renamed == p.renamed && q.relinked == p.relinked && q.unlinked == p.unlinked
  {}

  lemma OthersKeepNames(env: Env, s: State, k: NarKey, e: Event)
    requires Consistent(s.w.repo.db) && Possible(env, s, k, e) && !e.RelinkTx? && !e.RenameTx?
    ensures SameNames(s.w.repo.db, After(env, s, k, e).w.repo.db, k)
  {
    match e
    case Lock(file, _, now) => LockKeepsNames(s.w.repo.db, k, file, now);
    case Work(a) => WorkKeepsNames(env, s.w, s.pc.file, a, k);
    case Finished => WorkKeepsNames(env, s.w, s.pc.file, Write(s.pc.file, Complete), k);
    case Fail =>
      if s.pc.Chunking? {
        WorkKeepsNames(env, s.w, s.pc.file, Write(s.pc.file, Abort), k);
      }
    case _ =>
  }

  lemma {:induction false} RunKeepsLinks(env: Env, run: Run, k: NarKey, info: Id, whole: Id)
    requires NoEmptyChunks(env) && Valid(env, run, k) && Unmigrated(env, First(run), k)
    requires NamesOld(First(run).w.repo.db, k, info, whole)
    ensures LinkInv(Last(env, run, k).w.repo.db, k, PastOf(env, run, k), info, whole)
  {
    if run.Then? {
      RunKeepsLinks(env, run.past, k, info, whole);
      RunKeepsMigration(env, run.past, k);
      StepKeepsLinks(env, Last(env, run.past, k), k, PastOf(env, run.past, k), run.event, info, whole);
    }
  }

  ghost predicate LinkedToChunks(t: Tables, k: NarKey, info: Id) {
    exists f :: f in FilesOf(t, info) && IsChunkedFile(t, f, k)
  }

  /**
   In every run: a narinfo whose only nar_file was the old one is linked to the uncompressed one if and only if
   a relink committed before any rename did. Otherwise it is linked to the old one or, if a relink came too
   late, to none.
   */
  lemma NarInfoIsRelinkedIff(env: Env, run: Run, k: NarKey, info: Id, whole: Id)
    requires NoEmptyChunks(env) && Valid(env, run, k) && Unmigrated(env, First(run), k)
    requires NamesOld(First(run).w.repo.db, k, info, whole)
    ensures var t, p := Last(env, run, k).w.repo.db, PastOf(env, run, k);
      && (LinkedToChunks(t, k, info) <==> p.relinked)
      && (!p.relinked ==> FilesOf(t, info) == if p.unlinked then {} else {whole})
  {
    RunKeepsLinks(env, run, k, info, whole);
    LinkedByRelink(Last(env, run, k).w.repo.db, k, PastOf(env, run, k), info, whole);
  }

  lemma LinkedByRelink(t: Tables, k: NarKey, p: Past, info: Id, whole: Id)
    requires LinkInv(t, k, p, info, whole) && k.compression != NONE
    ensures LinkedToChunks(t, k, info) <==> p.relinked
    ensures !p.relinked ==> FilesOf(t, info) == if p.unlinked then {} else {whole}
  {
    if p.relinked {
      var f :| IsChunkedFile(t, f, k);
      assert f in FilesOf(t, info);
    }
  }

  /**
   In every run: once the whole file is gone, the narinfo leads to the whole NAR in chunks if and only if it was
   relinked in time and the last stream that was finished was as long as the NAR.
   */
  lemma NarInfoIsServedIff(env: Env, run: Run, k: NarKey, info: Id, whole: Id) returns (f: Id)
    requires NoEmptyChunks(env) && Valid(env, run, k) && Unmigrated(env, First(run), k)
    requires NamesOld(First(run).w.repo.db, k, info, whole) && k !in Last(env, run, k).w.repo.nars
    ensures IsChunkedFile(Last(env, run, k).w.repo.db, f, k)
    ensures var r, p := Last(env, run, k).w.repo, PastOf(env, run, k);
      f in FilesOf(r.db, info) && Intact(env, r, f) <==> p.relinked && p.finished == |env.nar(f)|
  {
    f := WholeFileGoneIsChunkedIff(env, run, k);
    RunKeepsLinks(env, run, k, info, whole);
    RunKeepsMigration(env, run, k);
  }
}
