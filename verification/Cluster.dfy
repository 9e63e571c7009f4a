/** Whole runs: any number of instances chunking, saving, evicting, repairing and reading, in any order. */
module Cluster {
  import opened Database
  import opened Repository
  import opened ChunkingProtocol
  import opened ChunkReader
  import Eviction

  datatype World = World(shared: Shared, readers: map<nat, Reader>)

  datatype Step =
    | Back(action: Action)
    | OpenReader(id: nat, file: Id)
    | Front(id: nat, move: Move)

  ghost predicate StepEnabled(env: Env, w: World, s: Step) {
    match s
    case Back(a) => Enabled(env, w.shared, a)
    case OpenReader(id, file) => id !in w.readers && file in w.shared.repo.db.narFiles
    case Front(id, m) => id in w.readers && MoveEnabled(env, w.readers[id], m)
  }

  ghost function Next(env: Env, w: World, s: Step): World
    requires StepEnabled(env, w, s)
  {
    match s
    case Back(a) => w.(shared := Apply(env, w.shared, a))
    case OpenReader(id, file) => w.(readers := w.readers[id := Open(w.shared.repo.db, file)])
    case Front(id, m) => w.(readers := w.readers[id := Moved(env, w.shared.repo, w.readers[id], m)])
  }

  ghost predicate WorldInv(env: Env, w: World) {
    && Inv(env, w.shared)
    && forall id :: id in w.readers ==> ReaderInv(env, w.readers[id])
  }

  /** The hypothesis on a step. */
  ghost predicate StepUndisturbed(env: Env, w: World, s: Step)
    requires StepEnabled(env, w, s)
  {
    s.Back? ==> Undisturbed(env, w.shared, s.action)
  }

  lemma StepKeepsWorldInv(env: Env, w: World, s: Step)
    requires NoEmptyChunks(env) && WorldInv(env, w) && StepEnabled(env, w, s) && StepUndisturbed(env, w, s)
    ensures WorldInv(env, Next(env, w, s))
  {
    match s
    case Back(a) => StepKeepsInv(env, w.shared, a);
    case OpenReader(id, file) => OpenIsGood(env, w.shared.repo.db, file);
    case Front(id, m) => MoveKeepsInv(env, w.shared.repo, w.readers[id], m);
  }

  // ---------------------------------------------------------------- runs

  /** An installation before anything was cached. */
  const EMPTY: World := World(Shared(Repo(Tables(map[], map[], {}, {}, map[], 0), {}, {}), map[], map[], {}), map[])

  /** The steps taken since then. */
  datatype Run = Start | Then(past: Run, step: Step)

  /** A run of the code. */
  ghost predicate Valid(env: Env, run: Run)
    decreases run, 0
  {
    run.Then? ==> Valid(env, run.past) && StepEnabled(env, Last(env, run.past), run.step)
  }

  ghost function Last(env: Env, run: Run): World
    requires Valid(env, run)
    decreases run, 1
  {
    if run.Start? then EMPTY else Next(env, Last(env, run.past), run.step)
  }

  /** A run in which the hypothesis held at every step. */
  ghost predicate Careful(env: Env, run: Run) {
    && Valid(env, run)
    && (run.Then? ==> Careful(env, run.past) && StepUndisturbed(env, Last(env, run.past), run.step))
  }

  lemma {:induction false} RunKeepsInv(env: Env, run: Run)
    requires NoEmptyChunks(env) && Careful(env, run)
    ensures WorldInv(env, Last(env, run))
  {
    if run.Then? {
      RunKeepsInv(env, run.past);
      StepKeepsWorldInv(env, Last(env, run.past), run.step);
    }
  }

  /** In every careful run, every nar_file_chunks row points to a chunk record whose bytes are stored. */
  lemma RowsAlwaysLeadToBytes(env: Env, run: Run, s: Slot)
    requires NoEmptyChunks(env) && Careful(env, run) && s in Last(env, run).shared.repo.db.slots
    ensures var repo := Last(env, run).shared.repo;
      repo.db.slots[s] in repo.db.chunks && repo.db.slots[s] in repo.chunkFiles
  {
    RunKeepsInv(env, run);
  }

  /**
   In every careful run, what a reader has emitted is a prefix of the NAR; if it finished without an error and
   was not cancelled, and attempts on that nar_file are given the declared size, it has emitted exactly the NAR.
   */
  lemma ReadersEmitTheNar(env: Env, run: Run, id: nat)
    requires NoEmptyChunks(env) && Careful(env, run) && id in Last(env, run).readers
    ensures var r := Last(env, run).readers[id];
      && r.out <= Flatten(env, env.nar(r.file))
      && (r.status.Finished? && !r.cancelled ==> 0 < r.total <= r.copied)
      && (r.status.Finished? && !r.cancelled && env.validated(r.file) ==> r.out == Flatten(env, env.nar(r.file)))
  {
    RunKeepsInv(env, run);
    var r := Last(env, run).readers[id];
    EmitsPrefix(env, r);
    if r.status.Finished? && !r.cancelled {
      FinishEmitsTotal(env, r);
    }
  }

  lemma {:induction false} RunKeepsComplete(env: Env, run: Run, id: nat)
    requires Valid(env, run) && id in Last(env, run).readers
    ensures CompleteInv(Last(env, run).readers[id])
  {
    match run.step
    case Back(_) => RunKeepsComplete(env, run.past, id);
    case OpenReader(newId, file) =>
      OpenIsComplete(Last(env, run.past).shared.repo.db, file);
      if newId != id {
        RunKeepsComplete(env, run.past, id);
      }
    case Front(moved, m) =>
      RunKeepsComplete(env, run.past, id);
      if moved == id {
        MoveKeepsComplete(env, Last(env, run.past).shared.repo, Last(env, run.past).readers[id], m);
      }
  }

  /**
   In every careful run, declared sizes or not: an uncancelled success whose recorded total is the length of the NAR is
   the whole NAR, and a reader opened on a complete nar_file has the whole NAR only then.
   */
  lemma RecordedTotalDecides(env: Env, run: Run, id: nat)
    requires NoEmptyChunks(env) && Careful(env, run) && id in Last(env, run).readers
    requires var r := Last(env, run).readers[id]; r.status.Finished? && !r.cancelled
    ensures var r := Last(env, run).readers[id];
      && (r.total == |env.nar(r.file)| ==> r.out == Flatten(env, env.nar(r.file)))
      && (r.complete ==> (r.out == Flatten(env, env.nar(r.file)) <==> r.total == |env.nar(r.file)|))
  {
    RunKeepsInv(env, run);
    RunKeepsComplete(env, run, id);
    var r := Last(env, run).readers[id];
    if r.total == |env.nar(r.file)| {
      RightTotalIsWhole(env, r);
    }
    if r.complete {
      CompletePathIsWholeIff(env, r);
    }
  }

  /** A complete nar_file: its first `total` rows are there, in stream order, and so are their bytes. */
  ghost predicate HasItsChunks(env: Env, repo: Repo, f: Id) {
    && f in repo.db.narFiles && 0 < repo.db.narFiles[f].totalChunks <= |env.nar(f)|
    && (forall i: nat :: i < repo.db.narFiles[f].totalChunks ==>
          Slot(f, i) in repo.db.slots && repo.db.slots[Slot(f, i)] == env.nar(f)[i] && env.nar(f)[i] in repo.chunkFiles)
  }

  /** In every careful run, a nar_file marked complete has its chunks; with a declared size they are the whole list. */
  lemma CompleteNarsHaveTheirRows(env: Env, run: Run, f: Id)
    requires NoEmptyChunks(env) && Careful(env, run)
    requires var db := Last(env, run).shared.repo.db; f in db.narFiles && db.narFiles[f].totalChunks > 0
    ensures var repo := Last(env, run).shared.repo;
      && HasItsChunks(env, repo, f)
      && (env.validated(f) ==>
            ChunksFrom(repo.db, f, 0) == env.nar(f) && !ChunksBroken(repo, f, repo.db.narFiles[f].totalChunks))
  {
    RunKeepsInv(env, run);
    CompleteHasItsChunks(env, Last(env, run).shared, f);
  }

  lemma CompleteHasItsChunks(env: Env, w: Shared, f: Id)
    requires Inv(env, w) && f in w.repo.db.narFiles && w.repo.db.narFiles[f].totalChunks > 0
    ensures HasItsChunks(env, w.repo, f)
    ensures env.validated(f) ==>
      ChunksFrom(w.repo.db, f, 0) == env.nar(f) && !ChunksBroken(w.repo, f, w.repo.db.narFiles[f].totalChunks)
  {
    var t, total := w.repo.db, w.repo.db.narFiles[f].totalChunks;
    assert RowsArePrefix(t, f, env.nar(f)) && TotalInv(env, t, f, total);
    forall i: nat | i < total
      ensures Slot(f, i) in t.slots && t.slots[Slot(f, i)] == env.nar(f)[i] && env.nar(f)[i] in w.repo.chunkFiles
    {
      assert Slot(f, total - 1) in t.slots;
    }
    if env.validated(f) {
      WholeRows(t, f, env.nar(f));
      WholeIsNotBroken(env, w.repo, f);
    }
  }

  lemma WholeIsNotBroken(env: Env, repo: Repo, f: Id)
    requires HasItsChunks(env, repo, f) && ChunksFrom(repo.db, f, 0) == env.nar(f)
    requires repo.db.narFiles[f].totalChunks == |env.nar(f)|
    ensures !ChunksBroken(repo, f, |env.nar(f)|)
  {
    assert forall i :: 0 <= i < |env.nar(f)| ==> env.nar(f)[i] in repo.chunkFiles;
  }

  /** Rows up to the last chunk of the listing are the whole listing. */
  lemma WholeRows(t: Tables, f: Id, listing: seq<Hash>)
    requires RowsArePrefix(t, f, listing) && listing != [] && Slot(f, |listing| - 1) in t.slots
    ensures ChunksFrom(t, f, 0) == listing
  {
    QueryReturnsSegment(t, f, listing, 0);
  }

  // ---------------------------------------------------------------- what deleting passes spare

  /** The step deletes neither end of the link. */
  ghost predicate Spares(w: Shared, a: Action, l: Link) {
    match a
    case Relink(_, previous) => l.file in w.repo.db.narFiles && w.repo.db.narFiles[l.file].key != previous
    case Delete(Evict(evicted, _)) => l.info !in evicted
    case Delete(DropInfos(infos)) => l.info !in infos
    case Delete(DropFiles(files)) => l.file !in files
    case _ => true
  }

  ghost predicate LinkedAndComplete(w: Shared, l: Link, total: nat) {
    l in w.repo.db.links && l.file in w.repo.db.narFiles && w.repo.db.narFiles[l.file].totalChunks == total > 0
  }

  lemma EvictionSpares(t: Tables, evicted: set<Id>, l: Link)
    requires Consistent(t) && l in t.links && l.info !in evicted
    ensures l in Eviction.AfterEviction(t, evicted, true).links
    ensures l.file in Eviction.AfterEviction(t, evicted, true).narFiles
  {
    var u := DeleteInfos(t, evicted);
    Eviction.SweepPrunes(u, true);
    assert l in u.links;
  }

  lemma DeletionSparesNar(env: Env, w: Shared, d: Deletion, l: Link, total: nat)
    requires BytesInv(env, w) && CanDelete(w, d) && LinkedAndComplete(w, l, total) && Spares(w, Delete(d), l)
    ensures LinkedAndComplete(Deleted(w, d), l, total)
  {
    DeletionPrunes(env, w, d);
    if d.Evict? {
      EvictionSpares(w.repo.db, d.evicted, l);
    }
  }

  lemma WriteSparesNar(env: Env, w: Shared, file: Id, step: WriterStep, l: Link, total: nat)
    requires file in w.attempts && AttemptInv(env, w.repo.db, file, w.attempts[file])
    requires CanWrite(env, w, file, w.attempts[file], step) && LinkedAndComplete(w, l, total)
    ensures LinkedAndComplete(w.(repo := Written(env, w, file, w.attempts[file], step)), l, total)
  {}

  lemma BeginSparesNar(t: Tables, a: Action, l: Link)
    requires a.Begin? && Consistent(t) && l in t.links && t.narFiles[l.file].totalChunks > 0
    requires var u := CreateNarFile(t, a.key, a.size); a.file in u.narFiles && MayStart(u.narFiles[a.file], a.now)
    ensures var v := Locked(CreateNarFile(t, a.key, a.size), a.file, a.size, a.now);
      l in v.links && l.file in v.narFiles && v.narFiles[l.file] == t.narFiles[l.file]
  {}

  lemma RelinkSparesNar(t: Tables, file: Id, previous: NarKey, l: Link)
    requires file in t.narFiles && t.narFiles[file].key != previous
    requires l in t.links && l.file in t.narFiles && t.narFiles[l.file].key != previous
    ensures l in Relinked(t, file, previous).links && l.file in Relinked(t, file, previous).narFiles
    ensures Relinked(t, file, previous).narFiles[l.file] == t.narFiles[l.file]
  {}

  /** Whatever else an eviction or a repair deletes, and whoever shares the chunks, a linked complete NAR stays so. */
  lemma StepSparesNar(env: Env, w: Shared, a: Action, l: Link, total: nat)
    requires Inv(env, w) && Enabled(env, w, a) && !a.WriteLate?
    requires LinkedAndComplete(w, l, total) && Spares(w, a, l)
    ensures LinkedAndComplete(Apply(env, w, a), l, total)
  {
    match a
    case Delete(d) => DeletionSparesNar(env, w, d, l, total);
    case Write(file, step) => WriteSparesNar(env, w, file, step, l, total);
    case Begin(_, _, _, _, _) => BeginSparesNar(w.repo.db, a, l);
    case Relink(file, previous) => RelinkSparesNar(w.repo.db, file, previous, l);
    case Save(m) =>
      if m.EnsureFile? {
        EnsuringAddsOne(w.repo.db, m.key, m.size);
      } else {
        SavingKeepsRows(w, m);
      }
    case _ =>
  }

  predicate Extends(more: Run, run: Run) { more == run || (more.Then? && Extends(more.past, run)) }

  ghost predicate SparedSince(env: Env, more: Run, run: Run, l: Link) {
    && Valid(env, more)
    && (more != run ==>
          && more.Then? && SparedSince(env, more.past, run, l)
          && (more.step.Back? ==> Spares(Last(env, more.past).shared, more.step.action, l)))
  }

  /**
   From any point of a careful run, however it goes on: as long as no step deletes its narinfo or its nar_file,
   a linked complete NAR keeps its link, its total, all its rows and all its bytes.
   */
  lemma {:induction false} LinkedNarStaysWhole(env: Env, run: Run, more: Run, l: Link, total: nat)
    requires NoEmptyChunks(env) && Careful(env, more) && Extends(more, run) && SparedSince(env, more, run, l)
    requires Valid(env, run) && LinkedAndComplete(Last(env, run).shared, l, total)
    ensures LinkedAndComplete(Last(env, more).shared, l, total)
    ensures HasItsChunks(env, Last(env, more).shared.repo, l.file)
  {
    if more != run {
      LinkedNarStaysWhole(env, run, more.past, l, total);
      RunKeepsInv(env, more.past);
      if more.step.Back? {
        StepSparesNar(env, Last(env, more.past).shared, more.step.action, l, total);
      }
    }
    CompleteNarsHaveTheirRows(env, more, l.file);
  }
}
