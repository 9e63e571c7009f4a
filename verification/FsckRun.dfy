/**
 An fsck round inside a run of the cluster: every repair is a sequence of the single statements and file
 removals that may interleave with everything else.
 */
module FsckRun {
  import opened Database
  import opened Repository
  import opened ChunkingProtocol
  import opened Cluster
  import opened Fsck

  /** One more undisturbed step. */
  lemma GoOn(env: Env, run: Run, a: Action) returns (more: Run)
    requires Careful(env, run) && Enabled(env, Last(env, run).shared, a) && Undisturbed(env, Last(env, run).shared, a)
    ensures more == Run.Then(run, Back(a)) && Careful(env, more)
    ensures Last(env, more) == Last(env, run).(shared := Apply(env, Last(env, run).shared, a))
  {
    more := Run.Then(run, Back(a));
  }

  /** From `run` on, nothing has changed but the repository, which is now `r`. */
  ghost predicate Reached(env: Env, run: Run, more: Run, r: Repo) {
    && Careful(env, run) && Careful(env, more) && Extends(more, run)
    && Last(env, more) == Last(env, run).(shared := Last(env, run).shared.(repo := r))
  }

  /** No attempt has a chunk put and not committed. */
  ghost predicate Quiet(env: Env, w: Shared) { forall h :: !Pending(env, w, h) }

  lemma SamePending(env: Env, w: Shared, w': Shared)
    requires w'.attempts == w.attempts && Quiet(env, w)
    ensures Quiet(env, w')
  {
    forall h
      ensures !Pending(env, w', h)
    {
      assert !Pending(env, w, h);
    }
  }

  lemma SaveStep(env: Env, run0: Run, run: Run, r: Repo, m: Metadata) returns (more: Run)
    requires Reached(env, run0, run, r) && (m.MarkVerified? || m.RemoveNars?)
    ensures Reached(env, run0, more, Saved(r, m))
  {
    more := GoOn(env, run, Save(m));
  }

  lemma DropStep(env: Env, run0: Run, run: Run, r: Repo, d: Deletion) returns (more: Run)
    requires Reached(env, run0, run, r) && (d.DropInfos? || d.DropFiles?)
    ensures Reached(env, run0, more,
      r.(db := if d.DropInfos? then DeleteInfos(r.db, d.infos) else DeleteFiles(r.db, d.files)))
  {
    more := GoOn(env, run, Delete(d));
  }

  lemma {:induction false} FreshId(s: set<nat>) returns (p: nat)
    ensures p !in s && forall x :: x in s ==> x < p
    decreases s
  {
    p := 0;
    if s != {} {
      var x :| x in s;
      p := FreshId(s - {x});
      p := if p <= x then x + 1 else p;
      assert forall y :: y in s ==> y == x || y in s - {x};
    }
  }

  /** A pass over unused chunks: list them, remove their files or their records or both, done. */
  lemma SweepSteps(env: Env, run0: Run, run: Run, r: Repo, hashes: set<Hash>, files: bool, records: bool)
    returns (more: Run)
    requires Reached(env, run0, run, r) && Quiet(env, Last(env, run0).shared) && hashes !! r.db.slots.Values
    ensures Reached(env, run0, more,
      r.(db := if records then DeleteChunks(r.db, hashes) else r.db,
         chunkFiles := if files then r.chunkFiles - hashes else r.chunkFiles))
  {
    var p := FreshId(Last(env, run0).shared.passes.Keys);
    more := ListStep(env, run0, run, r, p, hashes);
    more := RemoveAndDrop(env, run0, more, r, p, hashes, files, records);
    more := DoneStep(env, run0, more,
      r.(db := if records then DeleteChunks(r.db, hashes) else r.db,
         chunkFiles := if files then r.chunkFiles - hashes else r.chunkFiles), p, hashes);
  }

  /** As Reached, with the pass p open. */
  ghost predicate Sweeping(env: Env, run: Run, more: Run, r: Repo, p: nat, hashes: set<Hash>) {
    && Careful(env, run) && Careful(env, more) && Extends(more, run)
    && var w := Last(env, run).shared;
       && p !in w.passes
       && Last(env, more) == Last(env, run).(shared := w.(repo := r, passes := w.passes[p := hashes]))
  }

  lemma ListStep(env: Env, run0: Run, run: Run, r: Repo, p: nat, hashes: set<Hash>) returns (more: Run)
    requires Reached(env, run0, run, r) && Quiet(env, Last(env, run0).shared)
    requires hashes !! r.db.slots.Values && p !in Last(env, run0).shared.passes
    ensures Sweeping(env, run0, more, r, p, hashes)
  {
    SamePending(env, Last(env, run0).shared, Last(env, run).shared);
    more := GoOn(env, run, Delete(ListUnused(p, hashes)));
  }

  lemma DoneStep(env: Env, run0: Run, run: Run, r: Repo, p: nat, hashes: set<Hash>) returns (more: Run)
    requires Sweeping(env, run0, run, r, p, hashes)
    ensures Reached(env, run0, more, r)
  {
    var passes := Last(env, run0).shared.passes;
    more := GoOn(env, run, Delete(DoneWith(p, hashes)));
    assert passes[p := hashes] - {p} == passes;
  }

  lemma RemoveAndDrop(env: Env, run0: Run, run: Run, r: Repo, p: nat, hashes: set<Hash>, files: bool, records: bool)
    returns (more: Run)
    requires Sweeping(env, run0, run, r, p, hashes)
    ensures Sweeping(env, run0, more,
      r.(db := if records then DeleteChunks(r.db, hashes) else r.db,
         chunkFiles := if files then r.chunkFiles - hashes else r.chunkFiles), p, hashes)
  {
    more := run;
    var r1 := r;
    if files {
      more := GoOn(env, more, Delete(RemoveFiles(p, hashes)));
      r1 := r.(chunkFiles := r.chunkFiles - hashes);
      assert Sweeping(env, run0, more, r1, p, hashes);
    }
    if records {
      more := GoOn(env, more, Delete(DropRecords(p, hashes)));
    }
  }

  lemma CascadeSteps(env: Env, run0: Run, run: Run, r: Repo, files: set<Id>) returns (more: Run)
    requires Reached(env, run0, run, r)
    ensures Reached(env, run0, more, r.(db := DeleteFilesAndInfos(r.db, files)))
  {
    var u := DeleteFiles(r.db, files);
    more := DropStep(env, run0, run, r, DropFiles(files));
    more := DropStep(env, run0, more, r.(db := u), DropInfos(BareInfos(u) - BareInfos(r.db)));
  }

  lemma CascadeAndSweep(env: Env, run0: Run, run: Run, r: Repo, files: set<Id>) returns (more: Run)
    requires Reached(env, run0, run, r) && Quiet(env, Last(env, run0).shared)
    ensures Reached(env, run0, more, SweepChunks(r.(db := DeleteFilesAndInfos(r.db, files))))
  {
    var r1 := r.(db := DeleteFilesAndInfos(r.db, files));
    more := CascadeSteps(env, run0, run, r, files);
    more := SweepSteps(env, run0, more, r1, OrphanChunks(r1.db), true, true);
  }

  lemma LinkSteps(env: Env, run0: Run, run: Run, r: Repo, f: Findings) returns (more: Run)
    requires Reached(env, run0, run, r)
    ensures Reached(env, run0, more, RepairLinks(r, f))
  {
    var t := DropBareInfos(r.db, f.bareInfos);
    more := DropStep(env, run0, run, r, DropInfos(set i | i in f.bareInfos && FilesOf(r.db, i) == {}));
    more := DropStep(env, run0, more, r.(db := t),
      DropFiles(FilesWithKeys(t, set s | s in f.orphanFiles && Unlinked(t, s.key) :: s.key)));
  }

  lemma WholeFileSteps(env: Env, run0: Run, run: Run, r: Repo, f: Findings) returns (more: Run)
    requires Reached(env, run0, run, r)
    ensures Reached(env, run0, more, RepairWholeFiles(r, f))
  {
    var r2 := RepairLinks(r, f);
    more := LinkSteps(env, run0, run, r, f);
    more := CascadeSteps(env, run0, more, r2,
      FilesWithKeys(r2.db, set s | s in f.missingFiles && s.key !in r2.nars :: s.key));
    var r3 := DropMissingFiles(r2, f.missingFiles);
    more := SaveStep(env, run0, more, r3, RemoveNars(set k | k in f.strayNars && FilesWithKey(r3.db, k) == {}));
  }

  lemma ChunkSteps(env: Env, run0: Run, run: Run, r: Repo, f: Findings) returns (more: Run)
    requires Reached(env, run0, run, r) && Quiet(env, Last(env, run0).shared) && Consistent(r.db)
    ensures Reached(env, run0, more, RepairChunks(r, f))
  {
    var unused := set h | h in f.orphanChunks && h in OrphanChunks(r.db);
    more := SweepSteps(env, run0, run, r, unused, false, true);
    var r1 := r.(db := DropOrphanChunks(r.db, f.orphanChunks));
    OrphanChunkPassPrunes(r, f.orphanChunks);
    more := CascadeAndSweep(env, run0, more, r1,
      FilesWithKeys(r1.db, set s | s in f.brokenFiles && ChunksBroken(r1, s.id, s.totalChunks) :: s.key));
    var r2 := DropBrokenFiles(r1, f.brokenFiles);
    BrokenPassPrunes(r1, f.brokenFiles);
    more := MismatchSteps(env, run0, more, r2, f.mismatchedFiles);
    var r3 := DropMismatchedFiles(r2, f.mismatchedFiles);
    MismatchPassPrunes(r2, f.mismatchedFiles);
    var stray := set h | h in f.strayChunks && h !in r3.db.chunks;
    more := SweepSteps(env, run0, more, r3, stray, true, false);
  }

  lemma MismatchSteps(env: Env, run0: Run, run: Run, r: Repo, suspects: seq<Suspect>) returns (more: Run)
    requires Reached(env, run0, run, r) && Quiet(env, Last(env, run0).shared)
    ensures Reached(env, run0, more, DropMismatchedFiles(r, suspects))
  {
    more := run;
    if suspects != [] {
      more := CascadeAndSweep(env, run0, run, r,
        FilesWithKeys(r.db, set s | s in suspects && s.id in SizeMismatches(r.db) :: s.key));
    }
  }

  /** While no attempt has uncommitted chunks, a whole round is a run of single steps, with exactly its outcome. */
  lemma RoundIsARun(env: Env, run: Run, now: nat, f: Findings) returns (more: Run)
    requires Careful(env, run) && Quiet(env, Last(env, run).shared) && Consistent(Last(env, run).shared.repo.db)
    requires Collected(Stamp(Last(env, run).shared.repo, now), f)
    ensures exists r :: Reached(env, run, more, r) && Round(Last(env, run).shared.repo, r, now, f)
  {
    var r := Last(env, run).shared.repo;
    var s := Stamp(r, now);
    var passed := r.db.narFiles.Keys - MissingFiles(r) - BrokenFiles(r) - SizeMismatches(r.db);
    assert Reached(env, run, run, r);
    more := SaveStep(env, run, run, r, MarkVerified(passed, now));
    StampPrunes(r, now);
    if NoIssues(f) {
      assert Reached(env, run, more, s);
    } else {
      more := WholeFileSteps(env, run, more, s, f);
      WholeFilePassesPrune(s, f);
      more := ChunkSteps(env, run, more, RepairWholeFiles(s, f), f);
      assert Reached(env, run, more, Repair(s, f));
    }
  }
}
