/** The fsck command as it runs: loops over query results, one row or one file at a time. */
module FsckCommand {
  import opened Collections
  import opened Database
  import opened Repository
  import opened Fsck

  // ---------------------------------------------------------------- deleting one by one

  lemma DeleteInfosTwice(t: Tables, a: set<Id>, b: set<Id>)
    ensures DeleteInfos(DeleteInfos(t, a), b) == DeleteInfos(t, a + b)
  {}

  lemma DeleteFilesTwice(t: Tables, a: set<Id>, b: set<Id>)
    ensures DeleteFiles(DeleteFiles(t, a), b) == DeleteFiles(t, a + b)
  {}

  lemma DeleteChunksTwice(t: Tables, a: set<Hash>, b: set<Hash>)
    ensures DeleteChunks(DeleteChunks(t, a), b) == DeleteChunks(t, a + b)
  {}

  lemma StampTwice(t: Tables, a: set<Id>, b: set<Id>, now: nat)
    ensures StampFiles(StampFiles(t, a, now), b, now) == StampFiles(t, a + b, now)
  {}

  lemma DeleteKeysTwice(t: Tables, a: set<NarKey>, key: NarKey)
    ensures var u := DeleteFiles(t, FilesWithKeys(t, a));
      DeleteFiles(u, FilesWithKey(u, key)) == DeleteFiles(t, FilesWithKeys(t, a + {key}))
  {
    var u := DeleteFiles(t, FilesWithKeys(t, a));
    DeleteFilesTwice(t, FilesWithKeys(t, a), FilesWithKey(u, key));
    assert FilesWithKeys(t, a) + FilesWithKey(u, key) == FilesWithKeys(t, a + {key});
  }

  /** Rows reported earlier still name the same nar_file, if it still exists. */
  ghost predicate Snapshots(t: Tables, suspects: seq<Suspect>) {
    forall s :: s in suspects && s.id in t.narFiles ==> t.narFiles[s.id].key == s.key
  }

  lemma BareDeletesKeepLinks(t: Tables, ids: set<Id>)
    requires forall i :: i in ids ==> FilesOf(t, i) == {}
    ensures DeleteInfos(t, ids).links == t.links
  {
    assert forall l :: l in t.links ==> l.file in FilesOf(t, l.info);
  }

  lemma UnlinkedDeletesKeepLinks(t: Tables, keys: set<NarKey>, key: NarKey)
    requires Consistent(t) && forall k :: k in keys ==> Unlinked(t, k)
    ensures var u := DeleteFiles(t, FilesWithKeys(t, keys));
      key !in keys ==> (Unlinked(u, key) <==> Unlinked(t, key))
  {
    var u := DeleteFiles(t, FilesWithKeys(t, keys));
    forall l | l in t.links
      ensures l in u.links
    {
      assert l.file in FilesWithKey(t, t.narFiles[l.file].key) * LinkedFiles(t);
    }
    if key !in keys {
      assert FilesWithKey(u, key) == FilesWithKey(t, key);
      assert u.links == t.links;
    }
  }

  /** Deleting other nar_files does not change whether a suspect's chunks are broken. */
  lemma BrokenCheckIsStable(r: Repo, keys: set<NarKey>, s: Suspect)
    requires Consistent(r.db) && (s.id in r.db.narFiles ==> r.db.narFiles[s.id].key == s.key)
    ensures var r' := r.(db := DeleteFiles(r.db, FilesWithKeys(r.db, keys)));
      s.key !in keys ==> (ChunksBroken(r', s.id, s.totalChunks) <==> ChunksBroken(r, s.id, s.totalChunks))
  {
    var r' := r.(db := DeleteFiles(r.db, FilesWithKeys(r.db, keys)));
    if s.key !in keys {
      assert ChunkIndices(r'.db, s.id, 0) == ChunkIndices(r.db, s.id, 0);
      assert ChunksFrom(r'.db, s.id, 0) == ChunksFrom(r.db, s.id, 0);
    }
  }

  function BrokenKeys(r: Repo, suspects: seq<Suspect>): set<NarKey> {
    set s | s in suspects && ChunksBroken(r, s.id, s.totalChunks) :: s.key
  }

  lemma BrokenKeysOfPrefix(r: Repo, suspects: seq<Suspect>, i: nat)
    requires i < |suspects|
    ensures var s := suspects[i];
      BrokenKeys(r, suspects[..i + 1]) ==
      BrokenKeys(r, suspects[..i]) + (if ChunksBroken(r, s.id, s.totalChunks) then {s.key} else {})
  {
    assert suspects[..i + 1] == suspects[..i] + [suspects[i]];
  }

  function UnlinkedKeys(t: Tables, suspects: seq<Suspect>): set<NarKey> {
    set s | s in suspects && Unlinked(t, s.key) :: s.key
  }

  lemma UnlinkedKeysOfPrefix(t: Tables, suspects: seq<Suspect>, i: nat)
    requires i < |suspects|
    ensures var key := suspects[i].key;
      UnlinkedKeys(t, suspects[..i + 1]) == UnlinkedKeys(t, suspects[..i]) + (if Unlinked(t, key) then {key} else {})
  {
    assert suspects[..i + 1] == suspects[..i] + [suspects[i]];
  }

  /** The nar_files whose whole file phase 1c finds in the NAR store. */
  function PresentFiles(r: Repo): set<Id> {
    set f | f in r.db.narFiles && r.db.narFiles[f].totalChunks == 0 && r.db.narFiles[f].key in r.nars
  }

  /** The chunked nar_files without a chunk issue or a size mismatch. */
  function HealthyChunked(r: Repo): set<Id> {
    set f | f in r.db.narFiles && r.db.narFiles[f].totalChunks > 0 && f !in BrokenFiles(r) && f !in SizeMismatches(r.db)
  }

  lemma MismatchesExist(t: Tables)
    ensures SizeMismatches(t) <= t.narFiles.Keys
  {}

  lemma ListsAfterStamp(t: Tables, files: set<Id>, now: nat, suspects: seq<Suspect>, ids: set<Id>)
    requires Lists(t, suspects, ids)
    ensures Lists(StampFiles(t, files, now), suspects, ids)
  {
    var u := StampFiles(t, files, now);
    assert forall f :: f in t.narFiles ==> f in u.narFiles && SuspectOf(u, f) == SuspectOf(t, f);
  }

  /** Phase 1 marks rows between its queries; its lists are right for the state it leaves behind. */
  lemma CollectedInStages(start: Repo, mid: Repo, end: Repo, now: nat, f: Findings)
    requires Consistent(start.db)
    requires mid == start.(db := StampFiles(start.db, PresentFiles(start), now))
    requires end == mid.(db := StampFiles(mid.db, HealthyChunked(mid), now))
    requires forall i :: i in f.bareInfos <==> i in BareInfos(start.db)
    requires Lists(start.db, f.orphanFiles, OrphanFiles(start.db))
    requires Lists(start.db, f.missingFiles, MissingFiles(start))
    requires forall k :: k in f.strayNars <==> k in StrayNars(mid)
    requires forall h :: h in f.orphanChunks <==> h in OrphanChunks(mid.db)
    requires Lists(mid.db, f.brokenFiles, BrokenFiles(mid))
    requires Lists(mid.db, f.mismatchedFiles, SizeMismatches(mid.db))
    requires forall h :: h in f.strayChunks <==> h in StrayChunks(end)
    ensures end == Stamp(start, now) && Collected(end, f)
  {
    StampKeepsQueries(start, PresentFiles(start), now);
    StampKeepsQueries(mid, HealthyChunked(mid), now);
    ListsAfterStamp(start.db, PresentFiles(start), now, f.orphanFiles, OrphanFiles(start.db));
    ListsAfterStamp(start.db, PresentFiles(start), now, f.missingFiles, MissingFiles(start));
    ListsAfterStamp(mid.db, HealthyChunked(mid), now, f.orphanFiles, OrphanFiles(start.db));
    ListsAfterStamp(mid.db, HealthyChunked(mid), now, f.missingFiles, MissingFiles(start));
    ListsAfterStamp(mid.db, HealthyChunked(mid), now, f.brokenFiles, BrokenFiles(mid));
    ListsAfterStamp(mid.db, HealthyChunked(mid), now, f.mismatchedFiles, SizeMismatches(mid.db));
    StampedInStages(start, mid, now);
    StampTwice(start.db, PresentFiles(start), HealthyChunked(mid), now);
  }

  lemma StampedInStages(start: Repo, mid: Repo, now: nat)
    requires Consistent(start.db) && mid == start.(db := StampFiles(start.db, PresentFiles(start), now))
    ensures PresentFiles(start) + HealthyChunked(mid)
         == start.db.narFiles.Keys - MissingFiles(start) - BrokenFiles(start) - SizeMismatches(start.db)
  {
    StampKeepsQueries(start, PresentFiles(start), now);
  }

  ghost predicate ReVerified(r: Repo, f: Findings, g: Findings) {
    && (forall i :: i in g.bareInfos <==> i in f.bareInfos && FilesOf(r.db, i) == {})
    && (forall s :: s in g.orphanFiles <==> s in f.orphanFiles && Unlinked(r.db, s.key))
    && (forall s :: s in g.missingFiles <==> s in f.missingFiles && s.key !in r.nars)
    && (forall k :: k in g.strayNars <==> k in f.strayNars && FilesWithKey(r.db, k) == {})
    && (forall h :: h in g.orphanChunks <==> h in f.orphanChunks && h in OrphanChunks(r.db))
    && (forall s :: s in g.brokenFiles <==> s in f.brokenFiles && ChunksBroken(r, s.id, s.totalChunks))
    && (forall s :: s in g.mismatchedFiles <==> s in f.mismatchedFiles && s.id in SizeMismatches(r.db))
    && (forall h :: h in g.strayChunks <==> h in f.strayChunks && h !in r.db.chunks)
  }

  /**
   Whatever has happened since the collection, re-verification keeps of each list exactly the entries that are issues
   now: on the links, the stores and the rows.
   */
  ghost predicate StillIssues(r: Repo, f: Findings, g: Findings) {
    var t := r.db;
    && (forall i :: i in g.bareInfos <==> i in f.bareInfos && forall l :: l in t.links ==> l.info != i)
    && (forall s :: s in g.orphanFiles <==>
          s in f.orphanFiles && forall l :: l in t.links && l.file in t.narFiles ==> t.narFiles[l.file].key != s.key)
    && (forall s :: s in g.missingFiles <==> s in f.missingFiles && s.key !in r.nars)
    && (forall k :: k in g.strayNars <==> k in f.strayNars && forall n :: n in t.narFiles ==> t.narFiles[n].key != k)
    && (forall h :: h in g.orphanChunks <==>
          h in f.orphanChunks && h in t.chunks && forall s :: s in t.slots ==> t.slots[s] != h)
    && (forall h :: h in g.strayChunks <==> h in f.strayChunks && h !in t.chunks)
  }

  ghost predicate StillBroken(r: Repo, f: Findings, g: Findings) {
    var t := r.db;
    && (forall s :: s in g.brokenFiles <==>
          && s in f.brokenFiles
          && (|| |set q | q in t.slots && q.file == s.id| != s.totalChunks
              || exists q :: q in t.slots && q.file == s.id && t.slots[q] !in r.chunkFiles))
    && (forall s :: s in g.mismatchedFiles <==>
          && s in f.mismatchedFiles && s.id in t.narFiles && t.narFiles[s.id].totalChunks > 0
          && exists l :: l in t.links && l.file == s.id && l.info in t.narinfos
               && t.narinfos[l.info].narSize.Some? && t.narinfos[l.info].narSize.value != t.narFiles[s.id].fileSize)
  }

  lemma ReVerifiedIff(r: Repo, f: Findings, g: Findings)
    requires ReVerified(r, f, g)
    ensures StillIssues(r, f, g) && StillBroken(r, f, g)
  {
    forall i
      ensures FilesOf(r.db, i) == {} <==> forall l :: l in r.db.links ==> l.info != i
    {
      assert forall l :: l in r.db.links && l.info == i ==> l.file in FilesOf(r.db, i);
    }
    forall k {
      UnlinkedIff(r.db, k);
    }
    forall s: Suspect {
      ChunksBrokenIff(r, s.id, s.totalChunks);
    }
    forall f
      ensures f in SizeMismatches(r.db) <==> exists l :: l in r.db.links && l.file == f && Mismatched(r.db, l)
    {}
  }

  lemma UnlinkedIff(t: Tables, key: NarKey)
    ensures Unlinked(t, key) <==> forall l :: l in t.links && l.file in t.narFiles ==> t.narFiles[l.file].key != key
    ensures FilesWithKey(t, key) == {} <==> forall n :: n in t.narFiles ==> t.narFiles[n].key != key
  {
    assert forall n :: n in t.narFiles && t.narFiles[n].key == key ==> n in FilesWithKey(t, key);
    assert forall l :: l in t.links && l.file in FilesWithKey(t, key) ==> l.file in FilesWithKey(t, key) * LinkedFiles(t);
  }

  /** With nothing else running, re-verification keeps exactly what was collected. */
  lemma ReVerifyKeepsCollected(r: Repo, f: Findings, g: Findings)
    requires Consistent(r.db) && Collected(r, f) && ReVerified(r, f, g)
    ensures Collected(r, g)
  {
    assert forall i :: i in BareInfos(r.db) ==> FilesOf(r.db, i) == {};
    forall s | s in f.orphanFiles
      ensures Unlinked(r.db, s.key)
    {
      assert FilesWithKey(r.db, s.key) == {s.id};
    }
  }

  class Command {
    var db: Tables
    var nars: set<NarKey>
    var chunkFiles: set<Hash>

    constructor (r: Repo)
      ensures State() == r
    {
      db, nars, chunkFiles := r.db, r.nars, r.chunkFiles;
    }

    ghost function State(): Repo
      reads this
    {
      Repo(db, nars, chunkFiles)
    }

    // -------------------------------------------------------------- phase 1: collect

    method IsChunkBroken(file: Id, total: nat) returns (broken: bool)
      ensures broken == ChunksBroken(State(), file, total)
    {
      var rows := ChunksFrom(db, file, 0);
      if |rows| != total {
        return true;
      }
      for i := 0 to |rows|
        invariant forall j :: 0 <= j < i ==> rows[j] in chunkFiles
      {
        if rows[i] !in chunkFiles {
          return true;
        }
      }
      return false;
    }

    /** UpdateNarFileVerifiedAt */
    method MarkVerified(f: Id, now: nat)
      modifies this`db
      ensures db == StampFiles(old(db), {f}, now)
    {
      if f in db.narFiles {
        db := UpdateFile(db, f, db.narFiles[f].(verifiedAt := Some(now)));
      }
      assert db == StampFiles(old(db), {f}, now);
    }

    method CollectMissing(now: nat) returns (missing: seq<Suspect>)
      modifies this`db
      ensures Lists(old(db), missing, MissingFiles(old(State())))
      ensures db == StampFiles(old(db), PresentFiles(old(State())), now)
    {
      missing := [];
      var rows := db.narFiles;
      var all := Enumerate(rows.Keys);
      ghost var stamped: set<Id> := {};
      assert StampFiles(db, {}, now) == db;
      for i := 0 to |all|
        invariant forall s :: s in missing <==>
          s.id in all[..i] && s.id in MissingFiles(old(State())) && s == SuspectOf(old(db), s.id)
        invariant stamped == set f | f in all[..i] && f in PresentFiles(old(State()))
        invariant db == StampFiles(old(db), stamped, now)
      {
        var f := all[i];
        if rows[f].totalChunks == 0 {
          if rows[f].key !in nars {
            missing := missing + [Suspect(f, rows[f].key, 0)];
          } else {
            MarkVerified(f, now);
            StampTwice(old(db), stamped, {f}, now);
            stamped := stamped + {f};
          }
        }
      }
      assert stamped == PresentFiles(old(State()));
    }

    method CollectStrayNars() returns (stray: seq<NarKey>)
      ensures forall k :: k in stray <==> k in StrayNars(State())
    {
      stray := [];
      var stored := Enumerate(nars);
      for i := 0 to |stored|
        invariant forall k :: k in stray <==> k in stored[..i] && k in StrayNars(State())
      {
        if FilesWithKey(db, stored[i]) == {} {
          stray := stray + [stored[i]];
        }
      }
    }

    method CollectBroken() returns (broken: seq<Suspect>)
      ensures Lists(db, broken, BrokenFiles(State()))
    {
      broken := [];
      var all := Enumerate(db.narFiles.Keys);
      for i := 0 to |all|
        invariant forall s :: s in broken <==>
          s.id in all[..i] && s.id in BrokenFiles(State()) && s == SuspectOf(db, s.id)
      {
        var f := all[i];
        if db.narFiles[f].totalChunks > 0 {
          var bad := IsChunkBroken(f, db.narFiles[f].totalChunks);
          if bad {
            broken := broken + [SuspectOf(db, f)];
          }
        }
      }
    }

    method CollectStrayChunks() returns (stray: seq<Hash>)
      ensures forall h :: h in stray <==> h in StrayChunks(State())
    {
      stray := [];
      var stored := Enumerate(chunkFiles);
      for i := 0 to |stored|
        invariant forall h :: h in stray <==> h in stored[..i] && h in StrayChunks(State())
      {
        if stored[i] !in db.chunks {
          stray := stray + [stored[i]];
        }
      }
    }

    method SuspectsOf(files: set<Id>) returns (suspects: seq<Suspect>)
      requires files <= db.narFiles.Keys
      ensures Lists(db, suspects, files)
    {
      suspects := [];
      var all := Enumerate(files);
      for i := 0 to |all|
        invariant forall s :: s in suspects <==> s.id in all[..i] && s.id in files && s == SuspectOf(db, s.id)
      {
        suspects := suspects + [SuspectOf(db, all[i])];
      }
    }

    method MarkAll(files: seq<Id>, now: nat)
      modifies this`db
      ensures db == StampFiles(old(db), ToSet(files), now)
    {
      assert db == StampFiles(db, {}, now);
      for i := 0 to |files|
        invariant db == StampFiles(old(db), ToSet(files[..i]), now)
      {
        MarkVerified(files[i], now);
        StampTwice(old(db), ToSet(files[..i]), {files[i]}, now);
        ToSetOfPrefix(files, i);
      }
      assert files[..|files|] == files;
    }

    /** The last loop of phase 1g: mark every chunked nar_file without an issue. */
    method MarkHealthy(broken: seq<Suspect>, mismatched: seq<Suspect>, now: nat)
      requires Lists(db, broken, BrokenFiles(State())) && Lists(db, mismatched, SizeMismatches(db))
      modifies this`db
      ensures db == StampFiles(old(db), HealthyChunked(old(State())), now)
    {
      var issues := (set s | s in broken :: s.id) + (set s | s in mismatched :: s.id);
      var healthy := set f | f in db.narFiles && db.narFiles[f].totalChunks > 0 && f !in issues;
      assert healthy == HealthyChunked(State()) by {
        forall f | f in db.narFiles
          ensures f in issues <==> f in BrokenFiles(State()) || f in SizeMismatches(db)
        {
          var s := SuspectOf(db, f);
          assert s.id == f;
        }
      }
      var all := Enumerate(healthy);
      assert ToSet(all) == healthy;
      MarkAll(all, now);
    }

    method Collect(now: nat) returns (f: Findings)
      requires Consistent(db)
      modifies this`db
      ensures State() == Stamp(old(State()), now)
      ensures Collected(State(), f)
    {
      ghost var start := State();
      var bare := Enumerate(BareInfos(db));
      var orphans := SuspectsOf(OrphanFiles(db));
      var missing := CollectMissing(now);
      ghost var mid := State();
      var strayNars := CollectStrayNars();
      var orphanChunks := Enumerate(OrphanChunks(db));
      var broken := CollectBroken();
      MismatchesExist(db);
      var mismatched := SuspectsOf(SizeMismatches(db));
      MarkHealthy(broken, mismatched, now);
      var strayChunks := CollectStrayChunks();
      f := Findings(bare, orphans, missing, strayNars, orphanChunks, broken, mismatched, strayChunks);
      CollectedInStages(start, mid, State(), now, f);
    }

    // -------------------------------------------------------------- phase 2: re-verify

    method ReVerify(f: Findings) returns (g: Findings)
      ensures ReVerified(State(), f, g)
    {
      var bare, orphans, missing := [], [], [];
      for i := 0 to |f.bareInfos|
        invariant forall x :: x in bare <==> x in f.bareInfos[..i] && FilesOf(db, x) == {}
      {
        if FilesOf(db, f.bareInfos[i]) == {} { bare := bare + [f.bareInfos[i]]; }
      }
      for i := 0 to |f.orphanFiles|
        invariant forall s :: s in orphans <==> s in f.orphanFiles[..i] && Unlinked(db, s.key)
      {
        if Unlinked(db, f.orphanFiles[i].key) { orphans := orphans + [f.orphanFiles[i]]; }
      }
      for i := 0 to |f.missingFiles|
        invariant forall s :: s in missing <==> s in f.missingFiles[..i] && s.key !in nars
      {
        if f.missingFiles[i].key !in nars { missing := missing + [f.missingFiles[i]]; }
      }
      var strayNars := ReVerifyStrayNars(f.strayNars);
      var orphanChunks, broken, mismatched, strayChunks := ReVerifyChunks(f);
      g := Findings(bare, orphans, missing, strayNars, orphanChunks, broken, mismatched, strayChunks);
    }

    method ReVerifyStrayNars(keys: seq<NarKey>) returns (stray: seq<NarKey>)
      ensures forall k :: k in stray <==> k in keys && FilesWithKey(db, k) == {}
    {
      stray := [];
      for i := 0 to |keys|
        invariant forall k :: k in stray <==> k in keys[..i] && FilesWithKey(db, k) == {}
      {
        if FilesWithKey(db, keys[i]) == {} { stray := stray + [keys[i]]; }
      }
    }

    method ReVerifyChunks(f: Findings)
      returns (orphans: seq<Hash>, broken: seq<Suspect>, mismatched: seq<Suspect>, stray: seq<Hash>)
      ensures forall h :: h in orphans <==> h in f.orphanChunks && h in OrphanChunks(db)
      ensures forall s :: s in broken <==> s in f.brokenFiles && ChunksBroken(State(), s.id, s.totalChunks)
      ensures forall s :: s in mismatched <==> s in f.mismatchedFiles && s.id in SizeMismatches(db)
      ensures forall h :: h in stray <==> h in f.strayChunks && h !in db.chunks
    {
      orphans, broken, mismatched, stray := [], [], [], [];
      var recheck := OrphanChunks(db);
      for i := 0 to |f.orphanChunks|
        invariant forall h :: h in orphans <==> h in f.orphanChunks[..i] && h in recheck
      {
        if f.orphanChunks[i] in recheck { orphans := orphans + [f.orphanChunks[i]]; }
      }
      for i := 0 to |f.brokenFiles|
        invariant forall s :: s in broken <==> s in f.brokenFiles[..i] && ChunksBroken(State(), s.id, s.totalChunks)
      {
        var bad := IsChunkBroken(f.brokenFiles[i].id, f.brokenFiles[i].totalChunks);
        if bad { broken := broken + [f.brokenFiles[i]]; }
      }
      var mismatches := SizeMismatches(db);
      for i := 0 to |f.mismatchedFiles|
        invariant forall s :: s in mismatched <==> s in f.mismatchedFiles[..i] && s.id in mismatches
      {
        if f.mismatchedFiles[i].id in mismatches { mismatched := mismatched + [f.mismatchedFiles[i]]; }
      }
      for i := 0 to |f.strayChunks|
        invariant forall h :: h in stray <==> h in f.strayChunks[..i] && h !in db.chunks
      {
        if f.strayChunks[i] !in db.chunks { stray := stray + [f.strayChunks[i]]; }
      }
    }

    // -------------------------------------------------------------- phase 3: repair

    method RepairBareInfos(ids: seq<Id>)
      modifies this`db
      ensures db == DropBareInfos(old(db), ids)
    {
      ghost var gone: set<Id> := {};
      assert db == DeleteInfos(db, {});
      for i := 0 to |ids|
        invariant gone == set x | x in ids[..i] && FilesOf(old(db), x) == {}
        invariant db == DeleteInfos(old(db), gone)
      {
        assert FilesOf(db, ids[i]) == {} <==> FilesOf(old(db), ids[i]) == {} by {
          BareDeletesKeepLinks(old(db), gone);
        }
        if FilesOf(db, ids[i]) == {} {
          DeleteInfosTwice(old(db), gone, {ids[i]});
          db := DeleteInfos(db, {ids[i]});
          gone := gone + {ids[i]};
        }
      }
      assert gone == set x | x in ids && FilesOf(old(db), x) == {};
    }

    method DeleteFileByKey(key: NarKey, ghost start: Tables, ghost gone: set<NarKey>)
      requires db == DeleteFiles(start, FilesWithKeys(start, gone))
      modifies this`db
      ensures db == DeleteFiles(start, FilesWithKeys(start, gone + {key}))
    {
      DeleteKeysTwice(start, gone, key);
      db := DeleteFiles(db, FilesWithKey(db, key));
    }

    method RepairOrphanFiles(suspects: seq<Suspect>)
      requires Consistent(db)
      modifies this`db
      ensures db == DropOrphanFiles(old(db), suspects)
    {
      ghost var gone: set<NarKey> := {};
      assert db == DeleteFiles(db, FilesWithKeys(db, {}));
      for i := 0 to |suspects|
        invariant gone == UnlinkedKeys(old(db), suspects[..i])
        invariant db == DeleteFiles(old(db), FilesWithKeys(old(db), gone))
      {
        var key := suspects[i].key;
        UnlinkedDeletesKeepLinks(old(db), gone, key);
        UnlinkedKeysOfPrefix(old(db), suspects, i);
        if Unlinked(db, key) {
          DeleteFileByKey(key, old(db), gone);
          gone := gone + {key};
        }
      }
      assert suspects[..|suspects|] == suspects;
    }

    method DeleteNewlyBare(existing: set<Id>)
      modifies this`db
      ensures db == DeleteInfos(old(db), BareInfos(old(db)) - existing)
    {
      var bare := Enumerate(BareInfos(db));
      assert ToSet(bare) == BareInfos(db);
      DeleteOthers(bare, existing);
    }

    method DeleteOthers(ids: seq<Id>, existing: set<Id>)
      modifies this`db
      ensures db == DeleteInfos(old(db), ToSet(ids) - existing)
    {
      ghost var gone: set<Id> := {};
      assert db == DeleteInfos(db, {});
      for i := 0 to |ids|
        invariant gone == set x | x in ids[..i] && x !in existing
        invariant db == DeleteInfos(old(db), gone)
      {
        if ids[i] !in existing {
          DeleteInfosTwice(old(db), gone, {ids[i]});
          db := DeleteInfos(db, {ids[i]});
          gone := gone + {ids[i]};
        }
      }
      assert gone == ToSet(ids) - existing;
    }

    method RepairMissingFiles(suspects: seq<Suspect>)
      modifies this`db
      ensures State() == DropMissingFiles(old(State()), suspects)
    {
      var existing := BareInfos(db);
      ghost var gone: set<NarKey> := {};
      assert db == DeleteFiles(db, FilesWithKeys(db, {}));
      for i := 0 to |suspects|
        invariant gone == set s | s in suspects[..i] && s.key !in nars :: s.key
        invariant db == DeleteFiles(old(db), FilesWithKeys(old(db), gone))
      {
        var key := suspects[i].key;
        if key !in nars {
          DeleteFileByKey(key, old(db), gone);
          gone := gone + {key};
        }
      }
      assert gone == set s | s in suspects && s.key !in nars :: s.key;
      DeleteNewlyBare(existing);
    }

    method RepairStrayNars(keys: seq<NarKey>)
      modifies this`nars
      ensures State() == DropStrayNars(old(State()), keys)
    {
      for i := 0 to |keys|
        invariant nars == old(nars) - set k | k in keys[..i] && FilesWithKey(db, k) == {}
      {
        if FilesWithKey(db, keys[i]) == {} {
          nars := nars - {keys[i]};
        }
      }
      assert keys[..|keys|] == keys;
    }

    method RepairOrphanChunks(hashes: seq<Hash>)
      modifies this`db
      ensures db == DropOrphanChunks(old(db), hashes)
    {
      var recheck := OrphanChunks(db);
      ghost var gone: set<Hash> := {};
      assert db == DeleteChunks(db, {});
      for i := 0 to |hashes|
        invariant gone == set h | h in hashes[..i] && h in recheck
        invariant db == DeleteChunks(old(db), gone)
      {
        if hashes[i] in recheck {
          DeleteChunksTwice(old(db), gone, {hashes[i]});
          db := DeleteChunks(db, {hashes[i]});
          gone := gone + {hashes[i]};
        }
      }
      assert gone == set h | h in hashes && h in OrphanChunks(old(db));
    }

    method DeleteOrphanChunks()
      modifies this`db, this`chunkFiles
      ensures State() == SweepChunks(old(State()))
    {
      var orphans := Enumerate(OrphanChunks(db));
      assert ToSet(orphans) == OrphanChunks(db);
      DeleteChunkFilesAndRows(orphans);
    }

    /** The closing loop of both CDC repairs: file first, then row. */
    method DeleteChunkFilesAndRows(hashes: seq<Hash>)
      modifies this`db, this`chunkFiles
      ensures db == DeleteChunks(old(db), ToSet(hashes))
      ensures chunkFiles == old(chunkFiles) - ToSet(hashes)
    {
      ghost var gone: set<Hash> := {};
      assert db == DeleteChunks(db, {});
      for i := 0 to |hashes|
        invariant gone == set h | h in hashes[..i]
        invariant db == DeleteChunks(old(db), gone)
        invariant chunkFiles == old(chunkFiles) - gone
      {
        DeleteChunksTwice(old(db), gone, {hashes[i]});
        chunkFiles := chunkFiles - {hashes[i]};
        db := DeleteChunks(db, {hashes[i]});
        gone := gone + {hashes[i]};
      }
      assert gone == ToSet(hashes);
    }

    method DeleteBrokenFiles(suspects: seq<Suspect>)
      requires Consistent(db) && Snapshots(db, suspects)
      modifies this`db
      ensures db == DeleteFiles(old(db), FilesWithKeys(old(db), BrokenKeys(old(State()), suspects)))
    {
      ghost var start := State();
      ghost var gone: set<NarKey> := {};
      assert db == DeleteFiles(db, FilesWithKeys(db, {}));
      for i := 0 to |suspects|
        invariant gone == BrokenKeys(start, suspects[..i])
        invariant db == DeleteFiles(start.db, FilesWithKeys(start.db, gone))
      {
        DeleteIfBroken(suspects[i], start, gone);
        BrokenKeysOfPrefix(start, suspects, i);
        gone := BrokenKeys(start, suspects[..i + 1]);
      }
      assert suspects[..|suspects|] == suspects;
    }

    method DeleteIfBroken(s: Suspect, ghost start: Repo, ghost gone: set<NarKey>)
      requires Consistent(start.db) && (s.id in start.db.narFiles ==> start.db.narFiles[s.id].key == s.key)
      requires State() == start.(db := DeleteFiles(start.db, FilesWithKeys(start.db, gone)))
      modifies this`db
      ensures var more := if ChunksBroken(start, s.id, s.totalChunks) then {s.key} else {};
        db == DeleteFiles(start.db, FilesWithKeys(start.db, gone + more))
    {
      var broken := IsChunkBroken(s.id, s.totalChunks);
      BrokenCheckIsStable(start, gone, s);
      assert gone + {} == gone && (s.key in gone ==> gone + {s.key} == gone);
      if broken {
        DeleteFileByKey(s.key, start.db, gone);
      }
    }

    method RepairBrokenFiles(suspects: seq<Suspect>)
      requires Consistent(db) && Snapshots(db, suspects)
      modifies this`db, this`chunkFiles
      ensures State() == DropBrokenFiles(old(State()), suspects)
    {
      var existing := BareInfos(db);
      DeleteBrokenFiles(suspects);
      DeleteNewlyBare(existing);
      DeleteOrphanChunks();
    }

    method RepairMismatchedFiles(suspects: seq<Suspect>)
      modifies this`db, this`chunkFiles
      ensures State() == DropMismatchedFiles(old(State()), suspects)
    {
      if suspects == [] {
        return;
      }
      var existing := BareInfos(db);
      var recheck := SizeMismatches(db);
      ghost var gone: set<NarKey> := {};
      assert db == DeleteFiles(db, FilesWithKeys(db, {}));
      for i := 0 to |suspects|
        invariant chunkFiles == old(chunkFiles)
        invariant gone == set s | s in suspects[..i] && s.id in recheck :: s.key
        invariant db == DeleteFiles(old(db), FilesWithKeys(old(db), gone))
      {
        if suspects[i].id in recheck {
          DeleteFileByKey(suspects[i].key, old(db), gone);
          gone := gone + {suspects[i].key};
        }
      }
      assert gone == set s | s in suspects && s.id in SizeMismatches(old(db)) :: s.key;
      DeleteNewlyBare(existing);
      DeleteOrphanChunks();
    }

    method RepairStrayChunks(hashes: seq<Hash>)
      modifies this`chunkFiles
      ensures State() == DropStrayChunks(old(State()), hashes)
    {
      for i := 0 to |hashes|
        invariant chunkFiles == old(chunkFiles) - set h | h in hashes[..i] && h !in db.chunks
      {
        if hashes[i] !in db.chunks {
          chunkFiles := chunkFiles - {hashes[i]};
        }
      }
      assert hashes[..|hashes|] == hashes;
    }

    method RepairIssues(f: Findings)
      requires Consistent(db) && Snapshots(db, f.brokenFiles)
      modifies this
      ensures State() == Repair(old(State()), f)
    {
      RepairBareInfos(f.bareInfos);
      RepairOrphanFiles(f.orphanFiles);
      RepairMissingFiles(f.missingFiles);
      RepairStrayNars(f.strayNars);
      assert State() == RepairWholeFiles(old(State()), f);
      WholeFilePassesPrune(old(State()), f);
      RepairOrphanChunks(f.orphanChunks);
      RepairBrokenFiles(f.brokenFiles);
      RepairMismatchedFiles(f.mismatchedFiles);
      RepairStrayChunks(f.strayChunks);
    }

    /** `fsck --repair` */
    method Run(now: nat) returns (f: Findings)
      requires Consistent(db)
      modifies this
      ensures Round(old(State()), State(), now, f)
    {
      var suspects := Collect(now);
      StampPrunes(old(State()), now);
      f := ReVerify(suspects);
      ReVerifyKeepsCollected(State(), suspects, f);
      if !NoIssues(f) {
        RepairIssues(f);
      }
    }
  }
}
