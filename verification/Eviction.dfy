/** One LRU run: choose narinfos, delete them, sweep what they alone kept alive, commit or roll back. */
module Eviction {
  import opened Collections
  import opened Database
  import opened Repository
  import opened Lru

  /** The storage and chunk phases: unreferenced nar_files, then (with CDC) unreferenced chunks. */
  function Sweep(t: Tables, cdc: bool): Tables {
    var u := DeleteFiles(t, OrphanFiles(t));
    if cdc then DeleteChunks(u, OrphanChunks(u)) else u
  }

  function AfterEviction(t: Tables, evicted: set<Id>, cdc: bool): Tables {
    Sweep(DeleteInfos(t, evicted), cdc)
  }

  lemma SweepOrphans(t: Tables)
    requires Consistent(t)
    ensures var u := DeleteFiles(t, OrphanFiles(t));
      PrunesRows(t, u) && OrphanFiles(u) == {} && u.links == t.links && u.narinfos == t.narinfos
  {
    var u := DeleteFiles(t, OrphanFiles(t));
    assert forall l :: l in t.links ==> l.file in LinkedFiles(t);
    assert u.links == t.links;
    assert LinkedFiles(u) == LinkedFiles(t);
  }

  lemma SweepPrunes(t: Tables, cdc: bool)
    requires Consistent(t)
    ensures var v := Sweep(t, cdc);
      && PrunesRows(t, v) && v.narinfos == t.narinfos && v.links == t.links
      && v.narFiles == t.narFiles - OrphanFiles(t)
      && OrphanFiles(v) == {} && (cdc ==> OrphanChunks(v) == {})
  {
    var u := DeleteFiles(t, OrphanFiles(t));
    SweepOrphans(t);
    DeleteUnusedChunksPrunes(u, OrphanChunks(u));
  }

  /**
   What a committed eviction leaves: everything it did not evict, each survivor with exactly its own
   nar_files and chunk rows; no unreferenced nar_file or chunk; and a total that fell by what was deleted.
   */
  lemma EvictionKeepsSurvivors(t: Tables, evicted: set<Id>, cdc: bool)
    requires Consistent(t)
    ensures var u := AfterEviction(t, evicted, cdc);
      && Consistent(u)
      && u.narinfos == t.narinfos - evicted
      && (forall i :: i in u.narinfos ==> FilesOf(u, i) == FilesOf(t, i))
      && (forall f :: f in u.narFiles ==> u.narFiles[f] == t.narFiles[f])
      && (forall s :: s in u.slots <==> s in t.slots && s.file in u.narFiles)
      && (forall s :: s in u.slots ==> u.slots[s] == t.slots[s])
      && OrphanFiles(u) == {} && (cdc ==> OrphanChunks(u) == {})
      && TotalSize(u) + SizeOf(t, t.narFiles.Keys - u.narFiles.Keys) == TotalSize(t)
  {
    var t1 := DeleteInfos(t, evicted);
    var u := AfterEviction(t, evicted, cdc);
    SweepPrunes(t1, cdc);
    DeletedSizesLeave(t, u);
  }

  /** Row by row: who goes is evicted or no longer linked to anything that stays. */
  ghost predicate Left(t: Tables, u: Tables, evicted: set<Id>, cdc: bool) {
    && (forall i :: i in u.narinfos <==> i in t.narinfos && i !in evicted)
    && (forall l :: l in u.links <==> l in t.links && l.info !in evicted)
    && (forall f :: f in u.narFiles <==> f in t.narFiles && exists l :: l in t.links && l.file == f && l.info !in evicted)
    && (forall s :: s in u.slots <==> s in t.slots && s.file in u.narFiles)
    && (forall h :: h in u.chunks <==> h in t.chunks && (cdc ==> exists s :: s in u.slots && u.slots[s] == h))
  }

  lemma EvictionLeaves(t: Tables, evicted: set<Id>, cdc: bool)
    requires Consistent(t)
    ensures Left(t, AfterEviction(t, evicted, cdc), evicted, cdc)
  {
    var t1, u := DeleteInfos(t, evicted), AfterEviction(t, evicted, cdc);
    SweepPrunes(t1, cdc);
    forall f
      ensures f in u.narFiles <==> f in t.narFiles && exists l :: l in t.links && l.file == f && l.info !in evicted
    {
      LinkedIff(t1, f);
    }
    forall h
      ensures h in u.chunks <==> h in t.chunks && (cdc ==> exists s :: s in u.slots && u.slots[s] == h)
    {
      SweepLeavesUsedChunks(t1, cdc, h);
    }
  }

  lemma LinkedIff(t: Tables, f: Id)
    ensures f in t.narFiles ==> (f !in OrphanFiles(t) <==> exists l :: l in t.links && l.file == f)
  {}

  lemma SweepLeavesUsedChunks(t: Tables, cdc: bool, h: Hash)
    requires Consistent(t)
    ensures h in Sweep(t, cdc).chunks <==>
      h in t.chunks && (cdc ==> exists s :: s in Sweep(t, cdc).slots && Sweep(t, cdc).slots[s] == h)
  {
    var u := DeleteFiles(t, OrphanFiles(t));
    DeleteUnusedChunksPrunes(u, OrphanChunks(u));
    assert h in u.slots.Values <==> exists s :: s in u.slots && u.slots[s] == h;
  }

  /** No pinned narinfo is lost. */
  lemma EvictionSparesPinned(t: Tables, evicted: set<Id>, cdc: bool, pinned: set<string>, i: Id)
    requires Consistent(t) && evicted == Unpinned(t, evicted, pinned)
    requires i in t.narinfos && t.narinfos[i].hash in pinned
    ensures i in AfterEviction(t, evicted, cdc).narinfos
  {
    EvictionKeepsSurvivors(t, evicted, cdc);
  }

  // ---------------------------------------------------------------- reaching the target

  /** The sizes the eviction loop adds up, one nar_file per evicted narinfo. */
  ghost function Charge(t: Tables, files: seq<Id>): nat {
    if files == [] then 0 else
      var last := files[|files| - 1];
      Charge(t, files[..|files| - 1]) + (if last in t.narFiles then t.narFiles[last].fileSize else 0)
  }

  /** uint64 addition */
  function Add64(a: nat, b: nat): nat { (a + b) % U64 }

  lemma ChargeAppend(t: Tables, files: seq<Id>, f: Id)
    requires f in t.narFiles
    ensures Charge(t, files + [f]) == Charge(t, files) + t.narFiles[f].fileSize
  {
    assert (files + [f])[..|files|] == files;
  }

  lemma SizeOfInsert(t: Tables, a: set<Id>, f: Id)
    requires f in t.narFiles && f !in a
    ensures SizeOf(t, a + {f}) == SizeOf(t, a) + t.narFiles[f].fileSize
  {
    var sizes := Sizes(t, a + {f});
    SumWithout(sizes, f);
    assert sizes - {f} == Sizes(t, a);
  }

  lemma SizeOfOne(t: Tables, f: Id)
    requires f in t.narFiles
    ensures SizeOf(t, {f}) == t.narFiles[f].fileSize
  {
    SizeOfInsert(t, {}, f);
    assert {} + {f} == {f};
    assert Sizes(t, {}) == map[];
  }

  lemma {:induction false} ChargeOfDistinct(t: Tables, files: seq<Id>)
    requires Distinct(files) && ToSet(files) <= t.narFiles.Keys
    ensures Charge(t, files) == SizeOf(t, ToSet(files))
  {
    if files == [] {
      assert Sizes(t, ToSet(files)) == map[];
    } else {
      var n := |files| - 1;
      LastOfDistinct(files);
      ChargeOfDistinct(t, files[..n]);
      SizeOfInsert(t, ToSet(files[..n]), files[n]);
    }
  }

  lemma LastOfDistinct(q: seq<Id>)
    requires Distinct(q) && q != []
    ensures var n := |q| - 1;
      && Distinct(q[..n]) && q[n] !in ToSet(q[..n])
      && ToSet(q) == ToSet(q[..n]) + {q[n]} && q[n] in ToSet(q)
  {
    ToSetOfPrefix(q, |q| - 1);
    assert q[..|q|] == q;
  }

  /**
   If the loop reports that it collected the cleanup size, and no charged nar_file was charged twice or
   is still linked to a survivor, the total after the commit is within the limit.
   */
  lemma TargetIsReached(
    t: Tables, evicted: seq<Id>, charged: seq<Id>, collected: nat, maxSize: nat, cdc: bool)
    requires Consistent(t) && maxSize <= TotalSize(t) <= MAX_INT64
    requires Distinct(charged) && ToSet(charged) <= t.narFiles.Keys
    requires forall f :: f in charged ==> InfosOf(t, f) <= ToSet(evicted)
    requires collected == Charge(t, charged) % U64 && collected >= TotalSize(t) - maxSize
    ensures TotalSize(AfterEviction(t, ToSet(evicted), cdc)) <= maxSize
  {
    var gone := t.narFiles.Keys - AfterEviction(t, ToSet(evicted), cdc).narFiles.Keys;
    FreedSize(t, ToSet(evicted), cdc);
    assert ToSet(charged) <= gone by {
      forall f | f in charged
        ensures f in gone
      {
        ChargedFileIsSwept(t, ToSet(evicted), cdc, f);
      }
    }
    ChargeOfDistinct(t, charged);
    SizeOfMonotone(t, ToSet(charged), gone);
    SmallRemainder(Charge(t, charged));
  }

  /** The nar_files that only evicted narinfos, or none, are linked to. */
  function FreedFiles(t: Tables, evicted: set<Id>): set<Id> {
    set f | f in t.narFiles && InfosOf(t, f) <= evicted
  }

  lemma SweptIffFreed(t: Tables, evicted: set<Id>, cdc: bool)
    requires Consistent(t)
    ensures t.narFiles.Keys - AfterEviction(t, evicted, cdc).narFiles.Keys == FreedFiles(t, evicted)
  {
    var t1 := DeleteInfos(t, evicted);
    SweepPrunes(t1, cdc);
    forall f | f in t.narFiles
      ensures f in OrphanFiles(t1) <==> InfosOf(t, f) <= evicted
    {
      if InfosOf(t, f) <= evicted {
        ChargedFileIsSwept(t, evicted, cdc, f);
      } else {
        var i :| i in InfosOf(t, f) && i !in evicted;
        assert Link(i, f) in t1.links;
      }
    }
  }

  /**
   Whatever was charged: the total after the commit is within the limit if and only if the nar_files that the
   evicted narinfos had to themselves are at least as large as the excess.
   */
  lemma TargetIsReachedIff(t: Tables, evicted: set<Id>, maxSize: nat, cdc: bool)
    requires Consistent(t)
    ensures TotalSize(AfterEviction(t, evicted, cdc)) <= maxSize <==>
      SizeOf(t, FreedFiles(t, evicted)) >= TotalSize(t) - maxSize
  {
    FreedSize(t, evicted, cdc);
    SweptIffFreed(t, evicted, cdc);
  }

  lemma SmallRemainder(x: nat)
    requires x < U64
    ensures x % U64 == x
  {}

  lemma FreedSize(t: Tables, evicted: set<Id>, cdc: bool)
    requires Consistent(t)
    ensures var u := AfterEviction(t, evicted, cdc);
      TotalSize(u) + SizeOf(t, t.narFiles.Keys - u.narFiles.Keys) == TotalSize(t)
  {
    EvictionKeepsSurvivors(t, evicted, cdc);
  }

  lemma ChargedFileIsSwept(t: Tables, evicted: set<Id>, cdc: bool, f: Id)
    requires Consistent(t) && InfosOf(t, f) <= evicted
    ensures f !in AfterEviction(t, evicted, cdc).narFiles
  {
    var t1 := DeleteInfos(t, evicted);
    assert f !in LinkedFiles(t1) by {
      assert forall l :: l in t.links && l.file == f ==> l.info in InfosOf(t, f);
    }
    SweepPrunes(t1, cdc);
  }

  // ---------------------------------------------------------------- the run

  datatype Outcome =
    | NothingToDo
    | NoCandidates
    | NothingEvicted
    | SizeOverflow
    | Hung
    | FetchFailed
    | Committed(evicted: seq<Id>, chunks: set<Hash>)

  /** The hashes whose narinfo files, and the names under which NAR files, are removed after a commit. */
  function HashesOf(t: Tables, infos: set<Id>): set<string> {
    set i | i in infos && i in t.narinfos :: t.narinfos[i].hash
  }

  /** The names are built without the query. */
  function NamesOf(t: Tables, files: set<Id>): set<NarKey> {
    set f | f in files && f in t.narFiles :: t.narFiles[f].key.(query := "")
  }

  /**
   The file of a nar_file that survives is nevertheless removed if and only if its URL has no query and a
   freed nar_file differs from it by its query alone.
   */
  lemma SurvivorLosesFileIff(t: Tables, evicted: set<Id>, nars: set<NarKey>, f: Id)
    requires Consistent(t) && f in t.narFiles && f !in FreedFiles(t, evicted) && t.narFiles[f].key in nars
    ensures t.narFiles[f].key !in nars - NamesOf(t, FreedFiles(t, evicted)) <==>
      && t.narFiles[f].key.query == ""
      && exists g :: g in FreedFiles(t, evicted) && g != f && t.narFiles[g].key.(query := "") == t.narFiles[f].key
  {
    var key, freed := t.narFiles[f].key, FreedFiles(t, evicted);
    if key in NamesOf(t, freed) {
      var g :| g in freed && g in t.narFiles && t.narFiles[g].key.(query := "") == key;
      assert g != f;
    }
  }

  /** The files removed: named by the narinfos evicted, and by the nar_files that are gone. */
  lemma RemovedFilesAreNamed(t: Tables, evicted: set<Id>, cdc: bool)
    requires Consistent(t)
    ensures var u := AfterEviction(t, evicted, cdc);
      && (forall h :: h in HashesOf(t, evicted) <==> exists i :: i in t.narinfos && i !in u.narinfos && t.narinfos[i].hash == h)
      && (forall k :: k in NamesOf(t, FreedFiles(t, evicted)) <==>
            exists f :: f in t.narFiles && f !in u.narFiles && t.narFiles[f].key.(query := "") == k)
  {
    SweptIffFreed(t, evicted, cdc);
    EvictionKeepsSurvivors(t, evicted, cdc);
    NamesOfGone(t, AfterEviction(t, evicted, cdc));
  }

  lemma NamesOfGone(t: Tables, u: Tables)
    ensures forall k :: k in NamesOf(t, t.narFiles.Keys - u.narFiles.Keys) <==>
      exists f :: f in t.narFiles && f !in u.narFiles && t.narFiles[f].key.(query := "") == k
  {}

  class Cache {
    var db: Tables
    var chunkFiles: set<Hash>
    var nars: set<NarKey>
    var infoFiles: set<string>
    const maxSize: nat
    const cdcEnabled: bool
    const wideBounds: bool

    constructor (db: Tables, chunkFiles: set<Hash>, nars: set<NarKey>, infoFiles: set<string>, maxSize: nat, cdcEnabled: bool, wideBounds: bool)
      ensures this.db == db && this.chunkFiles == chunkFiles && this.nars == nars && this.infoFiles == infoFiles
      ensures this.maxSize == maxSize && this.cdcEnabled == cdcEnabled && this.wideBounds == wideBounds
    {
      this.db, this.chunkFiles, this.nars, this.infoFiles := db, chunkFiles, nars, infoFiles;
      this.maxSize, this.cdcEnabled, this.wideBounds := maxSize, cdcEnabled, wideBounds;
    }

    /** calculateCleanupSize; the sum is read as a signed 64-bit integer. */
    method CalculateCleanupSize() returns (r: Option<nat>)
      ensures r.None? <==> TotalSize(db) > MAX_INT64
      ensures r.Some? ==> r.value == if TotalSize(db) <= maxSize then 0 else TotalSize(db) - maxSize
    {
      var total := TotalSize(db);
      if total > MAX_INT64 {
        return None;
      }
      if total == 0 || total <= maxSize {
        return Some(0);
      }
      return Some(total - maxSize);
    }

    /**
     The eviction loop. A pinned narinfo is skipped, and so is one without a nar_file: its lookup fails
     with an error the loop does not expect. It stops once enough is collected, unless at most one
     candidate would remain.
     */
    method EvictCandidates(ids: seq<Id>, cleanupSize: nat, pinned: set<string>)
      returns (evicted: seq<Id>, collected: nat, processed: nat, ghost charged: seq<Id>)
      requires Consistent(db) && Distinct(ids) && ToSet(ids) <= db.narinfos.Keys
      modifies this`db
      ensures db == DeleteInfos(old(db), ToSet(evicted))
      ensures EvictedSoFar(old(db), ids, processed, pinned, evicted, charged, collected)
      ensures StopsInTime(old(db), charged, cleanupSize, |ids|)
      ensures processed < |ids| ==> 0 < cleanupSize <= collected && 0 < |evicted| < |ids| - 1
      ensures forall n :: 0 < n < |evicted| && 0 < cleanupSize ==>
        Charge(old(db), charged[..n]) % 0x1_0000_0000_0000_0000 < cleanupSize || n >= |ids| - 1
    {
      evicted, collected, charged, processed := [], 0, [], 0;
      NothingEvictedYet(db, ids, pinned);
      while processed < |ids|
        invariant db == DeleteInfos(old(db), ToSet(evicted))
        invariant EvictedSoFar(old(db), ids, processed, pinned, evicted, charged, collected)
        invariant StopsInTime(old(db), charged, cleanupSize, |ids|)
        invariant !Enough(old(db), charged, cleanupSize, |ids|)
      {
        var info := ids[processed];
        CandidateIsNew(old(db), ids, processed, pinned, evicted);
        var file := TryEvict(info, pinned, old(db), ToSet(evicted));
        if file.None? {
          SkipOne(old(db), ids, processed, pinned, evicted, charged, collected);
          processed := processed + 1;
        } else {
          EvictOne(old(db), ids, processed, pinned, evicted, charged, collected, file.value);
          GoesOn(old(db), charged, file.value, cleanupSize, |ids|);
          evicted, charged := evicted + [info], charged + [file.value];
          collected := Add64(collected, db.narFiles[file.value].fileSize);
          processed := processed + 1;
          if cleanupSize > 0 && collected >= cleanupSize && |evicted| < |ids| - 1 {
            break;
          }
        }
      }
      if cleanupSize > 0 {
        NoEarlierStop(old(db), charged, cleanupSize, |ids|);
      }
    }

    /** One turn of the loop; the result is the nar_file whose size is charged. */
    method TryEvict(info: Id, pinned: set<string>, ghost start: Tables, ghost gone: set<Id>) returns (file: Option<Id>)
      requires db == DeleteInfos(start, gone) && info in start.narinfos && info !in gone
      modifies this`db
      ensures file.Some? <==> start.narinfos[info].hash !in pinned && FilesOf(start, info) != {}
      ensures file.Some? ==> file.value in FilesOf(start, info) && db == DeleteInfos(start, gone + {info})
      ensures file.None? ==> db == old(db)
    {
      OthersKeepFiles(start, gone, info);
      if db.narinfos[info].hash in pinned {
        return None;
      }
      var files := FilesOf(db, info);
      if files == {} {
        return None;
      }
      var chosen :| chosen in files;
      DeleteOneMore(start, gone, info);
      db := DeleteInfos(db, {info});
      return Some(chosen);
    }

    /**
     runLRU after the pinned set is known. The transaction is rolled back, and nothing changes, unless
     it commits; files are removed from the three stores only after the commit.
     */
    method RunLRU(pinned: set<string>) returns (outcome: Outcome, ghost trace: Trace)
      requires Consistent(db)
      modifies this
      ensures RunOf(old(db), maxSize, pinned, wideBounds, outcome, trace)
      ensures !outcome.Committed? ==>
        db == old(db) && chunkFiles == old(chunkFiles) && nars == old(nars) && infoFiles == old(infoFiles)
      ensures outcome.NothingEvicted? ==>
        cdcEnabled ==> AfterEviction(old(db), {}, true).chunks == old(db).chunks
      ensures outcome.Committed? ==>
        && db == AfterEviction(old(db), ToSet(outcome.evicted), cdcEnabled)
        && (outcome.evicted != [] || outcome.chunks != {})
        && outcome.chunks == (if cdcEnabled then old(db).chunks - db.chunks else {})
        && chunkFiles == old(chunkFiles) - outcome.chunks
        && nars == old(nars) - NamesOf(old(db), FreedFiles(old(db), ToSet(outcome.evicted)))
        && infoFiles == old(infoFiles) - HashesOf(old(db), ToSet(outcome.evicted))
    {
      trace := Trace(0, [], [], 0, [], 0);
      var cleanup := CalculateCleanupSize();
      if cleanup.None? {
        return SizeOverflow, trace;
      }
      if cleanup.value == 0 {
        return NothingToDo, trace;
      }
      outcome, trace := RunOver(cleanup.value, pinned);
    }

    /** The rest of the run, for a store that is over its limit. */
    method RunOver(cleanupSize: nat, pinned: set<string>) returns (outcome: Outcome, ghost trace: Trace)
      requires Consistent(db) && maxSize < TotalSize(db) <= MAX_INT64 && cleanupSize == TotalSize(db) - maxSize
      modifies this
      ensures !outcome.SizeOverflow? && !outcome.NothingToDo? && RunOf(old(db), maxSize, pinned, wideBounds, outcome, trace)
      ensures !outcome.Committed? ==>
        db == old(db) && chunkFiles == old(chunkFiles) && nars == old(nars) && infoFiles == old(infoFiles)
      ensures outcome.NothingEvicted? ==>
        cdcEnabled ==> AfterEviction(old(db), {}, true).chunks == old(db).chunks
      ensures outcome.Committed? ==>
        && db == AfterEviction(old(db), ToSet(outcome.evicted), cdcEnabled)
        && (outcome.evicted != [] || outcome.chunks != {})
        && outcome.chunks == (if cdcEnabled then old(db).chunks - db.chunks else {})
        && chunkFiles == old(chunkFiles) - outcome.chunks
        && nars == old(nars) - NamesOf(old(db), FreedFiles(old(db), ToSet(outcome.evicted)))
        && infoFiles == old(infoFiles) - HashesOf(old(db), ToSet(outcome.evicted))
    {
      var before := db;
      var selection, evicted, removed;
      selection, evicted, removed, trace := DeleteLRURecords(cleanupSize, pinned);
      match selection {
        case Nothing => return NoCandidates, trace;
        case Diverges => return Hung, trace;
        case Rejected => return FetchFailed, trace;
        case Candidates(_) =>
          if evicted == [] && removed == {} {
            db := before;
            return NothingEvicted, trace;
          }
          DeleteFromStores(before, evicted, removed);
          return Committed(evicted, removed), trace;
      }
    }

    /** parallelDeleteFromStores, for what the transaction deleted. */
    method DeleteFromStores(before: Tables, evicted: seq<Id>, chunks: set<Hash>)
      requires Consistent(before) && db == AfterEviction(before, ToSet(evicted), cdcEnabled)
      modifies this`infoFiles, this`nars, this`chunkFiles
      ensures chunkFiles == old(chunkFiles) - chunks
      ensures nars == old(nars) - NamesOf(before, FreedFiles(before, ToSet(evicted)))
      ensures infoFiles == old(infoFiles) - HashesOf(before, ToSet(evicted))
    {
      SweptIffFreed(before, ToSet(evicted), cdcEnabled);
      infoFiles := infoFiles - HashesOf(before, ToSet(evicted));
      nars := nars - NamesOf(before, before.narFiles.Keys - db.narFiles.Keys);
      chunkFiles := chunkFiles - chunks;
    }

    /** deleteLRURecordsFromDB: choose candidates, evict, sweep. */
    method DeleteLRURecords(cleanupSize: nat, pinned: set<string>)
      returns (selection: Selection, evicted: seq<Id>, removed: set<Hash>, ghost trace: Trace)
      requires Consistent(db) && cleanupSize < U64
      modifies this`db
      ensures trace.cleanupSize == cleanupSize && SelectionOf(old(db), trace.cleanupSize, pinned, wideBounds, trace.bounds, selection)
      ensures !selection.Candidates? ==> db == old(db)
      ensures selection.Candidates? ==>
        && Chose(old(db), pinned, wideBounds, evicted, trace)
        && db == AfterEviction(old(db), ToSet(evicted), cdcEnabled)
        && removed == if cdcEnabled then old(db).chunks - db.chunks else {}
    {
      ghost var bounds;
      selection, bounds := SelectCandidates(db, cleanupSize, pinned, wideBounds);
      evicted, removed, trace := [], {}, Trace(cleanupSize, bounds, [], 0, [], 0);
      if selection.Candidates? {
        var collected, processed;
        ghost var charged;
        evicted, collected, processed, charged := EvictCandidates(selection.ids, cleanupSize, pinned);
        trace := Trace(cleanupSize, bounds, selection.ids, processed, charged, collected);
        removed := SweepRecords();
      }
    }

    /** The storage phase and the chunk phase. */
    method SweepRecords() returns (removed: set<Hash>)
      modifies this`db
      ensures db == Sweep(old(db), cdcEnabled)
      ensures removed == if cdcEnabled then old(db).chunks - db.chunks else {}
    {
      removed := {};
      db := DeleteFiles(db, OrphanFiles(db));
      if cdcEnabled {
        removed := OrphanChunks(db);
        db := DeleteChunks(db, removed);
      }
    }
  }

  /** What a run decided on the way. */
  datatype Trace = Trace(cleanupSize: nat, bounds: seq<nat>, ids: seq<Id>, processed: nat, charged: seq<Id>, collected: nat)

  /**
   How the outcome follows from the tables: what is evicted are the evictable ones among the first
   candidates, up to the point where enough is collected.
   */
  ghost predicate RunOf(t: Tables, maxSize: nat, pinned: set<string>, wide: bool, outcome: Outcome, trace: Trace) {
    var total := TotalSize(t);
    match outcome
    case SizeOverflow => total > MAX_INT64
    case NothingToDo => total <= MAX_INT64 && total <= maxSize
    case NoCandidates => Over(t, maxSize, trace) && SelectionOf(t, trace.cleanupSize, pinned, wide, trace.bounds, Nothing)
    case Hung => Over(t, maxSize, trace) && SelectionOf(t, trace.cleanupSize, pinned, wide, trace.bounds, Diverges)
    case FetchFailed => Over(t, maxSize, trace) && SelectionOf(t, trace.cleanupSize, pinned, wide, trace.bounds, Rejected)
    case NothingEvicted => Over(t, maxSize, trace) && Chose(t, pinned, wide, [], trace)
    case Committed(evicted, _) => Over(t, maxSize, trace) && Chose(t, pinned, wide, evicted, trace)
  }

  /** The store is over its limit, by the size to clean up. */
  ghost predicate Over(t: Tables, maxSize: nat, trace: Trace) {
    maxSize < TotalSize(t) <= MAX_INT64 && trace.cleanupSize == TotalSize(t) - maxSize
  }

  ghost predicate Chose(t: Tables, pinned: set<string>, wide: bool, evicted: seq<Id>, trace: Trace) {
    && trace.cleanupSize < U64
    && SelectionOf(t, trace.cleanupSize, pinned, wide, trace.bounds, Candidates(trace.ids))
    && EvictedSoFar(t, trace.ids, trace.processed, pinned, evicted, trace.charged, trace.collected)
    && StopsInTime(t, trace.charged, trace.cleanupSize, |trace.ids|)
    && (trace.processed < |trace.ids| ==> Enough(t, trace.charged, trace.cleanupSize, |trace.ids|))
  }

  /** A committed run evicts only unpinned narinfos, so it keeps every pinned one. */
  lemma RunSparesPinned(
    t: Tables, maxSize: nat, pinned: set<string>, wide: bool, outcome: Outcome, trace: Trace, cdc: bool, i: Id)
    requires Consistent(t) && outcome.Committed? && RunOf(t, maxSize, pinned, wide, outcome, trace)
    requires i in t.narinfos && t.narinfos[i].hash in pinned
    ensures i in AfterEviction(t, ToSet(outcome.evicted), cdc).narinfos
  {
    assert ToSet(outcome.evicted) == Unpinned(t, ToSet(outcome.evicted), pinned);
    EvictionSparesPinned(t, ToSet(outcome.evicted), cdc, pinned, i);
  }

  /** Every nar_file of an evicted narinfo belongs to that narinfo alone. */
  ghost predicate Unshared(t: Tables, evicted: seq<Id>) {
    forall i, f :: i in evicted && f in FilesOf(t, i) ==> InfosOf(t, f) == {i}
  }

  lemma ChargesAreDistinct(t: Tables, evicted: seq<Id>, charged: seq<Id>, collected: nat)
    requires Consistent(t) && Distinct(evicted) && Charged(t, evicted, charged, collected) && Unshared(t, evicted)
    ensures Distinct(charged) && ToSet(charged) <= t.narFiles.Keys
    ensures forall f :: f in charged ==> InfosOf(t, f) <= ToSet(evicted)
  {
    forall j | 0 <= j < |charged|
      ensures InfosOf(t, charged[j]) == {evicted[j]} && evicted[j] in ToSet(evicted) && charged[j] in t.narFiles
    {
      assert evicted[j] in evicted && charged[j] in FilesOf(t, evicted[j]);
    }
    forall j, k | 0 <= j < k < |charged|
      ensures charged[j] != charged[k]
    {
      assert {evicted[j]} != {evicted[k]} by {
        assert evicted[j] != evicted[k];
        assert evicted[k] !in {evicted[j]};
      }
    }
  }

  /** A run that reports enough collected, over unshared nar_files, leaves the store within its limit. */
  lemma RunReachesTarget(
    t: Tables, maxSize: nat, pinned: set<string>, wide: bool, outcome: Outcome, trace: Trace, cdc: bool)
    requires Consistent(t) && outcome.Committed? && RunOf(t, maxSize, pinned, wide, outcome, trace)
    requires trace.collected >= TotalSize(t) - maxSize && Unshared(t, outcome.evicted)
    ensures TotalSize(AfterEviction(t, ToSet(outcome.evicted), cdc)) <= maxSize
  {
    ChargesAreDistinct(t, outcome.evicted, trace.charged, trace.collected);
    TargetIsReached(t, outcome.evicted, trace.charged, trace.collected, maxSize, cdc);
  }

  // ---------------------------------------------------------------- what a committed run has done

  /** The evicted are the unpinned and linked ones among the candidates handled. */
  lemma RunEvicts(t: Tables, maxSize: nat, pinned: set<string>, wide: bool, outcome: Outcome, trace: Trace, i: Id)
    requires outcome.Committed? && RunOf(t, maxSize, pinned, wide, outcome, trace)
    ensures trace.processed <= |trace.ids|
    ensures i in outcome.evicted <==>
      && i in trace.ids[..trace.processed] && i in t.narinfos && t.narinfos[i].hash !in pinned
      && exists l :: l in t.links && l.info == i
  {
    var handled := ToSet(trace.ids[..trace.processed]);
    assert i in outcome.evicted <==> i in Evictable(t, handled, pinned);
    EvictableIff(t, handled, pinned, i);
  }

  lemma EvictableIff(t: Tables, ids: set<Id>, pinned: set<string>, i: Id)
    ensures i in Evictable(t, ids, pinned) <==>
      i in ids && i in t.narinfos && t.narinfos[i].hash !in pinned && exists l :: l in t.links && l.info == i
  {
    if exists l :: l in t.links && l.info == i {
      var l :| l in t.links && l.info == i;
      assert l.file in FilesOf(t, i);
    }
  }

  /**
   It leaves candidates unhandled only once the files it charged, one for each eviction, have the size to clean up, and
   fewer than all but one of the candidates are evicted; and it has not gone on after a charge at which both held.
   */
  lemma RunStops(t: Tables, maxSize: nat, pinned: set<string>, wide: bool, outcome: Outcome, trace: Trace)
    requires Consistent(t) && outcome.Committed? && RunOf(t, maxSize, pinned, wide, outcome, trace)
    ensures trace.collected == Charge(t, trace.charged) % 0x1_0000_0000_0000_0000
    ensures |trace.charged| == |outcome.evicted|
    ensures forall k :: 0 <= k < |trace.charged| ==> Link(outcome.evicted[k], trace.charged[k]) in t.links
    ensures trace.processed < |trace.ids| ==>
      trace.collected >= TotalSize(t) - maxSize && 0 < |outcome.evicted| < |trace.ids| - 1
    ensures forall n :: 0 < n < |outcome.evicted| ==>
      Charge(t, trace.charged[..n]) % 0x1_0000_0000_0000_0000 < TotalSize(t) - maxSize || n >= |trace.ids| - 1
  {
    NoEarlierStop(t, trace.charged, trace.cleanupSize, |trace.ids|);
    forall k | 0 <= k < |trace.charged|
      ensures Link(outcome.evicted[k], trace.charged[k]) in t.links
    {
      assert trace.charged[k] in FilesOf(t, outcome.evicted[k]);
    }
  }

  /** The nar_files that no narinfo but evictable candidates links to. */
  ghost function Reclaimable(t: Tables, ids: seq<Id>, pinned: set<string>): set<Id> {
    set f | f in t.narFiles
         && forall l :: l in t.links && l.file == f ==>
              l.info in ids && l.info in t.narinfos && t.narinfos[l.info].hash !in pinned
  }

  /** No nar_file of an unpinned candidate is linked to a second narinfo. */
  ghost predicate CandidatesShareNothing(t: Tables, ids: seq<Id>, pinned: set<string>) {
    forall l, m :: l in t.links && m in t.links && l.file == m.file ==>
      m.info == l.info || l.info !in ids || l.info !in t.narinfos || t.narinfos[l.info].hash in pinned
  }

  lemma FreedAreReclaimable(t: Tables, ids: seq<Id>, pinned: set<string>, evicted: set<Id>)
    requires evicted <= Evictable(t, ToSet(ids), pinned)
    ensures FreedFiles(t, evicted) <= Reclaimable(t, ids, pinned)
    ensures evicted == Evictable(t, ToSet(ids), pinned) ==> FreedFiles(t, evicted) == Reclaimable(t, ids, pinned)
  {
    forall f | f in FreedFiles(t, evicted)
      ensures f in Reclaimable(t, ids, pinned)
    {
      assert forall l :: l in t.links && l.file == f ==> l.info in InfosOf(t, f);
    }
    if evicted == Evictable(t, ToSet(ids), pinned) {
      forall f, i | f in Reclaimable(t, ids, pinned) && i in InfosOf(t, f)
        ensures i in evicted
      {
        assert Link(i, f) in t.links;
        EvictableIff(t, ToSet(ids), pinned, i);
      }
    }
  }

  lemma NothingShared(t: Tables, ids: seq<Id>, pinned: set<string>, evicted: seq<Id>)
    requires CandidatesShareNothing(t, ids, pinned) && ToSet(evicted) <= Evictable(t, ToSet(ids), pinned)
    ensures Unshared(t, evicted)
  {
    forall i, f | i in evicted && f in FilesOf(t, i)
      ensures InfosOf(t, f) == {i}
    {
      assert i in ToSet(evicted) && Link(i, f) in t.links;
      assert forall j :: j in InfosOf(t, f) ==> Link(j, f) in t.links;
    }
  }

  lemma HandledAreCandidates(t: Tables, ids: seq<Id>, n: nat, pinned: set<string>)
    requires n <= |ids|
    ensures Evictable(t, ToSet(ids[..n]), pinned) <= Evictable(t, ToSet(ids), pinned)
    ensures n == |ids| ==> ids[..n] == ids
  {}

  /**
   A committed run over unshared nar_files ends within its limit if and only if the nar_files it could reclaim, with every
   evictable candidate gone, are at least as large as the excess.
   */
  lemma RunEndsWithinLimitIff(
    t: Tables, maxSize: nat, pinned: set<string>, wide: bool, outcome: Outcome, trace: Trace, cdc: bool)
    requires Consistent(t) && outcome.Committed? && RunOf(t, maxSize, pinned, wide, outcome, trace)
    requires CandidatesShareNothing(t, trace.ids, pinned)
    ensures TotalSize(AfterEviction(t, ToSet(outcome.evicted), cdc)) <= maxSize <==>
      SizeOf(t, Reclaimable(t, trace.ids, pinned)) >= TotalSize(t) - maxSize
  {
    var evicted := ToSet(outcome.evicted);
    HandledAreCandidates(t, trace.ids, trace.processed, pinned);
    FreedAreReclaimable(t, trace.ids, pinned, evicted);
    TargetIsReachedIff(t, evicted, maxSize, cdc);
    SizeOfMonotone(t, FreedFiles(t, evicted), Reclaimable(t, trace.ids, pinned));
    if trace.processed < |trace.ids| {
      NothingShared(t, trace.ids, pinned, outcome.evicted);
      RunReachesTarget(t, maxSize, pinned, wide, outcome, trace, cdc);
    }
  }

  /** The candidates the loop would evict: unpinned, with a nar_file. */
  ghost function Evictable(t: Tables, ids: set<Id>, pinned: set<string>): set<Id> {
    set i | i in Unpinned(t, ids, pinned) && FilesOf(t, i) != {}
  }

  /** One nar_file of each evicted narinfo, and the 64-bit sum of their sizes. */
  ghost predicate Charged(t: Tables, evicted: seq<Id>, charged: seq<Id>, collected: nat) {
    && |charged| == |evicted|
    && (forall j :: 0 <= j < |charged| ==> charged[j] in FilesOf(t, evicted[j]))
    && collected == Charge(t, charged) % U64
  }

  /** The test for leaving the loop, after these charges. */
  ghost predicate Enough(t: Tables, charged: seq<Id>, cleanupSize: nat, candidates: nat) {
    0 < cleanupSize <= Charge(t, charged) % U64 && 0 < |charged| < candidates - 1
  }

  /** It held after no earlier charge. */
  ghost predicate StopsInTime(t: Tables, charged: seq<Id>, cleanupSize: nat, candidates: nat) {
    forall n :: 0 <= n < |charged| ==> !Enough(t, charged[..n], cleanupSize, candidates)
  }

  lemma NoEarlierStop(t: Tables, charged: seq<Id>, cleanupSize: nat, candidates: nat)
    requires StopsInTime(t, charged, cleanupSize, candidates) && 0 < cleanupSize
    ensures forall n :: 0 < n < |charged| ==> Charge(t, charged[..n]) % U64 < cleanupSize || n >= candidates - 1
  {
    assert forall n :: 0 < n < |charged| ==> !Enough(t, charged[..n], cleanupSize, candidates);
  }

  lemma GoesOn(t: Tables, charged: seq<Id>, file: Id, cleanupSize: nat, candidates: nat)
    requires StopsInTime(t, charged, cleanupSize, candidates) && !Enough(t, charged, cleanupSize, candidates)
    ensures StopsInTime(t, charged + [file], cleanupSize, candidates)
  {
    assert forall n :: 0 <= n < |charged| ==> (charged + [file])[..n] == charged[..n];
    assert (charged + [file])[..|charged|] == charged;
  }

  /** The first n candidates have been handled: those evictable are evicted and charged, once each. */
  ghost predicate EvictedSoFar(
    t: Tables, ids: seq<Id>, n: nat, pinned: set<string>, evicted: seq<Id>, charged: seq<Id>, collected: nat)
  {
    && n <= |ids| && ToSet(evicted) == Evictable(t, ToSet(ids[..n]), pinned)
    && Distinct(evicted) && Charged(t, evicted, charged, collected)
  }

  lemma CandidateIsNew(t: Tables, ids: seq<Id>, n: nat, pinned: set<string>, evicted: seq<Id>)
    requires n < |ids| && Distinct(ids) && ToSet(ids) <= t.narinfos.Keys
    requires ToSet(evicted) == Evictable(t, ToSet(ids[..n]), pinned)
    ensures ids[n] in t.narinfos && ids[n] !in ToSet(evicted)
  {
    NextCandidate(t, ids, n, pinned);
  }

  lemma SkipOne(
    t: Tables, ids: seq<Id>, n: nat, pinned: set<string>, evicted: seq<Id>, charged: seq<Id>, collected: nat)
    requires n < |ids| && Distinct(ids) && ToSet(ids) <= t.narinfos.Keys
    requires EvictedSoFar(t, ids, n, pinned, evicted, charged, collected)
    requires ids[n] in t.narinfos && (t.narinfos[ids[n]].hash in pinned || FilesOf(t, ids[n]) == {})
    ensures EvictedSoFar(t, ids, n + 1, pinned, evicted, charged, collected)
  {
    NextCandidate(t, ids, n, pinned);
  }

  lemma EvictOne(t: Tables, ids: seq<Id>, n: nat, pinned: set<string>,
                 evicted: seq<Id>, charged: seq<Id>, collected: nat, file: Id)
    requires Consistent(t) && n < |ids| && Distinct(ids) && ToSet(ids) <= t.narinfos.Keys
    requires EvictedSoFar(t, ids, n, pinned, evicted, charged, collected)
    requires ids[n] in t.narinfos && t.narinfos[ids[n]].hash !in pinned && file in FilesOf(t, ids[n])
    ensures file in t.narFiles && ToSet(evicted + [ids[n]]) == ToSet(evicted) + {ids[n]}
    ensures EvictedSoFar(t, ids, n + 1, pinned, evicted + [ids[n]], charged + [file],
                         Add64(collected, t.narFiles[file].fileSize))
  {
    NextCandidate(t, ids, n, pinned);
    CandidateIsNew(t, ids, n, pinned, evicted);
    AppendDistinct(evicted, ids[n]);
    ChargeOneMore(t, evicted, charged, collected, ids[n], file);
  }

  lemma NothingEvictedYet(t: Tables, ids: seq<Id>, pinned: set<string>)
    ensures DeleteInfos(t, ToSet([])) == t && EvictedSoFar(t, ids, 0, pinned, [], [], 0)
  {
    var u := DeleteInfos(t, ToSet([]));
    assert u.links == t.links && u.narinfos == t.narinfos;
  }

  lemma NextCandidate(t: Tables, ids: seq<Id>, k: nat, pinned: set<string>)
    requires k < |ids| && Distinct(ids) && ToSet(ids) <= t.narinfos.Keys
    ensures var info := ids[k];
      && info in t.narinfos && info !in ToSet(ids[..k])
      && Evictable(t, ToSet(ids[..k + 1]), pinned) == Evictable(t, ToSet(ids[..k]), pinned) +
           (if t.narinfos[info].hash !in pinned && FilesOf(t, info) != {} then {info} else {})
  {
    ToSetOfPrefix(ids, k);
    assert ids[k] in ToSet(ids);
  }

  lemma OthersKeepFiles(t: Tables, gone: set<Id>, info: Id)
    requires info !in gone
    ensures FilesOf(DeleteInfos(t, gone), info) == FilesOf(t, info)
  {}

  lemma DeleteOneMore(t: Tables, a: set<Id>, i: Id)
    ensures DeleteInfos(DeleteInfos(t, a), {i}) == DeleteInfos(t, a + {i})
  {}

  lemma ChargeOneMore(t: Tables, evicted: seq<Id>, charged: seq<Id>, collected: nat, info: Id, file: Id)
    requires Consistent(t) && Charged(t, evicted, charged, collected) && file in FilesOf(t, info)
    ensures file in t.narFiles
    ensures Charged(t, evicted + [info], charged + [file], Add64(collected, t.narFiles[file].fileSize))
  {
    ChargeAppend(t, charged, file);
    var x, y := Charge(t, charged), t.narFiles[file].fileSize;
    assert (x % 0x1_0000_0000_0000_0000 + y) % 0x1_0000_0000_0000_0000 == (x + y) % 0x1_0000_0000_0000_0000;
  }

  // ---------------------------------------------------------------- a run that stops short of its target

  /** Two narinfos share a nar_file of 4 bytes; two more have one of 5 and one of 1 byte to themselves. */
  ghost predicate SharesAFile(t: Tables) {
    && Consistent(t) && t.narinfos.Keys == {0, 1, 2, 3} && t.narFiles.Keys == {0, 1, 2}
    && t.links == {Link(0, 0), Link(1, 0), Link(2, 1), Link(3, 2)}
    && t.narFiles[0].fileSize == 4 && t.narFiles[1].fileSize == 5 && t.narFiles[2].fileSize == 1
  }

  lemma SuchTablesExist()
    ensures exists t :: SharesAFile(t)
  {
    var infos := map i: Id | i in {0, 1, 2, 3} :: NarInfo(Name(i), None, None, Some(0), {});
    var files := map f: Id | f in {0, 1, 2} ::
      NarFile(NarKey(Name(f), "", ""), if f == 0 then 4 else if f == 1 then 5 else 1, 0, None, None);
    NamedByLength(infos, files);
    assert SharesAFile(Tables(infos, files, {}, {Link(0, 0), Link(1, 0), Link(2, 1), Link(3, 2)}, map[], 3));
  }

  function Name(n: nat): (s: string)
    ensures |s| == n
  {
    if n == 0 then "" else Name(n - 1) + "i"
  }

  lemma NamedByLength(infos: map<Id, NarInfo>, files: map<Id, NarFile>)
    requires forall f :: f in files ==> |files[f].key.hash| == f
    requires forall i :: i in infos ==> |infos[i].hash| == i
    ensures forall f, g :: f in files && g in files && files[f].key == files[g].key ==> f == g
    ensures forall i, j :: i in infos && j in infos && infos[i].hash == infos[j].hash ==> i == j
  {}

  lemma SharedTotal(t: Tables)
    requires SharesAFile(t)
    ensures TotalSize(t) == 10 && SizeOf(t, {0}) == 4
  {
    SizeOfOne(t, 0);
    SizeOfInsert(t, {0}, 1);
    SizeOfInsert(t, {0, 1}, 2);
    assert {0} + {1} == {0, 1} && {0, 1} + {2} == t.narFiles.Keys;
  }

  lemma SharedCharges(t: Tables)
    requires SharesAFile(t)
    ensures Charge(t, []) == 0 && Charge(t, [0]) == 4 && Charge(t, [0, 0]) == 8
  {
    ChargeAppend(t, [], 0);
    ChargeAppend(t, [0], 0);
    assert [] + [0] == [0] && [0] + [0] == [0, 0];
  }

  lemma SharedSelection(t: Tables, wide: bool)
    requires SharesAFile(t)
    ensures SelectionOf(t, 6, {}, wide, [12], Candidates([0, 1, 2, 3]))
  {
    SharedCandidates(t, wide);
    SmallRemainder(12);
  }

  lemma SharedCandidates(t: Tables, wide: bool)
    requires SharesAFile(t)
    ensures Ends(t, 6, {}, wide, 12, Candidates([0, 1, 2, 3]))
  {
    SharedTotal(t);
    LargeBoundSelectsAll(t, 12);
    assert 0 in Unpinned(t, LeastUsed(t, 12), {});
    FourInOrder();
    assert LeastUsed(t, 12) == {0, 1, 2, 3};
  }

  lemma FourInOrder()
    ensures var ids: seq<Id> := [0, 1, 2, 3]; Distinct(ids) && ToSet(ids) == {0, 1, 2, 3}
  {}

  lemma SharedEvictions(t: Tables)
    requires SharesAFile(t)
    ensures EvictedSoFar(t, [0, 1, 2, 3], 2, {}, [0, 1], [0, 0], 8)
  {
    SharedCharges(t);
    SharedFiles(t);
    SmallRemainder(8);
    var ids: seq<Id>, first: seq<Id> := [0, 1, 2, 3], [0, 1];
    assert ids[..2] == first && ToSet(first) == {0, 1};
    assert Evictable(t, {0, 1}, {}) == {0, 1};
  }

  lemma SharedStop(t: Tables)
    requires SharesAFile(t)
    ensures StopsInTime(t, [0, 0], 6, 4) && Enough(t, [0, 0], 6, 4)
  {
    SharedCharges(t);
    SmallRemainder(4);
    SmallRemainder(8);
    var charged: seq<Id> := [0, 0];
    assert charged[..0] == [] && charged[..1] == [0];
  }

  lemma SharedFiles(t: Tables)
    requires SharesAFile(t)
    ensures FilesOf(t, 0) == {0} && FilesOf(t, 1) == {0}
  {
    assert Link(0, 0) in t.links && Link(1, 0) in t.links;
  }

  lemma SharedFreed(t: Tables)
    requires SharesAFile(t)
    ensures FreedFiles(t, {0, 1}) == {0}
  {
    assert Link(2, 1) in t.links && Link(3, 2) in t.links;
    assert 2 in InfosOf(t, 1) && 3 in InfosOf(t, 2);
    assert InfosOf(t, 0) <= {0, 1};
  }

  /**
   The condition on sharing is needed. With a limit of 4 bytes such a store is 6 over; the run evicts the first two
   narinfos, counts their common nar_file twice, commits as done, and leaves 6 bytes.
   */
  lemma SharedFileIsCountedTwice(t: Tables, wide: bool, cdc: bool)
    requires SharesAFile(t)
    ensures var trace := Trace(6, [12], [0, 1, 2, 3], 2, [0, 0], 8);
      && RunOf(t, 4, {}, wide, Committed([0, 1], {}), trace) && trace.collected >= TotalSize(t) - 4
      && TotalSize(AfterEviction(t, {0, 1}, cdc)) > 4
  {
    SharedTotal(t);
    SharedSelection(t, wide);
    SharedEvictions(t);
    SharedStop(t);
    TargetIsReachedIff(t, {0, 1}, 4, cdc);
    SharedFreed(t);
  }
}
