/**
 The relational state of the cache, one field per table, and the meaning of the SQL that the
 other modules use. Foreign keys, UNIQUE columns and AUTOINCREMENT are the predicate Consistent;
 ON DELETE CASCADE is part of each delete. A `chunks` row is identified by its UNIQUE hash.
 */
module Database {
  import opened Collections

  type Id = nat
  type Hash = string

  /** The UNIQUE (hash, compression, query) columns of nar_files; also the name of a stored NAR. */
  datatype NarKey = NarKey(hash: string, compression: string, query: string)

  const NONE := "none"

  datatype NarInfo = NarInfo(
    hash: string,
    url: Option<NarKey>,
    narSize: Option<nat>,
    lastAccessedAt: Option<nat>,
    references: set<string>)

  datatype NarFile = NarFile(
    key: NarKey,
    fileSize: nat,
    totalChunks: nat,
    chunkingStartedAt: Option<nat>,
    verifiedAt: Option<nat>)

  /** A row of narinfo_nar_files. */
  datatype Link = Link(info: Id, file: Id)

  /** The primary key of nar_file_chunks. */
  datatype Slot = Slot(file: Id, index: nat)

  datatype Tables = Tables(
    narinfos: map<Id, NarInfo>,
    narFiles: map<Id, NarFile>,
    chunks: set<Hash>,
    links: set<Link>,
    slots: map<Slot, Hash>,
    nextFile: Id)

  ghost predicate Consistent(t: Tables) {
    && (forall l :: l in t.links ==> l.info in t.narinfos && l.file in t.narFiles)
    && (forall s :: s in t.slots ==> s.file in t.narFiles && t.slots[s] in t.chunks)
    && (forall f, g :: f in t.narFiles && g in t.narFiles && t.narFiles[f].key == t.narFiles[g].key ==> f == g)
    && (forall i, j :: i in t.narinfos && j in t.narinfos && t.narinfos[i].hash == t.narinfos[j].hash ==> i == j)
    && (forall f :: f in t.narFiles ==> f < t.nextFile)
  }

  // ---------------------------------------------------------------- SELECT

  function LinkedFiles(t: Tables): set<Id> { set l | l in t.links :: l.file }

  function LinkedInfos(t: Tables): set<Id> { set l | l in t.links :: l.info }

  /** GetOrphanedNarFiles */
  function OrphanFiles(t: Tables): set<Id> { t.narFiles.Keys - LinkedFiles(t) }

  /** GetNarInfosWithoutNarFiles */
  function BareInfos(t: Tables): set<Id> { t.narinfos.Keys - LinkedInfos(t) }

  /** GetOrphanedChunks */
  function OrphanChunks(t: Tables): set<Hash> { t.chunks - t.slots.Values }

  /** The nar_files that GetNarFileByNarInfoID joins to a narinfo. */
  function FilesOf(t: Tables, info: Id): set<Id> { set l | l in t.links && l.info == info :: l.file }

  /** The narinfos that GetNarInfoURLByNarFileHash joins to a nar_file. */
  function InfosOf(t: Tables, file: Id): set<Id> { set l | l in t.links && l.file == file :: l.info }

  /** GetNarFileByHashAndCompressionAndQuery: at most one row, by the UNIQUE columns. */
  function FilesWithKey(t: Tables, key: NarKey): set<Id> {
    set f | f in t.narFiles && t.narFiles[f].key == key
  }

  function ChunkIndices(t: Tables, file: Id, from: nat): set<nat> {
    set s | s in t.slots && s.file == file && from <= s.index :: s.index
  }

  /** GetChunksByNarFileIDFromIndex without its LIMIT; from 0 it is GetChunksByNarFileID. */
  function ChunksFrom(t: Tables, file: Id, from: nat): seq<Hash> {
    var q := Ascending(ChunkIndices(t, file, from));
    assert forall i | 0 <= i < |q| :: q[i] in ChunkIndices(t, file, from);
    seq(|q|, i requires 0 <= i < |q| => t.slots[Slot(file, q[i])])
  }

  /** GetCDCNarFilesWithSizeMismatch */
  function SizeMismatches(t: Tables): set<Id> {
    set l | l in t.links && Mismatched(t, l) :: l.file
  }

  predicate Mismatched(t: Tables, l: Link) {
    && l.info in t.narinfos && l.file in t.narFiles
    && t.narFiles[l.file].totalChunks > 0
    && t.narinfos[l.info].narSize.Some?
    && t.narinfos[l.info].narSize.value != t.narFiles[l.file].fileSize
  }

  function Sizes(t: Tables, files: set<Id>): map<Id, nat> {
    map f | f in files && f in t.narFiles :: t.narFiles[f].fileSize
  }

  /** SUM(file_size) over some nar_files; over all of them it is GetNarTotalSize. */
  function SizeOf(t: Tables, files: set<Id>): nat { Sum(Sizes(t, files)) }

  function TotalSize(t: Tables): nat { SizeOf(t, t.narFiles.Keys) }

  /** The join condition of GetLeastUsedNarInfos; a comparison with a NULL time is never true. */
  predicate NoLater(t: Tables, a: Id, b: Id)
    requires a in t.narinfos && b in t.narinfos
  {
    var x, y := t.narinfos[a].lastAccessedAt, t.narinfos[b].lastAccessedAt;
    x.Some? && y.Some? && (x.value < y.value || (x.value == y.value && a <= b))
  }

  function FilesUpTo(t: Tables, info: Id): set<Id>
    requires info in t.narinfos
  {
    set l | l in t.links && l.info in t.narinfos && NoLater(t, l.info, info) :: l.file
  }

  /** GetLeastUsedNarInfos */
  function LeastUsed(t: Tables, bound: nat): set<Id> {
    set i | i in t.narinfos && SizeOf(t, FilesUpTo(t, i)) <= bound
  }

  // ---------------------------------------------------------------- DELETE

  /** DeleteNarInfoByID, for a set of ids. */
  function DeleteInfos(t: Tables, ids: set<Id>): (r: Tables)
    ensures Consistent(t) ==> Consistent(r)
  {
    t.(narinfos := t.narinfos - ids, links := (set l | l in t.links && l.info !in ids))
  }

  /** DeleteNarFileByID / DeleteNarFileByHash, for a set of ids. */
  function DeleteFiles(t: Tables, ids: set<Id>): (r: Tables)
    ensures Consistent(t) ==> Consistent(r)
  {
    t.(narFiles := t.narFiles - ids,
       links := (set l | l in t.links && l.file !in ids),
       slots := map s | s in t.slots && s.file !in ids :: t.slots[s])
  }

  /** DeleteChunkByID, for a set of chunks; the foreign key cascades to nar_file_chunks. */
  function DeleteChunks(t: Tables, hashes: set<Hash>): (r: Tables)
    ensures Consistent(t) ==> Consistent(r)
  {
    t.(chunks := t.chunks - hashes, slots := map s | s in t.slots && t.slots[s] !in hashes :: t.slots[s])
  }

  /** DeleteNarFileChunksByNarFileID */
  function DeleteSlots(t: Tables, file: Id): (r: Tables)
    ensures Consistent(t) ==> Consistent(r)
  {
    t.(slots := map s | s in t.slots && s.file != file :: t.slots[s])
  }

  // ---------------------------------------------------------------- INSERT and UPDATE

  /** CreateNarFile: ON CONFLICT on the UNIQUE columns keeps the existing row. */
  function CreateNarFile(t: Tables, key: NarKey, fileSize: nat): (r: Tables)
    ensures Consistent(t) ==> Consistent(r)
    ensures FilesWithKey(r, key) != {}
    ensures Consistent(t) ==> forall f :: f in t.narFiles ==> f in r.narFiles && r.narFiles[f] == t.narFiles[f]
    ensures forall f :: f in r.narFiles && f !in t.narFiles ==>
      FilesWithKey(t, key) == {} && f == t.nextFile && r.narFiles[f] == NarFile(key, fileSize, 0, None, None)
  {
    if FilesWithKey(t, key) != {} then t else
      var r := t.(narFiles := t.narFiles[t.nextFile := NarFile(key, fileSize, 0, None, None)],
                  nextFile := t.nextFile + 1);
      assert t.nextFile in FilesWithKey(r, key);
      assert forall f :: f in t.narFiles && t.narFiles[f].key == key ==> f in FilesWithKey(t, key);
      r
  }

  /** ensureNarFileRecord: CreateNarFile, then UpdateNarFileFileSize for the row with that key, whatever it is. */
  function EnsureNarFile(t: Tables, key: NarKey, fileSize: nat): (r: Tables)
    ensures Consistent(t) ==> Consistent(r)
  {
    var u := CreateNarFile(t, key, fileSize);
    u.(narFiles := map f | f in u.narFiles ::
      if u.narFiles[f].key == key then u.narFiles[f].(fileSize := fileSize) else u.narFiles[f])
  }

  /** The tables differ in this only: the row with that key, old or new, has that size. */
  ghost predicate Ensured(t: Tables, u: Tables, key: NarKey, fileSize: nat) {
    && (exists f :: f in u.narFiles && u.narFiles[f].key == key)
    && (forall f :: f in t.narFiles ==> f in u.narFiles)
    && (forall f :: f in u.narFiles ==>
          if f !in t.narFiles then u.narFiles[f] == NarFile(key, fileSize, 0, None, None)
          else u.narFiles[f] == if t.narFiles[f].key == key then t.narFiles[f].(fileSize := fileSize) else t.narFiles[f])
    && (forall f, g :: f in u.narFiles && g in u.narFiles && u.narFiles[f].key == u.narFiles[g].key ==> f == g)
  }

  lemma EnsureOutcome(t: Tables, key: NarKey, fileSize: nat)
    requires Consistent(t)
    ensures Ensured(t, EnsureNarFile(t, key, fileSize), key, fileSize)
  {
    var v := CreateNarFile(t, key, fileSize);
    var f :| f in FilesWithKey(v, key);
    assert f in EnsureNarFile(t, key, fileSize).narFiles;
  }

  /** Any UPDATE of nar_files that leaves the UNIQUE columns alone; no row, no effect. */
  function UpdateFile(t: Tables, file: Id, row: NarFile): (r: Tables)
    requires file in t.narFiles ==> t.narFiles[file].key == row.key
    ensures Consistent(t) ==> Consistent(r)
  {
    if file in t.narFiles then t.(narFiles := t.narFiles[file := row]) else t
  }

  /** UpdateNarFileTotalChunks */
  function MarkComplete(t: Tables, file: Id, total: nat, size: nat): Tables {
    if file in t.narFiles then
      UpdateFile(t, file, t.narFiles[file].(totalChunks := total, fileSize := size, chunkingStartedAt := None))
    else t
  }

  /** ClearNarFileChunkingStarted */
  function Unlock(t: Tables, file: Id): Tables {
    if file in t.narFiles then UpdateFile(t, file, t.narFiles[file].(chunkingStartedAt := None)) else t
  }

  /** The rows a batch would insert: consecutive indices from `start`. */
  function BatchRows(file: Id, start: nat, batch: seq<Hash>): (rows: map<Slot, Hash>)
    ensures forall s :: s in rows <==> s.file == file && start <= s.index < start + |batch|
    ensures forall s :: s in rows ==> rows[s] == batch[s.index - start]
  {
    var targets := set i: nat | start <= i < start + |batch| :: Slot(file, i);
    map s | s in targets :: batch[s.index - start]
  }

  /** CreateChunk for every chunk of a batch, then LinkNarFileToChunks: ON CONFLICT keeps the old row. */
  function RecordBatch(t: Tables, file: Id, start: nat, batch: seq<Hash>): (r: Tables)
    requires file in t.narFiles
    ensures Consistent(t) ==> Consistent(r)
  {
    t.(chunks := t.chunks + ToSet(batch), slots := BatchRows(file, start, batch) + t.slots)
  }

  /** LinkNarInfosByURLToNarFile */
  function LinkByURL(t: Tables, url: NarKey, file: Id): (r: Tables)
    requires file in t.narFiles
    ensures Consistent(t) ==> Consistent(r)
  {
    t.(links := t.links + (set i | i in t.narinfos && t.narinfos[i].url == Some(url) :: Link(i, file)))
  }

  /** UpdateNarInfoCompressionFileSizeHashAndURL; of the columns it sets, only the URL is modelled. */
  function RenameURL(t: Tables, previous: NarKey, url: NarKey): (r: Tables)
    ensures Consistent(t) ==> Consistent(r)
  {
    t.(narinfos := map i | i in t.narinfos ::
      if t.narinfos[i].url == Some(previous) then t.narinfos[i].(url := Some(url)) else t.narinfos[i])
  }

  // ---------------------------------------------------------------- facts about the queries

  /** The rows of a file are the first entries of a listing: no gap, nothing out of place. */
  ghost predicate RowsArePrefix(t: Tables, file: Id, listing: seq<Hash>) {
    && (forall i: nat :: Slot(file, i) in t.slots ==> i < |listing| && t.slots[Slot(file, i)] == listing[i])
    && (forall i: nat, j: nat :: Slot(file, i) in t.slots && j < i ==> Slot(file, j) in t.slots)
  }

  /** Such rows are numbered consecutively. */
  lemma RowsAreNumbered(t: Tables, file: Id, listing: seq<Hash>, from: nat)
    requires RowsArePrefix(t, file, listing)
    ensures var a := Ascending(ChunkIndices(t, file, from));
      && (forall i :: 0 <= i < |a| ==> a[i] == from + i)
      && (forall j: nat :: from <= j < from + |a| <==> from <= j && Slot(file, j) in t.slots)
  {
    var indices := ChunkIndices(t, file, from);
    assert forall j: nat :: j in indices <==> from <= j && Slot(file, j) in t.slots;
    AscendingOfRun(indices, from);
    var a := Ascending(indices);
    forall j: nat | from <= j
      ensures j < from + |a| <==> j in a
    {
      if j < from + |a| {
        assert a[j - from] == j;
      }
    }
  }

  /** An ordered query over such rows returns the segment of the listing that starts at its index. */
  lemma QueryReturnsSegment(t: Tables, file: Id, listing: seq<Hash>, from: nat)
    requires RowsArePrefix(t, file, listing)
    ensures var q := ChunksFrom(t, file, from);
      && (q != [] ==> from + |q| <= |listing| && q == listing[from..from + |q|])
      && (forall j: nat :: from <= j < from + |q| <==> from <= j && Slot(file, j) in t.slots)
  {
    RowsAreNumbered(t, file, listing, from);
    var a, q := Ascending(ChunkIndices(t, file, from)), ChunksFrom(t, file, from);
    if q != [] {
      var last := from + |q| - 1;
      assert Slot(file, last) in t.slots;
      forall i | 0 <= i < |q|
        ensures q[i] == listing[from + i]
      {
        assert a[i] == from + i && Slot(file, from + i) in t.slots;
        assert q[i] == t.slots[Slot(file, a[i])];
      }
    }
  }

  function SlotsOf(t: Tables, file: Id): set<Slot> { set s | s in t.slots && s.file == file }

  lemma {:induction false} SlotsAreCounted(slots: set<Slot>, indices: set<nat>, file: Id)
    requires forall s :: s in slots ==> s.file == file && s.index in indices
    requires forall i :: i in indices ==> Slot(file, i) in slots
    ensures |slots| == |indices|
    decreases slots
  {
    if slots == {} {
      assert indices == {};
    } else {
      var s :| s in slots;
      SlotsAreCounted(slots - {s}, indices - {s.index}, file);
    }
  }

  /** The query for all chunks of a nar_file returns one entry for each of its rows, and the chunk of each. */
  lemma QueryReturnsAllRows(t: Tables, file: Id)
    ensures |ChunksFrom(t, file, 0)| == |SlotsOf(t, file)|
    ensures forall h :: h in ChunksFrom(t, file, 0) <==> exists s :: s in t.slots && s.file == file && t.slots[s] == h
  {
    var indices, rows := ChunkIndices(t, file, 0), ChunksFrom(t, file, 0);
    var q := Ascending(indices);
    SlotsAreCounted(SlotsOf(t, file), indices, file);
    forall h | h in rows
      ensures exists s :: s in t.slots && s.file == file && t.slots[s] == h
    {
      var k :| 0 <= k < |rows| && rows[k] == h;
      assert q[k] in indices;
      assert Slot(file, q[k]) in t.slots;
    }
    forall s | s in t.slots && s.file == file
      ensures t.slots[s] in rows
    {
      assert s.index in indices && s.index in q;
      var k :| 0 <= k < |q| && q[k] == s.index;
      assert rows[k] == t.slots[s];
    }
  }
}
