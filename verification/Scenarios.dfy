/**
 Particular runs from the empty installation: that the theorems about runs speak of something, and that
 each of their hypotheses is needed.
 */
module Scenarios {
  import opened Collections
  import opened Database
  import opened Repository
  import opened ChunkingProtocol
  import opened ChunkReader
  import opened Cluster
  import opened FsckRun
  import Eviction
  import Fsck

  /** One more step, undisturbed or not. */
  lemma Proceed(env: Env, run: Run, a: Action) returns (more: Run)
    requires Valid(env, run) && Enabled(env, Last(env, run).shared, a)
    ensures more == Run.Then(run, Back(a)) && Valid(env, more)
    ensures Last(env, more) == Last(env, run).(shared := Apply(env, Last(env, run).shared, a))
    ensures Careful(env, run) && Undisturbed(env, Last(env, run).shared, a) ==> Careful(env, more)
    ensures forall r :: Extends(run, r) ==> Extends(more, r)
  {
    more := Run.Then(run, Back(a));
  }

  /** Nobody is chunking or deleting. */
  predicate Idle(w: Shared) { w.attempts == map[] && w.passes == map[] }

  // ---------------------------------------------------------------- one NAR, from lock to link

  /** The tables with a new nar_file, locked. */
  function WithLocked(t: Tables, key: NarKey, size: nat, now: nat): Tables {
    t.(narFiles := t.narFiles[t.nextFile := NarFile(key, size, 0, Some(now), None)], nextFile := t.nextFile + 1)
  }

  lemma BeginNew(t: Tables, key: NarKey, size: nat, now: nat)
    requires Consistent(t) && FilesWithKey(t, key) == {}
    ensures var u := CreateNarFile(t, key, size);
      && FilesWithKey(u, key) == {t.nextFile} && MayStart(u.narFiles[t.nextFile], now)
      && StaleChunks(u, t.nextFile) == {}
      && Locked(u, t.nextFile, size, now) == WithLocked(t, key, size, now)
  {
    var u := CreateNarFile(t, key, size);
    NewFileIsAlone(t, u, key, size);
    assert u == t.(narFiles := t.narFiles[t.nextFile := NarFile(key, size, 0, None, None)], nextFile := t.nextFile + 1);
  }

  lemma NewFileIsAlone(t: Tables, u: Tables, key: NarKey, size: nat)
    requires Consistent(t) && FilesWithKey(t, key) == {}
    requires u.narFiles == t.narFiles[t.nextFile := NarFile(key, size, 0, None, None)]
    ensures FilesWithKey(u, key) == {t.nextFile}
  {
    assert t.nextFile !in t.narFiles;
    assert forall f :: f in t.narFiles && t.narFiles[f].key == key ==> f in FilesWithKey(t, key);
  }

  lemma Lock(env: Env, run: Run, key: NarKey, size: nat, len: nat, now: nat) returns (more: Run)
    requires Valid(env, run) && Consistent(Last(env, run).shared.repo.db)
    requires var w := Last(env, run).shared;
      && FilesWithKey(w.repo.db, key) == {} && w.repo.db.nextFile !in w.attempts
      && len <= |env.nar(w.repo.db.nextFile)|
      && (env.validated(w.repo.db.nextFile) ==> 0 < size == Size(env, env.nar(w.repo.db.nextFile)))
    ensures Valid(env, more) && (Careful(env, run) ==> Careful(env, more))
    ensures forall r :: Extends(run, r) ==> Extends(more, r)
    ensures var w := Last(env, run).shared;
      Last(env, more) == Last(env, run).(shared := w.(
        repo := w.repo.(db := WithLocked(w.repo.db, key, size, now)),
        attempts := w.attempts[w.repo.db.nextFile := Attempt(len, size, 0, 0, {}, None)]))
  {
    var t := Last(env, run).shared.repo.db;
    BeginNew(t, key, size, now);
    more := Proceed(env, run, Begin(t.nextFile, key, size, len, now));
  }

  /** The repository once the first chunk of a NAR is stored and recorded. */
  function WithFirstChunk(env: Env, r: Repo, file: Id): Repo
    requires file in r.db.narFiles && env.nar(file) != []
  {
    r.(db := RecordBatch(r.db, file, 0, env.nar(file)[0..1]), chunkFiles := r.chunkFiles + {env.nar(file)[0]})
  }

  lemma StoreFirst(env: Env, run: Run, file: Id, len: nat, size: nat) returns (more: Run)
    requires Valid(env, run) && env.nar(file) != [] && 0 < len <= |env.nar(file)|
    requires var w := Last(env, run).shared;
      file in w.attempts && w.attempts[file] == Attempt(len, size, 0, 0, {}, None) && file in w.repo.db.narFiles
    ensures Valid(env, more)
    ensures Careful(env, run) && !Doomed(Last(env, run).shared, env.nar(file)[0]) ==> Careful(env, more)
    ensures forall r :: Extends(run, r) ==> Extends(more, r)
    ensures var w := Last(env, run).shared;
      Last(env, more) == Last(env, run).(shared := w.(
        repo := WithFirstChunk(env, w.repo, file),
        attempts := w.attempts[file := Attempt(len, size, 1, 1, {}, None)]))
  {
    var w := Last(env, run).shared;
    more := Proceed(env, run, Write(file, Put));
    var w1 := Last(env, more).shared;
    assert w1 == w.(repo := w.repo.(chunkFiles := w.repo.chunkFiles + {env.nar(file)[0]}),
                    attempts := w.attempts[file := Attempt(len, size, 1, 0, {}, None)]);
    more := Proceed(env, more, Write(file, Commit));
  }

  /** A NAR of which the stream delivers one chunk is chunked, completed and linked to a new narinfo. */
  lemma AddNar(env: Env, run: Run, key: NarKey, size: nat, info: Id, row: NarInfo) returns (more: Run)
    requires Careful(env, run) && Consistent(Last(env, run).shared.repo.db) && Idle(Last(env, run).shared)
    requires var t := Last(env, run).shared.repo.db;
      && FilesWithKey(t, key) == {} && env.nar(t.nextFile) != []
      && (env.validated(t.nextFile) || size > 0 ==> 0 < size == Size(env, env.nar(t.nextFile)) && |env.nar(t.nextFile)| == 1)
      && info !in t.narinfos && forall i :: i in t.narinfos ==> t.narinfos[i].hash != row.hash
    ensures Careful(env, more) && Extends(more, run) && Idle(Last(env, more).shared)
    ensures Added(Last(env, run).shared.repo.db, Last(env, more).shared.repo.db, key, info, row)
    ensures Last(env, more).readers == Last(env, run).readers
  {
    more := ChunkNar(env, run, key, size);
    more := LinkNew(env, more, info, row, Last(env, run).shared.repo.db.nextFile);
  }

  ghost predicate Chunked(t: Tables, u: Tables, key: NarKey, h: Hash) {
    && u.nextFile == t.nextFile + 1 && u.links == t.links && u.narinfos == t.narinfos
    && u.narFiles.Keys == t.narFiles.Keys + {t.nextFile}
    && (forall f :: f in t.narFiles ==> u.narFiles[f] == t.narFiles[f])
    && u.narFiles[t.nextFile].key == key && u.narFiles[t.nextFile].totalChunks == 1
    && u.slots == t.slots[Slot(t.nextFile, 0) := h]
  }

  lemma ChunkNar(env: Env, run: Run, key: NarKey, size: nat) returns (more: Run)
    requires Careful(env, run) && Consistent(Last(env, run).shared.repo.db) && Idle(Last(env, run).shared)
    requires var t := Last(env, run).shared.repo.db;
      && FilesWithKey(t, key) == {} && env.nar(t.nextFile) != []
      && (env.validated(t.nextFile) || size > 0 ==> 0 < size == Size(env, env.nar(t.nextFile)) && |env.nar(t.nextFile)| == 1)
    ensures Careful(env, more) && Extends(more, run) && Idle(Last(env, more).shared)
    ensures var t := Last(env, run).shared.repo.db;
      Chunked(t, Last(env, more).shared.repo.db, key, env.nar(t.nextFile)[0])
    ensures Last(env, more).readers == Last(env, run).readers
  {
    var w := Last(env, run).shared;
    var file := w.repo.db.nextFile;
    more := Lock(env, run, key, size, 1, 0);
    more := StoreFirst(env, more, file, 1, size);
    more := Finish1(env, more, file, size);
    ChunkedNew(env, w.repo, key, size, Size(env, env.nar(file)[..1]));
  }

  lemma ChunkedNew(env: Env, r: Repo, key: NarKey, size: nat, recorded: nat)
    requires Consistent(r.db) && env.nar(r.db.nextFile) != []
    ensures var file := r.db.nextFile;
      var r1 := WithFirstChunk(env, r.(db := WithLocked(r.db, key, size, 0)), file);
      Chunked(r.db, MarkComplete(r1.db, file, 1, recorded), key, env.nar(file)[0])
  {
    assert r.db.nextFile !in r.db.narFiles;
    FirstRow(r.db, r.db.nextFile, env.nar(r.db.nextFile));
  }

  lemma FirstRow(t: Tables, file: Id, list: seq<Hash>)
    requires list != [] && forall s :: s in t.slots ==> s.file != file
    ensures BatchRows(file, 0, list[0..1]) + t.slots == t.slots[Slot(file, 0) := list[0]]
  {}

  lemma LinkNew(env: Env, run: Run, info: Id, row: NarInfo, file: Id) returns (more: Run)
    requires Careful(env, run) && Idle(Last(env, run).shared)
    requires var t := Last(env, run).shared.repo.db;
      && info !in t.narinfos && file in t.narFiles && forall i :: i in t.narinfos ==> t.narinfos[i].hash != row.hash
    ensures Careful(env, more) && (forall r :: Extends(run, r) ==> Extends(more, r)) && Idle(Last(env, more).shared)
    ensures var t := Last(env, run).shared.repo.db;
      Last(env, more).shared.repo.db == t.(narinfos := t.narinfos[info := row], links := t.links + {Link(info, file)})
    ensures Last(env, more).readers == Last(env, run).readers
  {
    more := Proceed(env, run, Save(SaveInfo(info, row)));
    more := Proceed(env, more, Save(LinkInfo(Link(info, file))));
  }

  /** What the database gains. */
  ghost predicate Added(t: Tables, u: Tables, key: NarKey, info: Id, row: NarInfo) {
    && u.nextFile == t.nextFile + 1
    && u.narFiles.Keys == t.narFiles.Keys + {t.nextFile}
    && (forall f :: f in t.narFiles ==> u.narFiles[f] == t.narFiles[f])
    && u.narFiles[t.nextFile].key == key && u.narFiles[t.nextFile].totalChunks == 1
    && u.links == t.links + {Link(info, t.nextFile)}
    && u.narinfos == t.narinfos[info := row]
  }

  lemma Finish1(env: Env, run: Run, file: Id, size: nat) returns (more: Run)
    requires Valid(env, run) && env.nar(file) != [] && (size > 0 ==> |env.nar(file)| == 1 && size == Size(env, env.nar(file)))
    requires var w := Last(env, run).shared;
      file in w.attempts && w.attempts[file] == Attempt(1, size, 1, 1, {}, None) && file in w.repo.db.narFiles
    ensures Valid(env, more) && (Careful(env, run) ==> Careful(env, more))
    ensures forall r :: Extends(run, r) ==> Extends(more, r)
    ensures var w := Last(env, run).shared;
      Last(env, more) == Last(env, run).(shared := w.(
        repo := w.repo.(db := MarkComplete(w.repo.db, file, 1, Size(env, env.nar(file)[..1]))),
        attempts := w.attempts - {file}))
  {
    assert |env.nar(file)| == 1 ==> env.nar(file)[..1] == env.nar(file);
    more := Proceed(env, run, Write(file, Complete));
  }

  // ---------------------------------------------------------------- an eviction and a round spare a shared chunk

  /** Two linked, complete NARs. */
  ghost predicate Two(t: Tables, k0: NarKey, k1: NarKey, row0: NarInfo, row1: NarInfo) {
    && t.narFiles.Keys == {0, 1} && t.narFiles[0].totalChunks == 1 && t.narFiles[1].totalChunks == 1
    && t.links == {Link(0, 0), Link(1, 1)} && t.narinfos == map[0 := row0, 1 := row1]
  }

  lemma AddTwo(env: Env, h: Hash, k0: NarKey, k1: NarKey, row0: NarInfo, row1: NarInfo) returns (run: Run)
    requires NoEmptyChunks(env) && env.nar(0) == [h] && env.nar(1) == [h] && k0 != k1 && row0.hash != row1.hash
    ensures Careful(env, run) && Idle(Last(env, run).shared) && Two(Last(env, run).shared.repo.db, k0, k1, row0, row1)
  {
    var size := Size(env, [h]);
    OneChunkSize(env, h);
    run := AddNar(env, Start, k0, size, 0, row0);
    var t := Last(env, run).shared.repo.db;
    RunKeepsInv(env, run);
    assert FilesWithKey(t, k1) == {};
    run := AddNar(env, run, k1, size, 1, row1);
  }

  lemma OneChunkSize(env: Env, h: Hash)
    requires NoEmptyChunks(env) && env.nar(0) == [h]
    ensures Size(env, [h]) == |env.content(h)| > 0
  {
    assert env.content(env.nar(0)[0]) != [];
    assert [h][..0] == [];
    assert Size(env, [h][..0]) == 0;
  }

  lemma EvictOne(t: Tables, k0: NarKey, k1: NarKey, row0: NarInfo, row1: NarInfo)
    requires Consistent(t) && Two(t, k0, k1, row0, row1)
    ensures var u := Eviction.AfterEviction(t, {1}, true);
      u.narFiles.Keys == {0} && u.links == {Link(0, 0)} && u.narinfos == map[0 := row0]
  {
    var u := DeleteInfos(t, {1});
    assert u.links == {Link(0, 0)};
    assert u.narinfos == map[0 := row0];
    assert OrphanFiles(u) == {1};
    Eviction.SweepPrunes(u, true);
  }

  lemma {:induction false} SomeOrder<T>(s: set<T>) returns (q: seq<T>)
    ensures forall x :: x in q <==> x in s
    decreases s
  {
    q := [];
    if s != {} {
      var x :| x in s;
      q := SomeOrder(s - {x});
      q := q + [x];
    }
  }

  lemma SuspectsExist(t: Tables, ids: set<Id>) returns (q: seq<Fsck.Suspect>)
    ensures Fsck.Lists(t, q, ids)
  {
    q := SomeOrder(set f | f in ids && f in t.narFiles :: Fsck.SuspectOf(t, f));
  }

  /** Whatever the state, phase 1 has something to report about it. */
  lemma FindingsExist(r: Repo) returns (f: Fsck.Findings)
    ensures Fsck.Collected(r, f)
  {
    var a := SomeOrder(BareInfos(r.db));
    var b := SuspectsExist(r.db, OrphanFiles(r.db));
    var c := SuspectsExist(r.db, Fsck.MissingFiles(r));
    var d := SomeOrder(Fsck.StrayNars(r));
    var e := SomeOrder(OrphanChunks(r.db));
    var g := SuspectsExist(r.db, Fsck.BrokenFiles(r));
    var h := SuspectsExist(r.db, SizeMismatches(r.db));
    var i := SomeOrder(Fsck.StrayChunks(r));
    f := Fsck.Findings(a, b, c, d, e, g, h, i);
  }

  lemma IdleIsQuiet(env: Env, w: Shared)
    requires w.attempts == map[]
    ensures Quiet(env, w)
  {}

  /** In any careful run, while nobody is chunking: a round keeps every linked, servable NAR, rows, bytes and all. */
  lemma RoundInRunSpares(env: Env, run: Run, now: nat, l: Link) returns (more: Run)
    requires NoEmptyChunks(env) && Careful(env, run) && Last(env, run).shared.attempts == map[]
    requires l in Last(env, run).shared.repo.db.links && Servable(Last(env, run).shared.repo, l.file)
    ensures Careful(env, more) && Extends(more, run)
    ensures exists f :: Fsck.Round(Last(env, run).shared.repo, Last(env, more).shared.repo, now, f)
    ensures Fsck.Kept(Last(env, run).shared.repo, Last(env, more).shared.repo, l)
  {
    var w := Last(env, run).shared;
    RunKeepsInv(env, run);
    IdleIsQuiet(env, w);
    var f := FindingsExist(Fsck.Stamp(w.repo, now));
    more := RoundIsARun(env, run, now, f);
    var r :| Reached(env, run, more, r) && Fsck.Round(w.repo, r, now, f);
    Fsck.ServableNarSurvivesRound(w.repo, r, now, f, l);
  }

  lemma OnlyLinkServable(env: Env, w: Shared, row: NarInfo)
    requires Inv(env, w) && env.validated(0) && row.narSize.None?
    requires w.repo.db.links == {Link(0, 0)} && w.repo.db.narinfos == map[0 := row]
    requires 0 in w.repo.db.narFiles && w.repo.db.narFiles[0].totalChunks > 0
    ensures Servable(w.repo, 0)
  {
    CompleteHasItsChunks(env, w, 0);
    assert forall l :: l in w.repo.db.links ==> !Mismatched(w.repo.db, l);
  }

  /** From two linked NARs, an eviction and then an fsck round leave the first one linked and whole. */
  ghost predicate SparesTheFirst(
    env: Env, before: Run, evicted: Run, after: Run, k0: NarKey, k1: NarKey, row0: NarInfo, row1: NarInfo, now: nat)
  {
    && Careful(env, before) && Two(Last(env, before).shared.repo.db, k0, k1, row0, row1)
    && evicted == Run.Then(before, Back(Delete(Evict({1}, 0)))) && Careful(env, evicted)
    && Last(env, evicted).shared.repo.db.narFiles.Keys == {0}
    && Careful(env, after) && Extends(after, evicted)
    && (exists f :: Fsck.Round(Last(env, evicted).shared.repo, Last(env, after).shared.repo, now, f))
    && Link(0, 0) in Last(env, after).shared.repo.db.links && HasItsChunks(env, Last(env, after).shared.repo, 0)
  }

  /** Two NARs share their only chunk. Evicting one and then running fsck leaves the other whole. */
  lemma SharedChunkSurvives(env: Env, h: Hash, k0: NarKey, k1: NarKey, row0: NarInfo, row1: NarInfo, now: nat)
    returns (before: Run, evicted: Run, after: Run)
    requires NoEmptyChunks(env) && env.nar(0) == [h] && env.nar(1) == [h] && env.validated(0)
    requires k0 != k1 && row0.hash != row1.hash && row0.narSize.None?
    ensures SparesTheFirst(env, before, evicted, after, k0, k1, row0, row1, now)
  {
    before := AddTwo(env, h, k0, k1, row0, row1);
    evicted := EvictSecond(env, before, k0, k1, row0, row1);
    RunKeepsInv(env, evicted);
    OnlyLinkServable(env, Last(env, evicted).shared, row0);
    after := RoundInRunSpares(env, evicted, now, Link(0, 0));
    CompleteNarsHaveTheirRows(env, after, 0);
  }

  lemma EvictSecond(env: Env, run: Run, k0: NarKey, k1: NarKey, row0: NarInfo, row1: NarInfo) returns (more: Run)
    requires NoEmptyChunks(env) && Careful(env, run) && Idle(Last(env, run).shared)
    requires Two(Last(env, run).shared.repo.db, k0, k1, row0, row1)
    ensures more == Run.Then(run, Back(Delete(Evict({1}, 0)))) && Careful(env, more)
    ensures var w := Last(env, more).shared;
      && w.attempts == map[] && w.repo.db.narFiles.Keys == {0} && w.repo.db.narFiles[0].totalChunks == 1
      && w.repo.db.links == {Link(0, 0)} && w.repo.db.narinfos == map[0 := row0]
  {
    var w := Last(env, run).shared;
    RunKeepsInv(env, run);
    IdleIsQuiet(env, w);
    EvictOne(w.repo.db, k0, k1, row0, row1);
    Eviction.EvictionKeepsSurvivors(w.repo.db, {1}, true);
    more := GoOn(env, run, Delete(Evict({1}, 0)));
  }
}
