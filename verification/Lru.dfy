/** Eviction of the least recently used narinfos, and of the nar_files and chunks that become unreferenced. */
module Lru {
  import opened Collections
  import opened Database
  import opened Repository

  const U64: nat := 0x1_0000_0000_0000_0000
  const MAX_INT64: nat := 0x7FFF_FFFF_FFFF_FFFF
  const MAX_FETCH_SIZE: nat := 10000

  // ---------------------------------------------------------------- sizes of sets of nar_files

  lemma SizeOfMonotone(t: Tables, a: set<Id>, b: set<Id>)
    requires a <= b
    ensures SizeOf(t, a) <= SizeOf(t, b) <= TotalSize(t)
  {
    var all := Sizes(t, t.narFiles.Keys);
    var a', b' := a * t.narFiles.Keys, b * t.narFiles.Keys;
    assert Sizes(t, a) == all - (all.Keys - a') && Sizes(t, b) == all - (all.Keys - b');
    SumMonotone(all, a', b');
  }

  /** Deleting nar_files lowers the total recorded size by exactly their sizes. */
  lemma DeletedSizesLeave(t: Tables, u: Tables)
    requires forall f :: f in u.narFiles ==> f in t.narFiles && SameFile(u.narFiles[f], t.narFiles[f])
    ensures TotalSize(u) + SizeOf(t, t.narFiles.Keys - u.narFiles.Keys) == TotalSize(t)
  {
    var all := Sizes(t, t.narFiles.Keys);
    var gone := t.narFiles.Keys - u.narFiles.Keys;
    SumSplit(all, gone);
    assert all - gone == Sizes(u, u.narFiles.Keys);
    assert all - (all.Keys - gone) == Sizes(t, gone);
  }

  // ---------------------------------------------------------------- the candidate fetch loop

  /** f * 2^k */
  function Shifted(f: nat, k: nat): nat {
    if k == 0 then f else 2 * Shifted(f, k - 1)
  }

  /** The first bound passed to GetLeastUsedNarInfos. */
  function FirstFetch(cleanupSize: nat): nat
    requires cleanupSize < U64
  {
    if cleanupSize == 0 then 100 else
      var doubled := (cleanupSize * 2) % U64;
      if doubled < cleanupSize || doubled > MAX_FETCH_SIZE then MAX_FETCH_SIZE else doubled
  }

  function Unpinned(t: Tables, ids: set<Id>, pinned: set<string>): set<Id> {
    set i | i in ids && i in t.narinfos && t.narinfos[i].hash !in pinned
  }

  /** An iteration with this bound leaves the loop. */
  ghost predicate Stops(t: Tables, cleanupSize: nat, pinned: set<string>, bound: nat) {
    || LeastUsed(t, bound) == {}
    || (Unpinned(t, LeastUsed(t, bound), pinned) != {} && cleanupSize > 0)
  }

  /** The bounds of successive iterations: doubled each time, in 64-bit arithmetic. */
  ghost predicate Bounds(cleanupSize: nat, bounds: seq<nat>)
    requires cleanupSize < U64
  {
    && bounds != [] && bounds[0] == FirstFetch(cleanupSize)
    && forall j :: 0 < j < |bounds| ==> bounds[j] == (bounds[j - 1] + bounds[j - 1]) % U64
  }

  /**
   `wide`: the database driver takes any uint64 as a parameter. The default converter of database/sql does not;
   it rejects those with the high bit set.
   */
  predicate Accepts(wide: bool, bound: nat) { wide || bound <= MAX_INT64 }

  datatype Selection = Nothing | Candidates(ids: seq<Id>) | Diverges | Rejected

  /** No iteration but the last one stops. */
  ghost predicate RunsThrough(t: Tables, cleanupSize: nat, pinned: set<string>, wide: bool, bounds: seq<nat>) {
    forall j :: 0 <= j < |bounds| - 1 ==> Accepts(wide, bounds[j]) && !Stops(t, cleanupSize, pinned, bounds[j])
  }

  /** What the last iteration returns. */
  ghost predicate Ends(t: Tables, cleanupSize: nat, pinned: set<string>, wide: bool, last: nat, s: Selection) {
    match s
    case Nothing => Accepts(wide, last) && LeastUsed(t, last) == {}
    case Candidates(ids) =>
      && Accepts(wide, last) && Stops(t, cleanupSize, pinned, last)
      && ids != [] && Distinct(ids) && ToSet(ids) == LeastUsed(t, last)
    case Diverges => last == 0 && !Stops(t, cleanupSize, pinned, last)
    case Rejected => !Accepts(wide, last)
  }

  /** How the loop ends: at the first iteration that stops, or never, once it is bound to repeat itself. */
  ghost predicate SelectionOf(t: Tables, cleanupSize: nat, pinned: set<string>, wide: bool, bounds: seq<nat>, s: Selection)
    requires cleanupSize < U64
  {
    && Bounds(cleanupSize, bounds)
    && RunsThrough(t, cleanupSize, pinned, wide, bounds)
    && Ends(t, cleanupSize, pinned, wide, bounds[|bounds| - 1], s)
  }

  lemma RunsOn(t: Tables, cleanupSize: nat, pinned: set<string>, wide: bool, bounds: seq<nat>)
    requires cleanupSize < U64 && Bounds(cleanupSize, bounds) && RunsThrough(t, cleanupSize, pinned, wide, bounds)
    requires Accepts(wide, bounds[|bounds| - 1]) && !Stops(t, cleanupSize, pinned, bounds[|bounds| - 1])
    ensures var last := bounds[|bounds| - 1];
      var longer := bounds + [(last + last) % U64];
      Bounds(cleanupSize, longer) && RunsThrough(t, cleanupSize, pinned, wide, longer)
  {
    var last := bounds[|bounds| - 1];
    BoundsGoOn(cleanupSize, bounds, (last + last) % U64);
    RunsPast(t, cleanupSize, pinned, wide, bounds, (last + last) % U64);
  }

  lemma BoundsGoOn(cleanupSize: nat, bounds: seq<nat>, next: nat)
    requires cleanupSize < U64 && Bounds(cleanupSize, bounds)
    requires next == (bounds[|bounds| - 1] + bounds[|bounds| - 1]) % U64
    ensures Bounds(cleanupSize, bounds + [next])
  {}

  lemma RunsPast(t: Tables, cleanupSize: nat, pinned: set<string>, wide: bool, bounds: seq<nat>, next: nat)
    requires bounds != [] && RunsThrough(t, cleanupSize, pinned, wide, bounds)
    requires Accepts(wide, bounds[|bounds| - 1]) && !Stops(t, cleanupSize, pinned, bounds[|bounds| - 1])
    ensures RunsThrough(t, cleanupSize, pinned, wide, bounds + [next])
  {}

  lemma FirstFetchRange(cleanupSize: nat)
    requires cleanupSize < U64
    ensures 2 <= FirstFetch(cleanupSize) <= MAX_FETCH_SIZE
  {}

  /** For every 64-bit cleanup size, wrap-around included: twice the size, but no more than 10000. */
  lemma FirstFetchIsCapped(cleanupSize: nat)
    requires 0 < cleanupSize < 0x1_0000_0000_0000_0000
    ensures FirstFetch(cleanupSize) == if 2 * cleanupSize <= 10000 then 2 * cleanupSize else 10000
  {
    if cleanupSize * 2 < U64 {
      Remainder(0, cleanupSize * 2);
    } else {
      Remainder(1, cleanupSize * 2 - U64);
    }
  }

  /** The k-th bound is f * 2^k, wrapped around. */
  lemma {:induction false} BoundIsPower(cleanupSize: nat, bounds: seq<nat>, k: nat)
    requires cleanupSize < U64 && Bounds(cleanupSize, bounds) && k < |bounds|
    ensures bounds[k] == Shifted(FirstFetch(cleanupSize), k) % U64
  {
    if k > 0 {
      BoundIsPower(cleanupSize, bounds, k - 1);
      DoubleModulo(Shifted(FirstFetch(cleanupSize), k - 1));
    }
  }

  lemma SmallBound(cleanupSize: nat, bounds: seq<nat>, k: nat)
    requires cleanupSize < U64 && Bounds(cleanupSize, bounds) && k < |bounds|
    requires Shifted(FirstFetch(cleanupSize), k) < U64
    ensures bounds[k] == Shifted(FirstFetch(cleanupSize), k)
  {
    BoundIsPower(cleanupSize, bounds, k);
  }

  lemma DoubleModulo(x: nat)
    ensures (x + x) % U64 == (x % U64 + x % U64) % U64
  {
    var q, r := x / U64, x % U64;
    if r + r < U64 {
      Remainder(q + q, r + r);
      Remainder(0, r + r);
    } else {
      Remainder(q + q + 1, r + r - U64);
      Remainder(1, r + r - U64);
    }
  }

  lemma Remainder(q: nat, r: nat)
    requires r < U64
    ensures (q * U64 + r) % U64 == r
  {}

  lemma {:induction false} ShiftedTwice(f: nat, a: nat, b: nat)
    ensures Shifted(Shifted(f, a), b) == Shifted(f, a + b)
    decreases b
  {
    if b > 0 {
      ShiftedTwice(f, a, b - 1);
    }
  }

  lemma ShiftedBy16(f: nat)
    ensures Shifted(f, 16) == f * 0x1_0000
  {
    assert Shifted(f, 1) == 2 * f && Shifted(f, 2) == 4 * f && Shifted(f, 3) == 8 * f;
    assert Shifted(f, 4) == 16 * f && Shifted(f, 5) == 32 * f && Shifted(f, 6) == 64 * f;
    assert Shifted(f, 7) == 128 * f && Shifted(f, 8) == 256 * f && Shifted(f, 9) == 512 * f;
    assert Shifted(f, 10) == 1024 * f && Shifted(f, 11) == 2048 * f && Shifted(f, 12) == 4096 * f;
    assert Shifted(f, 13) == 8192 * f && Shifted(f, 14) == 16384 * f && Shifted(f, 15) == 32768 * f;
  }

  lemma ShiftedBy64(f: nat)
    ensures Shifted(f, 64) == f * 0x1_0000_0000_0000_0000
  {
    ShiftedBy16(f);
    ShiftedBy16(f * 0x1_0000);
    ShiftedBy16(f * 0x1_0000_0000);
    ShiftedBy16(f * 0x1_0000_0000_0000);
    ShiftedTwice(f, 16, 16);
    ShiftedTwice(f, 32, 16);
    ShiftedTwice(f, 48, 16);
  }

  /** Doubled 64 times, any bound has wrapped around to zero. */
  lemma BoundVanishes(cleanupSize: nat, bounds: seq<nat>)
    requires cleanupSize < U64 && Bounds(cleanupSize, bounds) && |bounds| > 64
    ensures bounds[64] == 0
  {
    var f := FirstFetch(cleanupSize);
    ShiftedBy64(f);
    BoundIsPower(cleanupSize, bounds, 64);
    Remainder(f, 0);
  }

  method InitialFetchSize(cleanupSize: nat) returns (fetchSize: nat)
    requires cleanupSize < U64
    ensures fetchSize == FirstFetch(cleanupSize)
  {
    if cleanupSize > 0 {
      fetchSize := (cleanupSize * 2) % U64;
      if fetchSize < cleanupSize {
        fetchSize := MAX_FETCH_SIZE;
      }
    } else {
      fetchSize := 100;
    }
    if fetchSize > MAX_FETCH_SIZE {
      fetchSize := MAX_FETCH_SIZE;
    }
  }

  method CountUnpinned(t: Tables, ids: seq<Id>, pinned: set<string>) returns (eligible: nat)
    requires ToSet(ids) <= t.narinfos.Keys
    ensures eligible > 0 <==> Unpinned(t, ToSet(ids), pinned) != {}
  {
    eligible := 0;
    for i := 0 to |ids|
      invariant eligible > 0 <==> exists j :: 0 <= j < i && t.narinfos[ids[j]].hash !in pinned
    {
      assert ids[i] in ToSet(ids);
      if t.narinfos[ids[i]].hash !in pinned {
        eligible := eligible + 1;
      }
    }
    if eligible > 0 {
      var j :| 0 <= j < |ids| && t.narinfos[ids[j]].hash !in pinned;
      assert ids[j] in Unpinned(t, ToSet(ids), pinned);
    }
  }

  /** GetLeastUsedNarInfos, in whatever order the database returns the rows. */
  method Fetch(t: Tables, bound: nat, pinned: set<string>) returns (ids: seq<Id>, eligible: nat)
    ensures Distinct(ids) && ToSet(ids) == LeastUsed(t, bound)
    ensures |ids| == 0 <==> LeastUsed(t, bound) == {}
    ensures eligible > 0 <==> Unpinned(t, LeastUsed(t, bound), pinned) != {}
  {
    ids := Enumerate(LeastUsed(t, bound));
    assert ToSet(ids) == LeastUsed(t, bound);
    HeadIsMember(ids);
    eligible := CountUnpinned(t, ids, pinned);
  }

  /**
   The fetch loop of deleteLRURecordsFromDB. The tables do not change while it runs, so once the bound has
   wrapped around to zero an iteration that does not stop is repeated for ever: the result is Diverges.
   */
  method SelectCandidates(t: Tables, cleanupSize: nat, pinned: set<string>, wide: bool)
    returns (s: Selection, ghost bounds: seq<nat>)
    requires cleanupSize < U64
    ensures SelectionOf(t, cleanupSize, pinned, wide, bounds, s)
    ensures s.Candidates? ==> s.ids != [] && Distinct(s.ids) && Unpinned(t, ToSet(s.ids), pinned) != {}
    ensures s.Diverges? ==> LeastUsed(t, 0) != {} && (cleanupSize > 0 ==> Unpinned(t, LeastUsed(t, 0), pinned) == {})
  {
    var fetchSize := InitialFetchSize(cleanupSize);
    var fetchIncrement := fetchSize;
    bounds := [fetchSize];
    while true
      invariant |bounds| <= 65 && Bounds(cleanupSize, bounds)
      invariant fetchSize == fetchIncrement == bounds[|bounds| - 1]
      invariant RunsThrough(t, cleanupSize, pinned, wide, bounds)
      decreases 65 - |bounds|
    {
      if !wide && fetchSize > MAX_INT64 {
        return Rejected, bounds;
      }
      var ids, eligible := Fetch(t, fetchSize, pinned);
      if |ids| == 0 {
        return Nothing, bounds;
      }
      if eligible > 0 && (cleanupSize > 0 || |ids| == 0) {
        return Candidates(ids), bounds;
      }
      if fetchSize == 0 {
        return Diverges, bounds;
      }
      if |bounds| == 65 {
        BoundVanishes(cleanupSize, bounds);
      }
      RunsOn(t, cleanupSize, pinned, wide, bounds);
      fetchSize := (fetchSize + fetchIncrement) % U64;
      fetchIncrement := (fetchIncrement * 2) % U64;
      bounds := bounds + [fetchSize];
    }
  }

  // ---------------------------------------------------------------- what the loop selects

  /** The nar_files linked by a narinfo that was accessed before narinfo i, or at the same time and has no larger id. */
  ghost function LinkedByThen(t: Tables, i: Id): set<Id>
    requires i in t.narinfos
  {
    set l | l in t.links && l.info in t.narinfos
         && t.narinfos[l.info].lastAccessedAt.Some? && t.narinfos[i].lastAccessedAt.Some?
         && (|| t.narinfos[l.info].lastAccessedAt.value < t.narinfos[i].lastAccessedAt.value
             || (t.narinfos[l.info].lastAccessedAt == t.narinfos[i].lastAccessedAt && l.info <= i)) :: l.file
  }

  /** The query selects a narinfo exactly if those nar_files add up to no more than the bound. */
  lemma LeastUsedIff(t: Tables, bound: nat, i: Id)
    ensures i in LeastUsed(t, bound) <==>
      && i in t.narinfos
      && Sum(map f | f in LinkedByThen(t, i) && f in t.narFiles :: t.narFiles[f].fileSize) <= bound
  {
    if i in t.narinfos {
      assert FilesUpTo(t, i) == LinkedByThen(t, i);
    }
  }

  /** Oldest first: with a narinfo goes every one that was accessed earlier, or at the same time and has a smaller id. */
  lemma OldestFirst(t: Tables, bound: nat, i: Id, j: Id)
    requires i in LeastUsed(t, bound) && j in t.narinfos
    requires t.narinfos[i].lastAccessedAt.Some? && t.narinfos[j].lastAccessedAt.Some?
    requires || t.narinfos[j].lastAccessedAt.value < t.narinfos[i].lastAccessedAt.value
             || (t.narinfos[j].lastAccessedAt == t.narinfos[i].lastAccessedAt && j <= i)
    ensures j in LeastUsed(t, bound)
  {
    assert FilesUpTo(t, j) <= FilesUpTo(t, i);
    SizeOfMonotone(t, FilesUpTo(t, j), FilesUpTo(t, i));
  }

  /** A narinfo that was never accessed costs nothing: it is among the candidates of any bound. */
  lemma NeverAccessedGoesFirst(t: Tables, bound: nat, i: Id)
    requires i in t.narinfos && t.narinfos[i].lastAccessedAt.None?
    ensures i in LeastUsed(t, bound)
  {
    assert FilesUpTo(t, i) == {};
    assert Sizes(t, {}) == map[];
  }

  lemma LargeBoundSelectsAll(t: Tables, bound: nat)
    requires TotalSize(t) <= bound
    ensures LeastUsed(t, bound) == t.narinfos.Keys
  {
    forall i | i in t.narinfos
      ensures i in LeastUsed(t, bound)
    {
      SizeOfMonotone(t, FilesUpTo(t, i), FilesUpTo(t, i));
    }
  }

  /** Some doubling reaches the total before it overflows. */
  lemma {:induction false} BoundReachesTotal(f: nat, total: nat, k: nat) returns (n: nat)
    requires 0 < f && total <= MAX_INT64 && 0 < Shifted(f, k) < U64
    ensures k <= n && total <= Shifted(f, n) < U64
    decreases total - Shifted(f, k)
  {
    n := k;
    if Shifted(f, k) < total {
      n := BoundReachesTotal(f, total, k + 1);
    }
  }

  lemma {:induction false} ShiftedMonotone(f: nat, a: nat, b: nat)
    requires a <= b
    ensures Shifted(f, a) <= Shifted(f, b)
    decreases b
  {
    if a < b {
      ShiftedMonotone(f, a, b - 1);
    }
  }

  /** Everything but narinfos with these hashes is out of reach of the bound. */
  ghost predicate OnlyPinned(t: Tables, bound: nat, pinned: set<string>) {
    forall i :: i in LeastUsed(t, bound) ==> t.narinfos[i].hash in pinned
  }

  ghost predicate AllPinned(t: Tables, pinned: set<string>) {
    forall i :: i in t.narinfos ==> t.narinfos[i].hash in pinned
  }

  /** The candidates are those of bound f * 2^k, the first such bound that selects an unpinned narinfo. */
  ghost predicate FirstUseful(t: Tables, f: nat, k: nat, pinned: set<string>, ids: seq<Id>) {
    && Distinct(ids) && (forall i :: i in ids <==> i in LeastUsed(t, Shifted(f, k)))
    && !OnlyPinned(t, Shifted(f, k), pinned)
    && forall j: nat :: j < k ==> OnlyPinned(t, Shifted(f, j), pinned)
  }

  lemma OnlyPinnedIff(t: Tables, bound: nat, pinned: set<string>)
    ensures OnlyPinned(t, bound, pinned) <==> Unpinned(t, LeastUsed(t, bound), pinned) == {}
    ensures AllPinned(t, pinned) <==> Unpinned(t, t.narinfos.Keys, pinned) == {}
  {
    if !OnlyPinned(t, bound, pinned) {
      var i :| i in LeastUsed(t, bound) && t.narinfos[i].hash !in pinned;
      assert i in Unpinned(t, LeastUsed(t, bound), pinned);
    }
    if !AllPinned(t, pinned) {
      var i :| i in t.narinfos && t.narinfos[i].hash !in pinned;
      assert i in Unpinned(t, t.narinfos.Keys, pinned);
    }
  }

  /** Whatever candidates the loop ends with, no earlier bound would have offered an unpinned one. */
  lemma CandidatesAreFirstUseful(
    t: Tables, cleanupSize: nat, pinned: set<string>, wide: bool, bounds: seq<nat>, s: Selection)
    requires 0 < cleanupSize < U64 && SelectionOf(t, cleanupSize, pinned, wide, bounds, s) && s.Candidates?
    requires forall j :: 0 <= j < |bounds| ==> bounds[j] == Shifted(FirstFetch(cleanupSize), j)
    ensures FirstUseful(t, FirstFetch(cleanupSize), |bounds| - 1, pinned, s.ids)
  {
    var f, k := FirstFetch(cleanupSize), |bounds| - 1;
    HeadIsMember(s.ids);
    OnlyPinnedIff(t, Shifted(f, k), pinned);
    forall i
      ensures i in s.ids <==> i in LeastUsed(t, Shifted(f, k))
    {
      assert i in s.ids <==> i in ToSet(s.ids);
    }
    forall j: nat | j < k
      ensures OnlyPinned(t, Shifted(f, j), pinned)
    {
      assert !Stops(t, cleanupSize, pinned, bounds[j]);
      OnlyPinnedIff(t, Shifted(f, j), pinned);
    }
  }

  /**
   How the loop ends with a driver that takes any bound, for every database whose sizes fit in 63 bits. It finds
   candidates exactly when the first fetch finds something and something is unpinned: those of the first bound f * 2^k
   that reaches an unpinned narinfo, a bound that has not overflowed. It never ends exactly when everything is pinned and
   some narinfo comes at no size. Otherwise it gives up.
   */
  lemma CandidateLoopOutcome(t: Tables, cleanupSize: nat, pinned: set<string>, wide: bool, bounds: seq<nat>, s: Selection)
    requires 0 < cleanupSize < U64 && TotalSize(t) <= MAX_INT64 && wide
    requires SelectionOf(t, cleanupSize, pinned, wide, bounds, s)
    ensures !s.Rejected?
    ensures var f, k := FirstFetch(cleanupSize), |bounds| - 1;
      && (s.Candidates? <==> LeastUsed(t, f) != {} && !AllPinned(t, pinned))
      && (s.Diverges? <==> LeastUsed(t, 0) != {} && AllPinned(t, pinned))
      && (s.Candidates? ==> Shifted(f, k) < U64 && FirstUseful(t, f, k, pinned, s.ids))
  {
    OnlyPinnedIff(t, 0, pinned);
    if AllPinned(t, pinned) {
      AllPinnedOutcome(t, cleanupSize, pinned, wide, bounds, s);
    } else if LeastUsed(t, FirstFetch(cleanupSize)) == {} {
      EmptyFetchOutcome(t, cleanupSize, pinned, wide, bounds, s);
    } else {
      SomeUnpinnedOutcome(t, cleanupSize, pinned, wide, bounds, s);
    }
  }

  lemma EmptyFetchOutcome(t: Tables, cleanupSize: nat, pinned: set<string>, wide: bool, bounds: seq<nat>, s: Selection)
    requires cleanupSize < U64 && SelectionOf(t, cleanupSize, pinned, wide, bounds, s)
    requires LeastUsed(t, FirstFetch(cleanupSize)) == {}
    ensures s.Nothing? && |bounds| == 1
  {
    assert Stops(t, cleanupSize, pinned, bounds[0]);
    if s.Candidates? {
      HeadIsMember(s.ids);
    }
  }

  lemma SomeUnpinnedOutcome(t: Tables, cleanupSize: nat, pinned: set<string>, wide: bool, bounds: seq<nat>, s: Selection)
    requires 0 < cleanupSize < U64 && TotalSize(t) <= MAX_INT64 && wide
    requires SelectionOf(t, cleanupSize, pinned, wide, bounds, s)
    requires LeastUsed(t, FirstFetch(cleanupSize)) != {} && Unpinned(t, t.narinfos.Keys, pinned) != {}
    ensures s.Candidates? && Shifted(FirstFetch(cleanupSize), |bounds| - 1) < U64
    ensures FirstUseful(t, FirstFetch(cleanupSize), |bounds| - 1, pinned, s.ids)
  {
    var f, k := FirstFetch(cleanupSize), |bounds| - 1;
    var n := BoundReachesTotal(f, TotalSize(t), 0);
    LargeBoundSelectsAll(t, Shifted(f, n));
    if n < k {
      SmallBound(cleanupSize, bounds, n);
      assert Stops(t, cleanupSize, pinned, bounds[n]);
    }
    ShiftedMonotone(f, k, n);
    ShiftedMonotone(f, 0, k);
    SmallBound(cleanupSize, bounds, k);
    assert LeastUsed(t, f) <= LeastUsed(t, Shifted(f, k));
    forall j | 0 <= j < |bounds|
      ensures bounds[j] == Shifted(f, j)
    {
      ShiftedMonotone(f, j, k);
      SmallBound(cleanupSize, bounds, j);
    }
    CandidatesAreFirstUseful(t, cleanupSize, pinned, wide, bounds, s);
  }

  lemma AllPinnedOutcome(t: Tables, cleanupSize: nat, pinned: set<string>, wide: bool, bounds: seq<nat>, s: Selection)
    requires 0 < cleanupSize < U64 && SelectionOf(t, cleanupSize, pinned, wide, bounds, s)
    requires wide
    requires Unpinned(t, t.narinfos.Keys, pinned) == {}
    ensures !s.Candidates? && (s.Diverges? <==> LeastUsed(t, 0) != {})
  {
    var last := bounds[|bounds| - 1];
    assert Unpinned(t, LeastUsed(t, last), pinned) <= Unpinned(t, t.narinfos.Keys, pinned);
    assert LeastUsed(t, 0) <= LeastUsed(t, last);
    if s.Candidates? {
      HeadIsMember(s.ids);
    }
  }

  /**
   The cap on the first fetch is 10000 bytes, so when even the oldest narinfo accounts for more than
   that, nothing is ever evicted, whatever the cleanup size and however full the store is.
   */
  lemma LargeOldestFileBlocksEviction(
    t: Tables, cleanupSize: nat, pinned: set<string>, wide: bool, bounds: seq<nat>, s: Selection)
    requires 0 < cleanupSize < U64 && SelectionOf(t, cleanupSize, pinned, wide, bounds, s)
    requires forall i :: i in t.narinfos ==> SizeOf(t, LinkedByThen(t, i)) > 10000
    ensures s.Nothing?
  {
    FirstFetchRange(cleanupSize);
    forall i | i in t.narinfos
      ensures i !in LeastUsed(t, FirstFetch(cleanupSize))
    {
      LeastUsedIff(t, FirstFetch(cleanupSize), i);
    }
    assert LeastUsed(t, FirstFetch(cleanupSize)) == {};
    EmptyFetchOutcome(t, cleanupSize, pinned, wide, bounds, s);
  }

  // ---------------------------------------------------------------- with a driver that rejects the high bit

  /** Up to the rejected one, the bounds do not wrap around. */
  lemma {:induction false} NarrowBounds(t: Tables, cleanupSize: nat, pinned: set<string>, bounds: seq<nat>, k: nat)
    requires cleanupSize < U64 && Bounds(cleanupSize, bounds) && k < |bounds|
    requires RunsThrough(t, cleanupSize, pinned, false, bounds)
    ensures bounds[k] == Shifted(FirstFetch(cleanupSize), k) < U64
  {
    FirstFetchRange(cleanupSize);
    if k > 0 {
      NarrowBounds(t, cleanupSize, pinned, bounds, k - 1);
      assert bounds[k - 1] <= MAX_INT64;
      SmallSum(bounds[k - 1]);
    }
  }

  lemma SmallSum(x: nat)
    requires x <= MAX_INT64
    ensures (x + x) % U64 == x + x < U64
  {}

  /**
   With such a driver the loop never hangs: it ends with an error exactly when something is selected at first and no
   bound f * 2^k below 2^63 selects anything unpinned; otherwise with the candidates of the first such bound that does.
   */
  lemma NarrowLoopOutcome(t: Tables, cleanupSize: nat, pinned: set<string>, bounds: seq<nat>, s: Selection)
    requires 0 < cleanupSize < U64 && SelectionOf(t, cleanupSize, pinned, false, bounds, s)
    ensures var f, n := FirstFetch(cleanupSize), |bounds| - 1;
      && !s.Diverges? && (s.Nothing? <==> LeastUsed(t, f) == {})
      && (s.Rejected? <==>
            LeastUsed(t, f) != {} && forall k: nat :: Shifted(f, k) <= MAX_INT64 ==> OnlyPinned(t, Shifted(f, k), pinned))
      && (s.Candidates? ==> Shifted(f, n) <= MAX_INT64 && FirstUseful(t, f, n, pinned, s.ids))
  {
    var f, n := FirstFetch(cleanupSize), |bounds| - 1;
    FirstFetchRange(cleanupSize);
    NarrowBounds(t, cleanupSize, pinned, bounds, n);
    ShiftedMonotone(f, 0, n);
    assert LeastUsed(t, f) <= LeastUsed(t, Shifted(f, n));
    if LeastUsed(t, f) == {} {
      EmptyFetchOutcome(t, cleanupSize, pinned, false, bounds, s);
    } else if s.Rejected? {
      forall k: nat | Shifted(f, k) <= MAX_INT64
        ensures OnlyPinned(t, Shifted(f, k), pinned)
      {
        EarlierBoundRunsThrough(t, cleanupSize, pinned, bounds, k);
        OnlyPinnedIff(t, Shifted(f, k), pinned);
      }
    } else {
      NarrowCandidates(t, cleanupSize, pinned, bounds, s);
    }
  }

  lemma NarrowCandidates(t: Tables, cleanupSize: nat, pinned: set<string>, bounds: seq<nat>, s: Selection)
    requires 0 < cleanupSize < U64 && SelectionOf(t, cleanupSize, pinned, false, bounds, s) && !s.Rejected?
    requires LeastUsed(t, bounds[|bounds| - 1]) != {}
    ensures s.Candidates? && Shifted(FirstFetch(cleanupSize), |bounds| - 1) <= MAX_INT64
    ensures FirstUseful(t, FirstFetch(cleanupSize), |bounds| - 1, pinned, s.ids)
  {
    FirstFetchRange(cleanupSize);
    forall j | 0 <= j < |bounds|
      ensures bounds[j] == Shifted(FirstFetch(cleanupSize), j)
    {
      NarrowBounds(t, cleanupSize, pinned, bounds, j);
    }
    ShiftedMonotone(FirstFetch(cleanupSize), 0, |bounds| - 1);
    CandidatesAreFirstUseful(t, cleanupSize, pinned, false, bounds, s);
  }

  lemma EarlierBoundRunsThrough(t: Tables, cleanupSize: nat, pinned: set<string>, bounds: seq<nat>, k: nat)
    requires 0 < cleanupSize < U64 && SelectionOf(t, cleanupSize, pinned, false, bounds, Rejected)
    requires Shifted(FirstFetch(cleanupSize), k) <= MAX_INT64
    ensures Unpinned(t, LeastUsed(t, Shifted(FirstFetch(cleanupSize), k)), pinned) == {}
  {
    var f, n := FirstFetch(cleanupSize), |bounds| - 1;
    NarrowBounds(t, cleanupSize, pinned, bounds, n);
    if k >= n {
      ShiftedMonotone(f, n, k);
      assert false;
    }
    NarrowBounds(t, cleanupSize, pinned, bounds, k);
    assert !Stops(t, cleanupSize, pinned, bounds[k]);
  }
}
