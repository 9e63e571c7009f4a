/** The set of narinfo hashes that pinned closures protect from eviction: a bounded breadth-first search. */
module PinnedClosure {
  import opened Collections
  import opened Database

  function Prefixes(refs: set<string>, len: nat): set<string> {
    set ref | ref in refs && len <= |ref| :: ref[..len]
  }

  function InfosWithHash(t: Tables, h: string): set<Id> {
    set i | i in t.narinfos && t.narinfos[i].hash == h
  }

  /** The hashes that the narinfo with this hash refers to; none if it is not in the database. */
  function Edges(t: Tables, len: nat, h: string): set<string> {
    set i, e | i in InfosWithHash(t, h) && e in Prefixes(t.narinfos[i].references, len) :: e
  }

  /** An edge is the beginning, of the given length, of a reference of the narinfo with that hash. */
  lemma EdgeIff(t: Tables, len: nat, h: string, e: string)
    ensures e in Edges(t, len, h) <==>
      exists i, ref :: i in t.narinfos && t.narinfos[i].hash == h && ref in t.narinfos[i].references && len <= |ref| && e == ref[..len]
  {
    if exists i, ref :: i in t.narinfos && t.narinfos[i].hash == h && ref in t.narinfos[i].references && len <= |ref| && e == ref[..len] {
      var i, ref :| i in t.narinfos && t.narinfos[i].hash == h && ref in t.narinfos[i].references && len <= |ref| && e == ref[..len];
      assert i in InfosWithHash(t, h) && e in Prefixes(t.narinfos[i].references, len);
    }
  }

  function Successors(t: Tables, len: nat, hs: set<string>): set<string> {
    set h, e | h in hs && e in Edges(t, len, h) :: e
  }

  /** A walk along references. */
  ghost predicate Walk(t: Tables, len: nat, p: seq<string>) {
    p != [] && forall i :: 0 < i < |p| ==> p[i] in Edges(t, len, p[i - 1])
  }

  /** Reachable from a root in at most n steps. */
  ghost predicate Reaches(t: Tables, len: nat, roots: set<string>, n: nat, h: string) {
    exists p :: Walk(t, len, p) && p[0] in roots && p[|p| - 1] == h && |p| <= n + 1
  }

  ghost function Within(t: Tables, len: nat, roots: set<string>, n: nat): set<string> {
    if n == 0 then roots else
      var inner := Within(t, len, roots, n - 1);
      inner + Successors(t, len, inner)
  }

  /** The levels of the search are exactly bounded reachability. */
  lemma {:induction false} WithinIffReaches(t: Tables, len: nat, roots: set<string>, n: nat, h: string)
    ensures h in Within(t, len, roots, n) <==> Reaches(t, len, roots, n, h)
  {
    if h in Within(t, len, roots, n) {
      WithinHasWalk(t, len, roots, n, h);
    }
    if Reaches(t, len, roots, n, h) {
      var p :| Walk(t, len, p) && p[0] in roots && p[|p| - 1] == h && |p| <= n + 1;
      WalkStaysWithin(t, len, roots, n, p);
    }
  }

  lemma {:induction false} WithinHasWalk(t: Tables, len: nat, roots: set<string>, n: nat, h: string)
    requires h in Within(t, len, roots, n)
    ensures Reaches(t, len, roots, n, h)
  {
    if h in roots {
      assert Walk(t, len, [h]);
    } else if h in Within(t, len, roots, n - 1) {
      WithinHasWalk(t, len, roots, n - 1, h);
    } else {
      var g :| g in Within(t, len, roots, n - 1) && h in Edges(t, len, g);
      WithinHasWalk(t, len, roots, n - 1, g);
      var p :| Walk(t, len, p) && p[0] in roots && p[|p| - 1] == g && |p| <= n;
      assert Walk(t, len, p + [h]);
    }
  }

  lemma {:induction false} WalkStaysWithin(t: Tables, len: nat, roots: set<string>, n: nat, p: seq<string>)
    requires Walk(t, len, p) && p[0] in roots && |p| <= n + 1
    ensures p[|p| - 1] in Within(t, len, roots, n)
    decreases n
  {
    if |p| == 1 {
      WithinGrows(t, len, roots, 0, n);
    } else {
      var q := p[..|p| - 1];
      WalkStaysWithin(t, len, roots, n - 1, q);
      assert p[|p| - 1] in Edges(t, len, q[|q| - 1]);
    }
  }

  lemma {:induction false} WithinGrows(t: Tables, len: nat, roots: set<string>, m: nat, n: nat)
    requires m <= n
    ensures Within(t, len, roots, m) <= Within(t, len, roots, n)
    decreases n
  {
    if m < n {
      WithinGrows(t, len, roots, m, n - 1);
    }
  }

  /** Once a level adds nothing, no later level does. */
  lemma {:induction false} WithinSettles(t: Tables, len: nat, roots: set<string>, m: nat, n: nat)
    requires m <= n && Successors(t, len, Within(t, len, roots, m)) <= Within(t, len, roots, m)
    ensures Within(t, len, roots, n) == Within(t, len, roots, m)
    decreases n
  {
    if m < n {
      WithinSettles(t, len, roots, m, n - 1);
    }
  }

  lemma EdgesOfInfo(t: Tables, len: nat, info: Id)
    requires Consistent(t) && info in t.narinfos
    ensures Edges(t, len, t.narinfos[info].hash) == Prefixes(t.narinfos[info].references, len)
  {
    assert InfosWithHash(t, t.narinfos[info].hash) == {info};
  }

  /** Push the unvisited hashes that a list of references starts with. */
  method PushAll(refs: seq<string>, len: nat, visited0: set<string>)
    returns (visited: set<string>, pushed: seq<string>)
    ensures visited == visited0 + Prefixes(ToSet(refs), len)
    ensures Distinct(pushed) && ToSet(pushed) == visited - visited0
  {
    visited, pushed := visited0, [];
    for k := 0 to |refs|
      invariant visited == visited0 + Prefixes(ToSet(refs[..k]), len)
      invariant Distinct(pushed) && ToSet(pushed) == visited - visited0
    {
      ToSetOfPrefix(refs, k);
      if len <= |refs[k]| {
        var refHash := refs[k][..len];
        assert Prefixes(ToSet(refs[..k + 1]), len) == Prefixes(ToSet(refs[..k]), len) + {refHash};
        if refHash !in visited {
          assert refHash !in ToSet(pushed);
          AppendDistinct(pushed, refHash);
          visited := visited + {refHash};
          pushed := pushed + [refHash];
        }
      } else {
        assert Prefixes(ToSet(refs[..k + 1]), len) == Prefixes(ToSet(refs[..k]), len);
      }
    }
    assert refs[..|refs|] == refs;
  }

  /** One turn of the inner loop: the narinfo of one hash, if there is one. */
  method Expand(t: Tables, len: nat, h: string, visited0: set<string>)
    returns (visited: set<string>, pushed: seq<string>)
    requires Consistent(t)
    ensures visited == visited0 + Edges(t, len, h)
    ensures Distinct(pushed) && ToSet(pushed) == visited - visited0
  {
    var infos := InfosWithHash(t, h);
    if infos == {} {
      return visited0, [];
    }
    var info :| info in infos;
    EdgesOfInfo(t, len, info);
    var refs := Enumerate(t.narinfos[info].references);
    assert ToSet(refs) == t.narinfos[info].references;
    visited, pushed := PushAll(refs, len, visited0);
  }

  /** One level of the search: every hash of the queue is expanded, what they add is the next queue. */
  method ExpandLevel(t: Tables, len: nat, level: seq<string>, visited0: set<string>)
    returns (visited: set<string>, next: seq<string>)
    requires Consistent(t)
    ensures visited == visited0 + Successors(t, len, ToSet(level))
    ensures Distinct(next) && ToSet(next) == visited - visited0
  {
    visited, next := visited0, [];
    for i := 0 to |level|
      invariant visited == visited0 + Successors(t, len, ToSet(level[..i]))
      invariant Distinct(next) && ToSet(next) == visited - visited0
    {
      ToSetOfPrefix(level, i);
      assert Successors(t, len, ToSet(level[..i + 1]))
          == Successors(t, len, ToSet(level[..i])) + Edges(t, len, level[i]);
      var pushed;
      ghost var before := visited;
      visited, pushed := Expand(t, len, level[i], visited);
      assert ToSet(pushed) !! ToSet(next);
      ConcatDistinct(next, pushed);
      next := next + pushed;
    }
    assert level[..|level|] == level;
  }

  /**
   GetPinnedClosureHashes: exactly the hashes within maxDepth references of a pinned root. The ghost
   result lists every hash that ever entered the queue, once each: that is why cycles do no harm.
   */
  method GetPinnedClosureHashes(t: Tables, len: nat, pinned: set<string>, maxDepth: nat)
    returns (excluded: set<string>, ghost enqueued: seq<string>)
    requires Consistent(t)
    ensures excluded == Within(t, len, pinned, maxDepth)
    ensures Distinct(enqueued) && ToSet(enqueued) == excluded
  {
    var queue := Enumerate(pinned);
    excluded, enqueued := pinned, queue;
    var depth := 0;
    while |queue| > 0 && depth < maxDepth
      invariant depth <= maxDepth
      invariant excluded == Within(t, len, pinned, depth)
      invariant Successors(t, len, excluded - ToSet(queue)) <= excluded
      invariant Distinct(enqueued) && ToSet(enqueued) == excluded && ToSet(queue) <= excluded
      decreases maxDepth - depth
    {
      ghost var before := excluded;
      ghost var level := ToSet(queue);
      depth := depth + 1;
      excluded, queue := ExpandLevel(t, len, queue, excluded);
      LevelIsComplete(t, len, before, level);
      ConcatDistinct(enqueued, queue);
      enqueued := enqueued + queue;
    }
    if |queue| == 0 {
      assert excluded - ToSet(queue) == excluded;
      WithinSettles(t, len, pinned, depth, maxDepth);
    }
  }

  /** Expanding only the newest hashes of a level loses nothing. */
  lemma LevelIsComplete(t: Tables, len: nat, seen: set<string>, level: set<string>)
    requires level <= seen && Successors(t, len, seen - level) <= seen
    ensures seen + Successors(t, len, level) == seen + Successors(t, len, seen)
    ensures var all := seen + Successors(t, len, seen);
      Successors(t, len, all - (all - seen)) <= all
  {
    forall h, e | h in seen - level && e in Edges(t, len, h)
      ensures e in seen
    {
      assert e in Successors(t, len, seen - level);
    }
    var all := seen + Successors(t, len, seen);
    assert all - (all - seen) == seen;
  }

  /**
   With the length of the code, 52, and narinfo hashes of 32 characters, references protect nothing:
   the only narinfos in the pinned set are pinned roots.
   */
  lemma {:induction false} LongPrefixesReachNoNarInfo(t: Tables, len: nat, pinned: set<string>, n: nat, i: Id)
    requires i in t.narinfos && |t.narinfos[i].hash| != len
    requires t.narinfos[i].hash in Within(t, len, pinned, n)
    ensures t.narinfos[i].hash in pinned
  {
    if n > 0 {
      var h := t.narinfos[i].hash;
      assert forall g, e :: e in Edges(t, len, g) ==> |e| == len;
      LongPrefixesReachNoNarInfo(t, len, pinned, n - 1, i);
    }
  }
}
