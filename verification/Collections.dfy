/** Small vocabulary shared by the model: optional values, ascending enumerations and sums. */
module Collections {

  datatype Option<+T> = None | Some(value: T)

  /** The least element of a non-empty set. */
  function MinOf(s: set<nat>): (m: nat)
    requires s != {}
    ensures m in s && forall x :: x in s ==> m <= x
  {
    MinExists(s);
    var m :| m in s && forall x :: x in s ==> m <= x;
    m
  }

  lemma MinExists(s: set<nat>)
    requires s != {}
    ensures exists m :: m in s && forall x :: x in s ==> m <= x
  {
    var _ := Least(s);
  }

  lemma {:induction false} Least(s: set<nat>) returns (m: nat)
    requires s != {}
    ensures m in s && forall x :: x in s ==> m <= x
    decreases s
  {
    m :| m in s;
    var rest := s - {m};
    assert forall x :: x in s && x != m ==> x in rest;
    if rest != {} {
      var k := Least(rest);
      m := if k < m then k else m;
    }
  }

  /** The elements of a set in ascending order: what ORDER BY returns. */
  function Ascending(s: set<nat>): (q: seq<nat>)
    ensures |q| == |s|
    ensures forall x :: x in q <==> x in s
  {
    if s == {} then [] else
      var m := MinOf(s);
      [m] + Ascending(s - {m})
  }

  /** An ascending enumeration of a gap-free set counts up from its start. */
  lemma {:induction false} AscendingOfRun(s: set<nat>, start: nat)
    requires forall x :: x in s ==> start <= x
    requires forall x, y: nat :: x in s && start <= y <= x ==> y in s
    ensures forall i :: 0 <= i < |Ascending(s)| ==> Ascending(s)[i] == start + i
  {
    if s != {} {
      var m := MinOf(s);
      assert m in s && start in s;
      var rest := s - {m};
      AscendingOfRun(rest, start + 1);
      assert Ascending(s) == [m] + Ascending(rest);
    }
  }

  /** The sum of the values of a finite map. */
  function Sum(m: map<nat, nat>): nat
    decreases m.Keys
  {
    if m == map[] then 0 else
      var k := MinOf(m.Keys);
      m[k] + Sum(m - {k})
  }

  lemma {:induction false} SumWithout(m: map<nat, nat>, k: nat)
    requires k in m
    ensures Sum(m) == m[k] + Sum(m - {k})
    decreases m.Keys
  {
    var l := MinOf(m.Keys);
    if l != k {
      SumWithout(m - {l}, k);
      SumWithout(m - {k}, l);
      assert m - {l} - {k} == m - {k} - {l};
    }
  }

  /** Splitting off any set of keys splits the sum. */
  lemma {:induction false} SumSplit(m: map<nat, nat>, s: set<nat>)
    requires s <= m.Keys
    ensures Sum(m) == Sum(m - s) + Sum(m - (m.Keys - s))
    decreases s
  {
    if s == {} {
      assert m - s == m;
      assert m - (m.Keys - s) == map[];
    } else {
      var k := MinOf(s);
      SumWithout(m, k);
      SumSplit(m - {k}, s - {k});
      assert m - {k} - (s - {k}) == m - s;
      var part := m - (m.Keys - s);
      SumWithout(part, k);
      assert part - {k} == m - {k} - ((m - {k}).Keys - (s - {k}));
    }
  }

  lemma SumMonotone(m: map<nat, nat>, a: set<nat>, b: set<nat>)
    requires a <= b <= m.Keys
    ensures Sum(m - (m.Keys - a)) <= Sum(m - (m.Keys - b)) <= Sum(m)
  {
    SumSplit(m, b);
    var mb := m - (m.Keys - b);
    SumSplit(mb, a);
    assert mb - (mb.Keys - a) == m - (m.Keys - a);
  }

  function ToSet<T>(q: seq<T>): set<T> { set x | x in q }

  lemma HeadIsMember<T>(q: seq<T>)
    ensures q != [] ==> q[0] in q && q[0] in ToSet(q)
  {}

  lemma ToSetOfPrefix<T>(q: seq<T>, i: nat)
    requires i < |q|
    ensures ToSet(q[..i + 1]) == ToSet(q[..i]) + {q[i]}
  {}

  ghost predicate Distinct<T(!new)>(q: seq<T>) {
    forall i, j :: 0 <= i < j < |q| ==> q[i] != q[j]
  }

  lemma AppendDistinct<T(!new)>(q: seq<T>, x: T)
    requires Distinct(q) && x !in q
    ensures Distinct(q + [x]) && ToSet(q + [x]) == ToSet(q) + {x}
  {}

  lemma ConcatDistinct<T(!new)>(p: seq<T>, q: seq<T>)
    requires Distinct(p) && Distinct(q) && ToSet(p) !! ToSet(q)
    ensures Distinct(p + q) && ToSet(p + q) == ToSet(p) + ToSet(q)
  {
    forall i, j | 0 <= i < j < |p + q|
      ensures (p + q)[i] != (p + q)[j]
    {
      if i < |p| <= j {
        assert p[i] in ToSet(p) && q[j - |p|] in ToSet(q);
      }
    }
  }

  /** One arbitrary ordering of a set, as an unordered SELECT returns it. */
  method Enumerate<T(==,!new)>(s: set<T>) returns (q: seq<T>)
    ensures Distinct(q)
    ensures forall x :: x in q <==> x in s
  {
    q := [];
    var rest := s;
    while rest != {}
      invariant rest <= s
      invariant forall x :: x in q <==> x in s && x !in rest
      invariant Distinct(q)
      decreases rest
    {
      var x :| x in rest;
      q := q + [x];
      rest := rest - {x};
    }
  }
}
