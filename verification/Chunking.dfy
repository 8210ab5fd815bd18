/** Splitting a list into requests of at most `n` items, and putting lists of lists together. */
module Chunking {

  function Concat<T>(ss: seq<seq<T>>): (r: seq<T>) {
    if ss == [] then [] else ss[0] + Concat(ss[1..])
  }

  /** Consecutive slices of `n` items, the last one shorter. */
  function Chunks<T>(s: seq<T>, n: nat): (r: seq<seq<T>>)
    requires n > 0
    ensures Concat(r) == s
    ensures forall c :: c in r ==> 0 < |c| <= n
    ensures s != [] ==> r != []
    decreases |s|
  {
    if s == [] then []
    else if |s| <= n then [s]
    else
      assert s == s[..n] + s[n..];
      [s[..n]] + Chunks(s[n..], n)
  }

  lemma Associate<T>(a: seq<T>, b: seq<T>, c: seq<T>)
    ensures (a + b) + c == a + (b + c)
  {}

  lemma {:induction false} ConcatAppend<T>(a: seq<seq<T>>, b: seq<seq<T>>)
    ensures Concat(a + b) == Concat(a) + Concat(b)
  {
    if a == [] {
      assert a + b == b;
    } else {
      ConcatAppend(a[1..], b);
      assert (a + b)[0] == a[0] && (a + b)[1..] == a[1..] + b;
      Associate(a[0], Concat(a[1..]), Concat(b));
    }
  }

  function Elems<T(==)>(s: seq<T>): set<T> {
    set x | x in s
  }

  lemma {:induction false} Smaller<T>(a: set<T>, b: set<T>)
    requires a <= b
    ensures |a| <= |b|
  {
    if a != {} {
      var x :| x in a;
      Smaller(a - {x}, b - {x});
    }
  }

  /** The members of every list. */
  function Members<T(==)>(ss: seq<seq<T>>): set<T> {
    if ss == [] then {} else Elems(ss[0]) + Members(ss[1..])
  }

  lemma {:induction false} ConcatMembers<T>(ss: seq<seq<T>>)
    ensures Members(ss) == Elems(Concat(ss))
  {
    if ss != [] {
      ConcatMembers(ss[1..]);
    }
  }

  lemma {:induction false} MembersAppend<T>(a: seq<seq<T>>, b: seq<seq<T>>)
    ensures Members(a + b) == Members(a) + Members(b)
  {
    if a == [] {
      assert a + b == b;
    } else {
      MembersAppend(a[1..], b);
      assert (a + b)[1..] == a[1..] + b;
    }
  }

  lemma {:induction false} MembersWhere<T>(ss: seq<seq<T>>, x: T) returns (i: nat)
    requires x in Members(ss)
    ensures i < |ss| && x in ss[i]
  {
    if x in ss[0] {
      i := 0;
    } else {
      i := MembersWhere(ss[1..], x);
      i := i + 1;
    }
  }

  /** Taking members out of one list takes out nothing else. */
  lemma {:induction false} MembersUpdate<T>(ss: seq<seq<T>>, i: nat, s: seq<T>)
    requires i < |ss| && Elems(s) <= Elems(ss[i])
    ensures Elems(ss[i]) <= Members(ss) && Members(ss[i := s]) <= Members(ss)
    ensures Members(ss) <= Members(ss[i := s]) + (Elems(ss[i]) - Elems(s))
  {
    if i > 0 {
      MembersUpdate(ss[1..], i - 1, s);
      assert ss[i := s][1..] == ss[1..][i - 1 := s];
    } else {
      assert ss[i := s][1..] == ss[1..];
    }
  }

  lemma MembersSnoc<T>(ss: seq<seq<T>>, last: seq<T>)
    ensures Members(ss + [last]) == Members(ss) + Elems(last)
  {
    MembersAppend(ss, [last]);
    assert Members([last]) == Elems(last);
  }

  /** The chunks of several lists, one list after the other. */
  function ChunkAll<T>(ss: seq<seq<T>>, n: nat): (r: seq<seq<T>>)
    requires n > 0
    ensures Concat(r) == Concat(ss)
    ensures forall c :: c in r ==> 0 < |c| <= n
  {
    if ss == [] then [] else
      ConcatAppend(Chunks(ss[0], n), ChunkAll(ss[1..], n));
      Chunks(ss[0], n) + ChunkAll(ss[1..], n)
  }

  lemma ChunkAllMembers<T>(ss: seq<seq<T>>, n: nat)
    requires n > 0
    ensures Members(ChunkAll(ss, n)) == Members(ss)
  {
    ConcatMembers(ss);
    ConcatMembers(ChunkAll(ss, n));
  }

  predicate NoRepeats<T(==)>(s: seq<T>) {
    forall i, j :: 0 <= i < j < |s| ==> s[i] != s[j]
  }

  /** The elements `keep` holds, in order. */
  function Filter<T(!new,==)>(s: seq<T>, keep: set<T>): (r: seq<T>)
    ensures forall x :: x in r <==> x in s && x in keep
    ensures NoRepeats(s) ==> NoRepeats(r)
  {
    if s == [] then [] else
      var rest := Filter(s[1..], keep);
      assert NoRepeats(s) ==> s[0] !in s[1..];
      if s[0] in keep then [s[0]] + rest else rest
  }

  lemma FilterAll<T(!new)>(s: seq<T>, keep: set<T>)
    requires forall x :: x in s ==> x in keep
    ensures Filter(s, keep) == s
  {
    if s != [] {
      assert s[0] in s;
      FilterAll(s[1..], keep);
    }
  }
}
