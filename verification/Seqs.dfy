// Sequences: mapping, and keeping the first of equal elements.
module Seqs {

  function Map<A, B>(f: A -> B, s: seq<A>): (r: seq<B>)
    ensures |r| == |s| && forall i | 0 <= i < |s| :: r[i] == f(s[i])
  {
    seq(|s|, i requires 0 <= i < |s| => f(s[i]))
  }

  // The distinct elements of `s` in the order first seen.
  function FirstSeen<T(==)>(s: seq<T>): seq<T> {
    if s == [] then []
    else
      var seen := FirstSeen(s[..|s| - 1]);
      if s[|s| - 1] in seen then seen else seen + [s[|s| - 1]]
  }

  lemma FirstSeenNext<T>(s: seq<T>, x: T)
    ensures FirstSeen(s + [x]) == if x in FirstSeen(s) then FirstSeen(s) else FirstSeen(s) + [x]
  {
    assert (s + [x])[..|s|] == s;
  }

  lemma {:induction false} FirstSeenHolds<T>(s: seq<T>, x: T)
    ensures x in FirstSeen(s) <==> x in s
  {
    if s != [] {
      var n := |s| - 1;
      FirstSeenHolds(s[..n], x);
      FirstSeenHolds(s[..n], s[n]);
      assert s == s[..n] + [s[n]];
    }
  }

  lemma {:induction false} FirstSeenIsDistinct<T>(s: seq<T>)
    ensures forall i, j | 0 <= i < j < |FirstSeen(s)| :: FirstSeen(s)[i] != FirstSeen(s)[j]
  {
    if s != [] {
      FirstSeenIsDistinct(s[..|s| - 1]);
    }
  }

  function IndexOf<T(==)>(s: seq<T>, x: T): (at: nat)
    requires x in s
    ensures at < |s| && s[at] == x && x !in s[..at]
  {
    if s[0] == x then 0 else
      var at := IndexOf(s[1..], x);
      assert s[..at + 1] == [s[0]] + s[1..][..at];
      at + 1
  }

  lemma {:induction false} IndexOfIs<T>(s: seq<T>, x: T, at: nat)
    requires at < |s| && s[at] == x && x !in s[..at]
    ensures x in s && IndexOf(s, x) == at
  {
    if at > 0 {
      assert s[0] == s[..at][0];
      forall i | 0 <= i < at - 1 ensures s[1..][i] != x {
        assert s[..at][i + 1] == s[1..][i];
      }
      IndexOfIs(s[1..], x, at - 1);
    }
  }

  lemma IndexOfPrefix<T>(s: seq<T>, n: nat, x: T)
    requires n <= |s| && x in s[..n]
    ensures x in s && IndexOf(s, x) == IndexOf(s[..n], x) < n
  {
    var p := IndexOf(s[..n], x);
    assert s[..p] == s[..n][..p];
    IndexOfIs(s, x, p);
  }

  // The order is that of the first occurrences.
  lemma {:induction false} FirstSeenKeepsOrder<T>(s: seq<T>, i: nat, j: nat)
    requires i < j < |FirstSeen(s)|
    ensures FirstSeen(s)[i] in s && FirstSeen(s)[j] in s
    ensures IndexOf(s, FirstSeen(s)[i]) < IndexOf(s, FirstSeen(s)[j])
  {
    var n := |s| - 1;
    var before, r := FirstSeen(s[..n]), FirstSeen(s);
    FirstSeenHolds(s, r[i]);
    FirstSeenHolds(s, r[j]);
    FirstSeenHolds(s[..n], r[i]);
    FirstSeenHolds(s[..n], r[j]);
    IndexOfPrefix(s, n, r[i]);
    if j < |before| {
      FirstSeenKeepsOrder(s[..n], i, j);
      IndexOfPrefix(s, n, r[j]);
    } else {
      IndexOfIs(s, r[j], n);
    }
  }

  // Distinct elements are all kept.
  lemma {:induction false} FirstSeenOfDistinct<T>(s: seq<T>)
    requires forall i, j | 0 <= i < j < |s| :: s[i] != s[j]
    ensures FirstSeen(s) == s
  {
    if s != [] {
      FirstSeenOfDistinct(s[..|s| - 1]);
    }
  }

  // Dropping repeats before mapping changes nothing that dropping them afterwards would keep.
  lemma {:induction false} FirstSeenBeforeMap<A, B>(f: A -> B, s: seq<A>)
    ensures FirstSeen(Map(f, FirstSeen(s))) == FirstSeen(Map(f, s))
  {
    if s != [] {
      var n := |s| - 1;
      var before, x := s[..n], s[n];
      FirstSeenBeforeMap(f, before);
      assert s == before + [x];
      FirstSeenNext(before, x);
      assert Map(f, s) == Map(f, before) + [f(x)];
      FirstSeenNext(Map(f, before), f(x));
      if x in FirstSeen(before) {
        FirstSeenHolds(before, x);
        assert Map(f, before)[IndexOf(before, x)] == f(x);
        FirstSeenHolds(Map(f, before), f(x));
      } else {
        assert Map(f, FirstSeen(s)) == Map(f, FirstSeen(before)) + [f(x)];
        FirstSeenNext(Map(f, FirstSeen(before)), f(x));
      }
    }
  }

  // A map that tells the elements apart commutes with dropping repeats.
  lemma {:induction false} FirstSeenOfInjective<A, B>(f: A -> B, s: seq<A>)
    requires forall x, y | x in s && y in s && f(x) == f(y) :: x == y
    ensures FirstSeen(Map(f, s)) == Map(f, FirstSeen(s))
  {
    if s != [] {
      var n := |s| - 1;
      var before, x := s[..n], s[n];
      FirstSeenOfInjective(f, before);
      InjectiveHolds(f, before, x, s);
      FirstSeenHolds(before, x);
      FirstSeenHolds(Map(f, before), f(x));
      assert Map(f, s)[..n] == Map(f, before);
      if x !in before {
        assert Map(f, FirstSeen(before) + [x]) == Map(f, FirstSeen(before)) + [f(x)];
      }
    }
  }

  lemma InjectiveHolds<A, B>(f: A -> B, before: seq<A>, x: A, s: seq<A>)
    requires (forall y | y in before :: y in s) && x in s
    requires forall y, z | y in s && z in s && f(y) == f(z) :: y == z
    ensures f(x) in Map(f, before) <==> x in before
  {
    var mapped := Map(f, before);
    if f(x) in mapped {
      var i :| 0 <= i < |before| && mapped[i] == f(x);
      assert before[i] in before && f(before[i]) == f(x);
    }
    if x in before {
      var i :| 0 <= i < |before| && before[i] == x;
      assert mapped[i] == f(x);
    }
  }
}
