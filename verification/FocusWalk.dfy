// `partsWalked` (e2e/panel/shell.e2e.ts): key presses walk a ring of stops, and the names of their parts are listed without
// equal neighbours.
module FocusWalk {
  import opened Options

  // A focused element: its identity, and the part of the shell that holds it, if any.
  datatype Stop = Stop(id: string, part: Option<string>)

  const PRESSES: nat := 400

  // What the k-th press focuses; None while the document itself holds the focus.
  type Focus = nat -> Option<Stop>

  // Whether the walk ends at the k-th press: the focus is back at the document or at the first stop.
  predicate Ends(focus: Focus, k: nat) {
    focus(k).None? || (k > 0 && focus(0).Some? && focus(k).value.id == focus(0).value.id)
  }

  // The press the walk ends at, the cap at the latest.
  function End(focus: Focus, k: nat): (end: nat)
    requires k <= PRESSES
    ensures k <= end <= PRESSES
    ensures forall i | k <= i < end :: !Ends(focus, i)
    ensures forall i | k <= i < end :: focus(i).Some?
    ensures end < PRESSES ==> Ends(focus, end)
    decreases PRESSES - k
  {
    if k == PRESSES || Ends(focus, k) then k else End(focus, k + 1)
  }

  function Visited(focus: Focus, n: nat): seq<Stop>
    requires forall i | 0 <= i < n :: focus(i).Some?
  {
    seq(n, i requires 0 <= i < n => focus(i).value)
  }

  // The parts of the stops, runs collapsed, stops in no part passed over.
  function Collapse(stops: seq<Stop>): seq<string> {
    if stops == [] then [] else Add(Collapse(stops[..|stops| - 1]), stops[|stops| - 1].part)
  }

  function Add(parts: seq<string>, part: Option<string>): seq<string> {
    if part.None? || (parts != [] && parts[|parts| - 1] == part.value) then parts else parts + [part.value]
  }

  lemma VisitedOneMore(focus: Focus, n: nat)
    requires forall i | 0 <= i <= n :: focus(i).Some?
    ensures Collapse(Visited(focus, n + 1)) == Add(Collapse(Visited(focus, n)), focus(n).value.part)
  {
    assert Visited(focus, n + 1)[..n] == Visited(focus, n);
  }

  method PartsWalked(focus: Focus) returns (parts: seq<string>)
    ensures parts == Collapse(Visited(focus, End(focus, 0)))
  {
    parts := [];
    var first: Option<string> := None;
    var stop := 0;
    while stop < PRESSES
      invariant 0 <= stop <= PRESSES
      invariant forall i | 0 <= i < stop :: focus(i).Some?
      invariant first == if stop == 0 then None else Some(focus(0).value.id)
      invariant parts == Collapse(Visited(focus, stop))
      invariant End(focus, stop) == End(focus, 0)
    {
      var focused := focus(stop);
      if focused.None? || Some(focused.value.id) == first {
        break;
      }
      if first.None? {
        first := Some(focused.value.id);
      }
      if focused.value.part.Some? && (parts == [] || parts[|parts| - 1] != focused.value.part.value) {
        parts := parts + [focused.value.part.value];
      }
      VisitedOneMore(focus, stop);
      stop := stop + 1;
    }
  }

  // ---- Collapsing ----

  lemma {:induction false} CollapseHolds(stops: seq<Stop>, part: string)
    ensures part in Collapse(stops) <==> exists i | 0 <= i < |stops| :: stops[i].part == Some(part)
  {
    if stops != [] {
      var n := |stops| - 1;
      CollapseHolds(stops[..n], part);
      assert forall i | 0 <= i < n :: stops[..n][i] == stops[i];
    }
  }

  // The part of the n-th stop is reported by the last of the positions `at` that is not behind it.
  ghost predicate Told(part: string, n: nat, parts: seq<string>, at: seq<nat>)
    requires |at| == |parts|
  {
    exists i {:trigger parts[i]} | 0 <= i < |at| :: at[i] <= n && (i == |at| - 1 || n < at[i + 1]) && parts[i] == part
  }

  // The parts reported are those of stops `at`, in order; every other stop in a part is in that of the last stop of `at`
  // before it.
  ghost predicate Reports(stops: seq<Stop>, parts: seq<string>, at: seq<nat>) {
    && |at| == |parts|
    && (forall i, j | 0 <= i < j < |at| :: at[i] < at[j])
    && (forall i | 0 <= i < |at| :: at[i] < |stops| && stops[at[i]].part == Some(parts[i]))
    && (forall n | 0 <= n < |stops| && stops[n].part.Some? :: Told(stops[n].part.value, n, parts, at))
  }

  lemma {:induction false} CollapseReports(stops: seq<Stop>) returns (at: seq<nat>)
    ensures Reports(stops, Collapse(stops), at)
  {
    if stops == [] {
      at := [];
    } else {
      var n := |stops| - 1;
      var before := CollapseReports(stops[..n]);
      at := ReportsOneMore(stops, Collapse(stops[..n]), before);
    }
  }

  lemma ReportsOneMore(stops: seq<Stop>, parts: seq<string>, before: seq<nat>) returns (at: seq<nat>)
    requires stops != [] && Reports(stops[..|stops| - 1], parts, before)
    ensures Reports(stops, Add(parts, stops[|stops| - 1].part), at)
  {
    var n := |stops| - 1;
    assert stops == stops[..n] + [stops[n]];
    if Add(parts, stops[n].part) == parts {
      at := before;
      ReportsSame(stops[..n], stops[n], parts, before);
    } else {
      at := before + [n];
      ReportsNext(stops[..n], stops[n], parts, before);
    }
  }

  lemma ReportsSame(stops: seq<Stop>, stop: Stop, parts: seq<string>, at: seq<nat>)
    requires Reports(stops, parts, at)
    requires stop.part.Some? ==> parts != [] && parts[|parts| - 1] == stop.part.value
    ensures Reports(stops + [stop], parts, at)
  {
    if stop.part.Some? {
      ToldByLast(stop.part.value, |stops|, parts, at);
    }
    var more := stops + [stop];
    forall m | 0 <= m < |more| && more[m].part.Some? ensures Told(more[m].part.value, m, parts, at) {
      if m < |stops| { assert more[m] == stops[m]; }
    }
  }

  lemma ReportsNext(stops: seq<Stop>, stop: Stop, parts: seq<string>, at: seq<nat>)
    requires Reports(stops, parts, at) && stop.part.Some?
    ensures Reports(stops + [stop], parts + [stop.part.value], at + [|stops|])
  {
    var more, next, now := stops + [stop], parts + [stop.part.value], at + [|stops|];
    ToldByLast(stop.part.value, |stops|, next, now);
    forall m | 0 <= m < |more| && more[m].part.Some? ensures Told(more[m].part.value, m, next, now) {
      if m < |stops| {
        assert more[m] == stops[m];
        ToldStill(stops[m].part.value, m, parts, at, stop.part.value, |stops|);
      }
    }
  }

  lemma ToldByLast(part: string, n: nat, parts: seq<string>, at: seq<nat>)
    requires |at| == |parts| && parts != [] && parts[|parts| - 1] == part
    requires at[|at| - 1] <= n
    ensures Told(part, n, parts, at)
  {
    var i := |at| - 1;
    assert at[i] <= n && parts[i] == part;
  }

  lemma ToldStill(part: string, n: nat, parts: seq<string>, at: seq<nat>, next: string, later: nat)
    requires |at| == |parts| && Told(part, n, parts, at) && n < later
    ensures Told(part, n, parts + [next], at + [later])
  {
    var i :| 0 <= i < |at| && at[i] <= n && (i == |at| - 1 || n < at[i + 1]) && parts[i] == part;
    var more := at + [later];
    assert more[i] == at[i] && (parts + [next])[i] == part;
    assert n < more[i + 1];
  }

  lemma {:induction false} CollapseHasNoRuns(stops: seq<Stop>)
    ensures forall i | 0 < i < |Collapse(stops)| :: Collapse(stops)[i - 1] != Collapse(stops)[i]
  {
    if stops != [] {
      CollapseHasNoRuns(stops[..|stops| - 1]);
    }
  }

  // Two walks one after the other: the part that ends one and starts the next counts once.
  function Join(a: seq<string>, b: seq<string>): seq<string> {
    if a != [] && b != [] && a[|a| - 1] == b[0] then a + b[1..] else a + b
  }

  lemma {:induction false} CollapseAppend(a: seq<Stop>, b: seq<Stop>)
    ensures Collapse(a + b) == Join(Collapse(a), Collapse(b))
  {
    if b == [] {
      assert a + b == a;
    } else {
      var n := |b| - 1;
      assert (a + b)[..|a + b| - 1] == a + b[..n];
      CollapseAppend(a, b[..n]);
      JoinOneMore(Collapse(a), Collapse(b[..n]), b[n].part);
    }
  }

  lemma JoinOneMore(a: seq<string>, b: seq<string>, part: Option<string>)
    ensures Add(Join(a, b), part) == Join(a, Add(b, part))
  {
    if part.Some? && b != [] {
      var last := [part.value];
      assert (b + last)[1..] == b[1..] + last;
      assert a + (b + last) == a + b + last;
      assert a + (b[1..] + last) == a + b[1..] + last;
    }
  }

  function Reverse<T>(s: seq<T>): (r: seq<T>)
    ensures |r| == |s|
    ensures forall i | 0 <= i < |s| :: r[i] == s[|s| - 1 - i]
  {
    seq(|s|, i requires 0 <= i < |s| => s[|s| - 1 - i])
  }

  lemma JoinReversed(a: seq<string>, b: seq<string>)
    requires |b| <= 1
    ensures Reverse(Join(a, b)) == Join(Reverse(b), Reverse(a))
  {
    if a != [] && b != [] {
      var x := a[|a| - 1];
      assert Reverse(a)[0] == x;
      assert Reverse(a) == [x] + Reverse(a)[1..];
      assert Reverse(b) == b;
      if x == b[0] {
        assert Join(a, b) == a;
      } else {
        assert Reverse(a + b) == b + Reverse(a);
      }
    } else if b == [] {
      assert Join(a, b) == a && Join(Reverse(b), Reverse(a)) == Reverse(a);
    } else {
      assert Join(a, b) == b && Join(Reverse(b), Reverse(a)) == Reverse(b);
    }
  }

  lemma {:induction false} CollapseReversed(stops: seq<Stop>)
    ensures Collapse(Reverse(stops)) == Reverse(Collapse(stops))
  {
    if stops != [] {
      var n := |stops| - 1;
      var last := [stops[n]];
      CollapseReversed(stops[..n]);
      assert stops == stops[..n] + last;
      assert Reverse(stops) == last + Reverse(stops[..n]);
      CollapseAppend(stops[..n], last);
      CollapseAppend(last, Reverse(stops[..n]));
      assert last[..0] == [];
      assert |Collapse(last)| <= 1;
      assert Reverse(Collapse(last)) == Collapse(last);
      JoinReversed(Collapse(stops[..n]), Collapse(last));
    }
  }

  // ---- Rings ----

  // The presses go round a ring of distinct stops: each stop in order, then the document or the first stop again.
  ghost predicate GoesRound(focus: Focus, ring: seq<Stop>) {
    && (forall i, j | 0 <= i < j < |ring| :: ring[i].id != ring[j].id)
    && (forall i | 0 <= i < |ring| :: focus(i) == Some(ring[i]))
    && (focus(|ring|).None? || (ring != [] && focus(|ring|).value.id == ring[0].id))
  }

  // The walk visits every stop of the ring once, or as many as the cap lets it press for.
  lemma WalkVisitsTheRing(focus: Focus, ring: seq<Stop>)
    requires GoesRound(focus, ring)
    ensures Visited(focus, End(focus, 0)) == if |ring| <= PRESSES then ring else ring[..PRESSES]
  {
    RingEnds(focus, ring);
    var end := End(focus, 0);
    assert end <= |ring|;
    assert end == if |ring| <= PRESSES then |ring| else PRESSES;
  }

  lemma RingEnds(focus: Focus, ring: seq<Stop>)
    requires GoesRound(focus, ring)
    ensures forall i | 0 <= i < |ring| :: !Ends(focus, i)
    ensures Ends(focus, |ring|)
  {
  }

  // Tab reports the whole ring, and Shift+Tab reports it backwards.
  lemma WalkBackReverses(tab: Focus, shiftTab: Focus, ring: seq<Stop>)
    requires |ring| <= PRESSES
    requires GoesRound(tab, ring) && GoesRound(shiftTab, Reverse(ring))
    ensures Collapse(Visited(tab, End(tab, 0))) == Collapse(ring)
    ensures Collapse(Visited(shiftTab, End(shiftTab, 0))) == Reverse(Collapse(ring))
  {
    WalkVisitsTheRing(tab, ring);
    WalkVisitsTheRing(shiftTab, Reverse(ring));
    CollapseReversed(ring);
  }
}
