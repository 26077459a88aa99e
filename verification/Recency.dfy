/** Recency lists: the pure view of least-recently-used replacement in one cache set. */
module Recency {
  function Min(a: nat, b: nat): nat { if a < b then a else b }

  function Take<T>(l: seq<T>, k: nat): seq<T> { l[..Min(k, |l|)] }

  ghost predicate Distinct<T>(l: seq<T>) {
    forall i, j :: 0 <= i < j < |l| ==> l[i] != l[j]
  }

  /** The first position of `t` in `l`, or `|l|`. */
  function Position(l: seq<nat>, t: nat): (p: nat)
    ensures p <= |l|
    ensures p < |l| ==> l[p] == t
    ensures forall i :: 0 <= i < p ==> l[i] != t
    ensures p < |l| <==> t in l
  {
    if l == [] || l[0] == t then 0 else 1 + Position(l[1..], t)
  }

  function Without(l: seq<nat>, t: nat): seq<nat> {
    var p := Position(l, t);
    if p < |l| then l[..p] + l[p + 1..] else l
  }

  /** `t` becomes the most recently used one. */
  function Touch(l: seq<nat>, t: nat): seq<nat> { [t] + Without(l, t) }

  /** The distinct blocks of a trace, most recently used first. */
  function Mru(trace: seq<nat>): seq<nat> {
    if trace == [] then [] else Touch(Mru(trace[..|trace| - 1]), trace[|trace| - 1])
  }

  lemma PositionIs(l: seq<nat>, t: nat, p: nat)
    requires p < |l| && l[p] == t && Distinct(l)
    ensures Position(l, t) == p
  {
  }

  lemma TouchKeepsDistinct(l: seq<nat>, t: nat)
    requires Distinct(l)
    ensures Distinct(Touch(l, t))
    ensures forall x :: x in Touch(l, t) <==> x == t || x in l
  {
    var p, w := Position(l, t), Without(l, t);
    forall x
      ensures x in w <==> x in l && x != t
    {
      if p < |l| {
        assert l == l[..p] + [t] + l[p + 1..];
        if x in l && x != t { assert x in l[..p] || x in l[p + 1..]; }
      }
    }
  }

  lemma {:induction false} MruHoldsTrace(trace: seq<nat>)
    ensures Distinct(Mru(trace))
    ensures forall x :: x in Mru(trace) <==> x in trace
  {
    hide Touch, Without, Position;
    if trace != [] {
      var n := |trace| - 1;
      MruHoldsTrace(trace[..n]);
      TouchKeepsDistinct(Mru(trace[..n]), trace[n]);
      assert trace == trace[..n] + [trace[n]];
    }
  }

  lemma PositionInPrefix(l: seq<nat>, t: nat, k: nat)
    requires k <= |l|
    ensures Position(l[..k], t) == Min(Position(l, t), k)
  {
    hide Position;
    var p, q := Position(l, t), Position(l[..k], t);
    if q < k { assert l[q] == t; }
    if p < k { assert l[..k][p] == t; }
  }

  lemma WithoutAt(l: seq<nat>, t: nat)
    ensures var p, w := Position(l, t), Without(l, t);
            && |w| == (if p < |l| then |l| - 1 else |l|)
            && (forall i :: 0 <= i < |w| ==> w[i] == l[if i < p then i else i + 1])
  {
    hide Position;
  }

  lemma TakeOfWithout(l: seq<nat>, t: nat, k: nat)
    ensures Take(Without(l, t), k) == Take(Without(l[..Min(k + 1, |l|)], t), k)
  {
    hide Position, Without;
    var n := Min(k + 1, |l|);
    PositionInPrefix(l, t, n);
    WithoutAt(l, t);
    WithoutAt(l[..n], t);
  }

  lemma TakeOfCons(t: nat, w: seq<nat>, k: nat)
    ensures Take([t] + w, k + 1) == [t] + Take(w, k)
  {
  }

  /** A bounded list that forgets beyond `k` agrees with the first `k` of the unbounded list. */
  lemma TakeOfTouch(l: seq<nat>, t: nat, k: nat)
    requires k > 0
    ensures Take(Touch(l, t), k) == Take(Touch(Take(l, k), t), k)
  {
    hide Without;
    TakeOfWithout(l, t, k - 1);
    TakeOfCons(t, Without(l, t), k - 1);
    TakeOfCons(t, Without(Take(l, k), t), k - 1);
  }

  // ---- stack distance ----------------------------------------------------------------------------------------

  /** The distinct blocks accessed after the last access to `t`. */
  function Since(trace: seq<nat>, t: nat): set<nat> {
    if trace == [] then {}
    else
      var n := |trace| - 1;
      if trace[n] == t then {} else Since(trace[..n], t) + {trace[n]}
  }

  function Elements(l: seq<nat>): set<nat> { set x | x in l }

  lemma {:induction false} DistinctCount(l: seq<nat>)
    requires Distinct(l)
    ensures |Elements(l)| == |l|
  {
    if l != [] {
      var n := |l| - 1;
      DistinctCount(l[..n]);
      assert l == l[..n] + [l[n]];
      assert Elements(l) == Elements(l[..n]) + {l[n]};
    }
  }

  lemma {:induction false} BeforeInMru(trace: seq<nat>, t: nat)
    requires t in trace
    ensures Elements(Mru(trace)[..Position(Mru(trace), t)]) == Since(trace, t)
  {
    var n := |trace| - 1;
    var l := Mru(trace[..n]);
    assert trace == trace[..n] + [trace[n]];
    if trace[n] != t {
      BeforeInMru(trace[..n], t);
      MruHoldsTrace(trace[..n]);
      MruHoldsTrace(trace);
      PrefixAfterTouch(l, trace[n], t);
    }
  }

  lemma PrefixAfterTouch(l: seq<nat>, x: nat, t: nat)
    requires Distinct(l) && t in l && x != t
    ensures t in Touch(l, x)
    ensures Elements(Touch(l, x)[..Position(Touch(l, x), t)]) == Elements(l[..Position(l, t)]) + {x}
  {
    hide Elements, Touch;
    TouchKeepsDistinct(l, x);
    var p, q := Position(l, t), Position(l, x);
    var m := Touch(l, x);
    if q < p {
      TouchedEarlier(l, x, p, q);
      PositionIs(m, t, p);
      ElementsOfMove(l[..q], x, l[q + 1..p]);
    } else {
      TouchedLater(l, x, p);
      PositionIs(m, t, p + 1);
      ElementsOfCons(x, l[..p]);
    }
  }

  lemma TouchedEarlier(l: seq<nat>, x: nat, p: nat, q: nat)
    requires q < p < |l| && Position(l, x) == q
    ensures var m := Touch(l, x);
            p < |m| && m[p] == l[p] && l[..p] == l[..q] + [x] + l[q + 1..p] && m[..p] == [x] + l[..q] + l[q + 1..p]
  {
    hide Position;
    assert Touch(l, x) == [x] + (l[..q] + l[q + 1..]);
    assert l[q] == x;
  }

  lemma TouchedLater(l: seq<nat>, x: nat, p: nat)
    requires p < |l| && p < Position(l, x)
    ensures var m := Touch(l, x);
            p + 1 < |m| && m[p + 1] == l[p] && m[..p + 1] == [x] + l[..p]
  {
    hide Position;
  }

  lemma ElementsOfMove(l: seq<nat>, x: nat, r: seq<nat>)
    ensures Elements([x] + l + r) == Elements(l + [x] + r) + {x}
  {
  }

  lemma ElementsOfCons(x: nat, l: seq<nat>)
    ensures Elements([x] + l) == Elements(l) + {x}
  {
  }

  /** The place of a block in the recency list is its stack distance: the number of distinct other blocks
      accessed since its last access. */
  lemma StackDistance(trace: seq<nat>, t: nat)
    requires t in trace
    ensures Position(Mru(trace), t) == |Since(trace, t)|
  {
    var p := Position(Mru(trace), t);
    MruHoldsTrace(trace);
    BeforeInMru(trace, t);
    DistinctCount(Mru(trace)[..p]);
  }

  /** A block is among the `k` most recent ones iff it was accessed and fewer than `k` others were since. */
  lemma AmongMostRecent(trace: seq<nat>, t: nat, k: nat)
    ensures t in Take(Mru(trace), k) <==> t in trace && |Since(trace, t)| < k
  {
    MruHoldsTrace(trace);
    if t in trace {
      StackDistance(trace, t);
      var l := Mru(trace);
      assert Position(l, t) < k ==> Take(l, k)[Position(l, t)] == t;
      if t in Take(l, k) {
        var i :| 0 <= i < |Take(l, k)| && Take(l, k)[i] == t;
        PositionIs(l, t, i);
      }
    }
  }
}
