/** Least-recently-used replacement against any other replacement policy with as many lines: at most `k` times
    its misses, by a potential argument. */
module Competitive {
  import opened Utilities
  import opened Recency

  /** The misses of least-recently-used replacement with `k` lines, from empty. */
  function LruMisses(trace: seq<nat>, k: nat): nat {
    if trace == [] then 0
    else
      var n := |trace| - 1;
      LruMisses(trace[..n], k) + Bit(trace[n] !in Take(Mru(trace[..n]), k))
  }

  /** A replacement policy with at most `k` lines: what it holds before each access and at the end.  After an access
      it holds the block accessed and brings in no other; it may drop any blocks at any access. */
  ghost predicate IsPolicy(trace: seq<nat>, held: seq<set<nat>>, k: nat) {
    && |held| == |trace| + 1
    && held[0] == {}
    && (forall i :: 0 <= i < |held| ==> |held[i]| <= k)
    && (forall i :: 0 <= i < |trace| ==> Replaces(held[i], trace[i], held[i + 1]))
  }

  predicate Replaces(s: set<nat>, t: nat, s': set<nat>) {
    t in s' && s' <= s + {t}
  }

  /** A lazy policy: a hit changes nothing, and a miss drops at most one block. */
  ghost predicate IsLazy(trace: seq<nat>, held: seq<set<nat>>, k: nat) {
    && |held| == |trace| + 1
    && held[0] == {}
    && (forall i :: 0 <= i < |held| ==> |held[i]| <= k)
    && (forall i :: 0 <= i < |trace| ==> LazyStep(held[i], trace[i], held[i + 1]))
  }

  ghost predicate LazyStep(s: set<nat>, t: nat, s': set<nat>) {
    if t in s then s' == s
    else s' == s + {t} || exists q :: q in s && s' == s - {q} + {t}
  }

  function PolicyMisses(trace: seq<nat>, held: seq<set<nat>>): nat
    requires |held| == |trace| + 1
  {
    if trace == [] then 0
    else
      var n := |trace| - 1;
      PolicyMisses(trace[..n], held[..n + 1]) + Bit(trace[n] !in held[n])
  }

  /** The potential: blocks held by LRU only, weighted by recency, the most recent one with `w`. */
  function Weight(l: seq<nat>, s: set<nat>, w: nat): nat
    requires |l| <= w
  {
    if l == [] then 0 else (if l[0] in s then 0 else w) + Weight(l[1..], s, w - 1)
  }

  lemma {:induction false} WeightOfConcat(l: seq<nat>, r: seq<nat>, s: set<nat>, w: nat)
    requires |l| + |r| <= w
    ensures Weight(l + r, s, w) == Weight(l, s, w) + Weight(r, s, w - |l|)
  {
    if l == [] {
      assert l + r == r;
    } else {
      WeightOfConcat(l[1..], r, s, w - 1);
      assert (l + r)[1..] == l[1..] + r;
    }
  }

  /** Ageing: with every weight one lower, the potential falls by one for each block of LRU only. */
  lemma {:induction false} WeightAges(l: seq<nat>, s: set<nat>, w: nat)
    requires |l| < w
    ensures Weight(l, s, w - 1) <= Weight(l, s, w)
    ensures (exists x :: x in l && x !in s) ==> Weight(l, s, w - 1) < Weight(l, s, w)
  {
    if l != [] {
      WeightAges(l[1..], s, w - 1);
      if x :| x in l && x !in s && l[0] in s {
        assert x in l[1..];
      }
    }
  }

  /** Replacing one block of the other policy raises the potential by at most `w`. */
  lemma {:induction false} WeightOfReplacement(l: seq<nat>, s: set<nat>, s': set<nat>, q: nat, w: nat)
    requires |l| <= w && Distinct(l) && s - {q} <= s'
    ensures Weight(l, s', w) <= Weight(l, s, w) + (if q in l && q !in s' then w else 0)
  {
    if l != [] {
      WeightOfReplacement(l[1..], s, s', q, w - 1);
      if l[0] == q { assert q !in l[1..]; }
    }
  }

  /** A hit moves `t` to the front: the blocks before it age. */
  lemma {:induction false} WeightOfMove(a: seq<nat>, t: nat, b: seq<nat>, s: set<nat>, k: nat)
    requires |a| + 1 + |b| <= k && t in s
    ensures Weight([t] + (a + b), s, k) <= Weight(a + ([t] + b), s, k)
  {
    assert ([t] + (a + b))[1..] == a + b;
    assert ([t] + b)[1..] == b;
    WeightOfConcat(a, [t] + b, s, k);
    WeightOfConcat(a, b, s, k - 1);
    WeightAges(a, s, k);
  }

  /** A miss puts `t` in front of what is kept. */
  lemma {:induction false} WeightOfInsertion(l: seq<nat>, t: nat, s: set<nat>, k: nat)
    requires k > 0 && |l| <= k && t in s
    ensures var l' := [t] + l[..Min(k - 1, |l|)];
            && Weight(l', s, k) <= Weight(l, s, k)
            && ((exists x :: x in l && x !in s) ==> Weight(l', s, k) < Weight(l, s, k))
  {
    var a := l[..Min(k - 1, |l|)];
    assert ([t] + a)[1..] == a;
    if |l| < k {
      assert a == l;
      WeightAges(l, s, k);
    } else {
      LastHasNoWeight(l, s, k);
    }
  }

  /** Touching a block that the other policy holds does not raise the potential. */
  lemma {:induction false} WeightOfTouch(l: seq<nat>, t: nat, s: set<nat>, k: nat)
    requires k > 0 && |l| <= k && t in s
    ensures var l' := Take(Touch(l, t), k);
            && |l'| <= k
            && Weight(l', s, k) <= Weight(l, s, k)
            && (t !in l && (exists x :: x in l && x !in s) ==> Weight(l', s, k) < Weight(l, s, k))
  {
    hide Weight, Position;
    var l' := Take(Touch(l, t), k);
    var p := Position(l, t);
    if p < |l| {
      var a, b := l[..p], l[p + 1..];
      assert l == a + ([t] + b);
      assert l' == [t] + (a + b);
      WeightOfMove(a, t, b, s, k);
    } else {
      assert l' == [t] + l[..Min(k - 1, |l|)];
      WeightOfInsertion(l, t, s, k);
    }
  }

  /** In a full list the oldest block has weight one, so ageing and dropping it come to the same. */
  lemma {:induction false} LastHasNoWeight(l: seq<nat>, s: set<nat>, k: nat)
    requires k > 0 && |l| == k
    ensures Weight(l[..k - 1], s, k - 1) <= Weight(l, s, k)
    ensures (exists x :: x in l && x !in s) ==> Weight(l[..k - 1], s, k - 1) < Weight(l, s, k)
  {
    var a := l[..k - 1];
    assert l == a + [l[k - 1]];
    WeightOfConcat(a, [l[k - 1]], s, k);
    WeightAges(a, s, k);
    if x :| x in l && x !in s {
      if l[k - 1] in s { assert x in a; }
    }
  }

  lemma {:induction false} SmallerSet(l: seq<nat>, s: set<nat>, t: nat)
    requires Distinct(l) && |s| <= |l| && t in s && t !in l
    ensures exists x :: x in l && x !in s
  {
    DistinctCount(l);
    assert |Elements(l) + {t}| == |l| + 1;
    if forall x :: x in l ==> x in s {
      SubsetCount(Elements(l) + {t}, s);
    }
  }

  lemma {:induction false} SubsetCount(s: set<nat>, u: set<nat>)
    requires s <= u
    ensures |s| <= |u|
  {
    assert u == s + (u - s);
  }

  lemma {:induction false} TakeKeepsDistinct(l: seq<nat>, k: nat)
    requires Distinct(l)
    ensures Distinct(Take(l, k))
  {
  }

  /** One access: LRU's miss is paid for by the potential or by `k` times the other policy's miss. */
  lemma {:induction false} AccessIsPaidFor(l: seq<nat>, t: nat, s: set<nat>, s': set<nat>, k: nat)
    requires k > 0 && |l| <= k && Distinct(l) && |s| <= k && LazyStep(s, t, s')
    requires t in s && t !in l ==> |l| == k
    ensures var l' := Take(Touch(l, t), k);
            && |l'| <= k
            && Bit(t !in l) + Weight(l', s', k) <= Weight(l, s, k) + k * Bit(t !in s)
  {
    hide Weight, Touch, Distinct;
    WeightOfTouch(l, t, s', k);
    if t in s {
      if t !in l { SmallerSet(l, s, t); }
    } else if s' == s + {t} {
      WeightOfReplacement(l, s, s', t, k);
    } else {
      var q :| q in s && s' == s - {q} + {t};
      WeightOfReplacement(l, s, s', q, k);
    }
  }

  lemma {:induction false} PolicyPrefix(trace: seq<nat>, held: seq<set<nat>>, k: nat)
    requires IsLazy(trace, held, k) && trace != []
    ensures var n := |trace| - 1;
            && IsLazy(trace[..n], held[..n + 1], k) && LazyStep(held[n], trace[n], held[n + 1])
            && |held[n]| <= k && held[..n + 1][n] == held[n]
  {
    hide LazyStep;
    var n := |trace| - 1;
    forall i | 0 <= i < n
      ensures LazyStep(held[..n + 1][i], trace[..n][i], held[..n + 1][i + 1])
    {
      assert LazyStep(held[i], trace[i], held[i + 1]);
    }
  }

  /** The potential bound along a whole trace. */
  lemma {:induction false} MissesWithPotential(trace: seq<nat>, held: seq<set<nat>>, k: nat)
    requires k > 0 && IsLazy(trace, held, k)
    ensures held[|trace|] <= Elements(trace)
    ensures |Take(Mru(trace), k)| <= k
    ensures LruMisses(trace, k) + Weight(Take(Mru(trace), k), held[|trace|], k) <= k * PolicyMisses(trace, held)
  {
    hide Weight, Touch, Distinct, LazyStep, IsLazy, Position, Elements, Bit;
    StartsEmpty(trace, held, k);
    if trace == [] {
      assert Weight([], held[0], k) == 0 by { EmptyWeight(held[0], k); }
    } else {
      var n := |trace| - 1;
      var before := trace[..n];
      PolicyPrefix(trace, held, k);
      MissesWithPotential(before, held[..n + 1], k);
      OneMoreAccess(before, trace[n], held[n], held[n + 1], k);
      assert before + [trace[n]] == trace;
      Distribute(k, PolicyMisses(before, held[..n + 1]), Bit(trace[n] !in held[n]));
    }
  }

  lemma {:induction false} StartsEmpty(trace: seq<nat>, held: seq<set<nat>>, k: nat)
    requires IsLazy(trace, held, k)
    ensures |held| == |trace| + 1 && held[0] == {}
  {
  }

  lemma {:induction false} EmptyWeight(s: set<nat>, w: nat)
    ensures Weight([], s, w) == 0
  {
  }

  lemma {:induction false} OneMoreAccess(before: seq<nat>, t: nat, s: set<nat>, s': set<nat>, k: nat)
    requires k > 0 && LazyStep(s, t, s') && |s| <= k && s <= Elements(before)
    ensures var l, l' := Take(Mru(before), k), Take(Mru(before + [t]), k);
            && s' <= Elements(before + [t]) && |l| <= k && |l'| <= k
            && Bit(t !in l) + Weight(l', s', k) <= Weight(l, s, k) + k * Bit(t !in s)
  {
    hide Weight, Touch, Distinct, Position;
    var l := Take(Mru(before), k);
    assert (before + [t])[..|before|] == before;
    MruHoldsTrace(before);
    TakeKeepsDistinct(Mru(before), k);
    TakeOfTouch(Mru(before), t, k);
    if t in s && t !in l { FullIfForgotten(before, t, k); }
    AccessIsPaidFor(l, t, s, s', k);
  }

  lemma {:induction false} FullIfForgotten(trace: seq<nat>, t: nat, k: nat)
    requires t in trace && t !in Take(Mru(trace), k)
    ensures |Take(Mru(trace), k)| == k
  {
    MruHoldsTrace(trace);
    assert |Mru(trace)| < k ==> Take(Mru(trace), k) == Mru(trace);
  }

  // ---- other policies ----------------------------------------------------------------------------------------

  /** One access of a lazy policy that holds at least what the other one holds. */
  lemma {:induction false} LazyAccess(s: set<nat>, s': set<nat>, lazy: set<nat>, t: nat,
    k: nat) returns (lazy': set<nat>)
    requires Replaces(s, t, s') && s <= lazy && |lazy| <= k && |s'| <= k
    ensures LazyStep(lazy, t, lazy') && s' <= lazy' && |lazy'| <= k
  {
    if t in lazy {
      lazy' := lazy;
    } else if |lazy| < k {
      lazy' := lazy + {t};
    } else {
      if lazy <= s' { SubsetCount(lazy + {t}, s'); }
      var q :| q in lazy && q !in s';
      lazy' := lazy - {q} + {t};
    }
  }

  lemma {:induction false} PolicyBefore(trace: seq<nat>, held: seq<set<nat>>, k: nat)
    requires IsPolicy(trace, held, k) && trace != []
    ensures var n := |trace| - 1;
            && IsPolicy(trace[..n], held[..n + 1], k) && Replaces(held[n], trace[n], held[n + 1])
            && |held[n]| <= k && |held[n + 1]| <= k && held[..n + 1][n] == held[n]
  {
    hide Replaces;
    var n := |trace| - 1;
    forall i | 0 <= i < n
      ensures Replaces(held[..n + 1][i], trace[..n][i], held[..n + 1][i + 1])
    {
      assert Replaces(held[i], trace[i], held[i + 1]);
    }
  }

  lemma {:induction false} LazyExtends(trace: seq<nat>, lazy: seq<set<nat>>, s: set<nat>, k: nat)
    requires trace != [] && IsLazy(trace[..|trace| - 1], lazy, k)
             && LazyStep(lazy[|trace| - 1], trace[|trace| - 1], s) && |s| <= k
    ensures IsLazy(trace, lazy + [s], k) && (lazy + [s])[..|trace|] == lazy
  {
    hide LazyStep;
    var n, l := |trace| - 1, lazy + [s];
    forall i | 0 <= i < |trace|
      ensures LazyStep(l[i], trace[i], l[i + 1])
    {
      if i < n { assert LazyStep(lazy[i], trace[..n][i], lazy[i + 1]); }
    }
  }

  /** Dropping blocks early does not pay: some lazy policy always holds at least as much, and so misses no more. */
  lemma {:induction false} LazyIsNoWorse(trace: seq<nat>, held: seq<set<nat>>, k: nat) returns (lazy: seq<set<nat>>)
    requires IsPolicy(trace, held, k)
    ensures IsLazy(trace, lazy, k) && held[|trace|] <= lazy[|trace|]
    ensures PolicyMisses(trace, lazy) <= PolicyMisses(trace, held)
  {
    hide Replaces, LazyStep;
    if trace == [] {
      lazy := [{}];
    } else {
      var n := |trace| - 1;
      PolicyBefore(trace, held, k);
      var before := LazyIsNoWorse(trace[..n], held[..n + 1], k);
      var next := LazyAccess(held[n], held[n + 1], before[n], trace[n], k);
      LazyExtends(trace, before, next, k);
      lazy := before + [next];
    }
  }

  /** LRU with `k` lines misses at most `k` times as often as any replacement policy with `k` lines. */
  lemma {:induction false} LruIsCompetitive(trace: seq<nat>, held: seq<set<nat>>, k: nat)
    requires k > 0 && IsPolicy(trace, held, k)
    ensures LruMisses(trace, k) <= k * PolicyMisses(trace, held)
  {
    hide IsPolicy, IsLazy, LruMisses, PolicyMisses;
    PolicySize(trace, held, k);
    var lazy := LazyIsNoWorse(trace, held, k);
    StartsEmpty(trace, lazy, k);
    MissesWithPotential(trace, lazy, k);
    Monotone(k, PolicyMisses(trace, lazy), PolicyMisses(trace, held));
  }

  lemma {:induction false} Monotone(k: nat, x: nat, y: nat)
    requires x <= y
    ensures k * x <= k * y
  {
  }

  lemma {:induction false} PolicySize(trace: seq<nat>, held: seq<set<nat>>, k: nat)
    requires IsPolicy(trace, held, k)
    ensures |held| == |trace| + 1
  {
    hide Replaces;
  }
}
