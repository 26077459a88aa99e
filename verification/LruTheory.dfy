/** The timestamped cache implements least-recently-used replacement: what every access trace leaves in it. */
module LruTheory {
  import opened Utilities
  import opened LruCache
  import opened Recency
  import opened Competitive

  // ---- one set -----------------------------------------------------------------------------------------------

  /** `o` holds each number below its length. */
  ghost predicate Permutation(o: seq<nat>) {
    && (forall j :: 0 <= j < |o| ==> o[j] < |o|)
    && (forall i :: 0 <= i < |o| ==> i in o)
  }

  /** Along `o` the stamps fall, and no tag occurs twice. */
  ghost predicate Ordered(s: seq<Line>, o: seq<nat>) {
    && (forall j :: 0 <= j < |o| ==> o[j] < |s|)
    && (forall i, j :: 0 <= i < j < |o| ==> s[o[j]].stamp < s[o[i]].stamp && s[o[i]].tag != s[o[j]].tag)
  }

  /** `o` lists the valid lines of `s` by descending stamp; they form a prefix of the set, with unique tags and
      with distinct stamps that do not exceed `clock`. */
  ghost predicate Ranked(s: seq<Line>, o: seq<nat>, clock: nat) {
    && |o| <= |s|
    && Permutation(o)
    && (forall i :: 0 <= i < |s| ==> (s[i].valid <==> i < |o|))
    && Ordered(s, o)
    && (forall j :: 0 <= j < |o| ==> s[o[j]].stamp <= clock)
  }

  /** The tags of the lines in `o`. */
  function TagsOf(s: seq<Line>, o: seq<nat>): (l: seq<nat>)
    requires forall j :: 0 <= j < |o| ==> o[j] < |s|
    ensures |l| == |o| && forall j :: 0 <= j < |o| ==> l[j] == s[o[j]].tag
  {
    if o == [] then [] else [s[o[0]].tag] + TagsOf(s, o[1..])
  }

  /** `l` is the content of `s`, most recently used first. */
  ghost predicate Represents(s: seq<Line>, l: seq<nat>, clock: nat) {
    exists o :: Ranked(s, o, clock) && l == TagsOf(s, o)
  }

  /** Every valid line has a place in the ranking, and only one place has its tag. */
  lemma {:induction false} PlaceOf(s: seq<Line>, o: seq<nat>, clock: nat, i: nat) returns (j: nat)
    requires Ranked(s, o, clock) && i < |s| && s[i].valid
    ensures j < |o| && o[j] == i
    ensures forall k :: 0 <= k < |o| && s[o[k]].tag == s[i].tag ==> k == j
  {
    assert i in o;
    j :| 0 <= j < |o| && o[j] == i;
    forall k | 0 <= k < |o| && s[o[k]].tag == s[i].tag
      ensures k == j
    {
    }
  }

  /** The place of the hit line in the ranking, or none. */
  lemma {:induction false} HitIsListed(s: seq<Line>, o: seq<nat>, clock: nat, tag: nat)
    requires Ranked(s, o, clock)
    ensures HitIn(s, tag) <==> tag in TagsOf(s, o)
    ensures HitIn(s, tag) ==>
              var p := Position(TagsOf(s, o), tag); p < |o| && o[p] == FirstHit(s, tag, 0)
  {
    hide TagsOf, Position, FirstHit;
    var l, i := TagsOf(s, o), FirstHit(s, tag, 0);
    var p := Position(l, tag);
    assert p < |l| ==> s[o[p]].valid && s[o[p]].tag == tag;
    hide Ordered;
    if i < |s| {
      var j := PlaceOf(s, o, clock, i);
      assert l[j] == tag;
    }
  }

  /** `o` without its element `p`. */
  function Cut<T>(o: seq<T>, p: nat): (r: seq<T>)
    requires p < |o|
    ensures |r| == |o| - 1
    ensures forall j :: 0 <= j < |r| ==> r[j] == o[if j < p then j else j + 1]
  {
    o[..p] + o[p + 1..]
  }

  /** `o` with its element `p` moved to the front. */
  function Promoted(o: seq<nat>, p: nat): (o': seq<nat>)
    requires p < |o|
    ensures |o'| == |o|
  {
    [o[p]] + Cut(o, p)
  }

  lemma {:induction false} PromotedHolds(o: seq<nat>, p: nat, i: nat)
    requires p < |o| && i in o
    ensures i in Promoted(o, p)
  {
    var j :| 0 <= j < |o| && o[j] == i;
    assert Promoted(o, p)[if j == p then 0 else if j < p then j + 1 else j] == i;
  }

  lemma {:induction false} PromotedPermutes(o: seq<nat>, p: nat)
    requires Permutation(o) && p < |o|
    ensures Permutation(Promoted(o, p))
  {
    forall i: nat | i < |o|
      ensures i in Promoted(o, p)
    {
      PromotedHolds(o, p, i);
    }
  }

  lemma {:induction false} CutOrdered(s: seq<Line>, o: seq<nat>, p: nat)
    requires Ordered(s, o) && p < |o|
    ensures Ordered(s, Cut(o, p))
    ensures forall j :: 0 <= j < |o| - 1 ==> Cut(o, p)[j] != o[p]
    ensures TagsOf(s, Cut(o, p)) == Cut(TagsOf(s, o), p)
  {
    hide TagsOf;
    var r := Cut(o, p);
    forall i, j | 0 <= i < j < |r|
      ensures s[r[j]].stamp < s[r[i]].stamp && s[r[i]].tag != s[r[j]].tag
    {
      assert r[i] == o[if i < p then i else i + 1] && r[j] == o[if j < p then j else j + 1];
    }
    forall j | 0 <= j < |r|
      ensures r[j] != o[p]
    {
      assert r[j] == o[if j < p then j else j + 1];
    }
  }

  /** A line stamped last ranks above lines with smaller stamps and other tags. */
  lemma {:induction false} OnTop(s: seq<Line>, r: seq<nat>, v: nat, tag: nat, clock: nat, now: nat)
    requires Ordered(s, r) && v < |s| && clock < now
    requires forall j :: 0 <= j < |r| ==> r[j] != v && s[r[j]].tag != tag && s[r[j]].stamp <= clock
    ensures var s', o' := s[v := Line(true, tag, now)], [v] + r;
            && Ordered(s', o')
            && (forall j :: 0 <= j < |o'| ==> s'[o'[j]].stamp <= now)
            && TagsOf(s', o') == [tag] + TagsOf(s, r)
  {
    hide TagsOf;
    var s', o' := s[v := Line(true, tag, now)], [v] + r;
    assert forall j :: 0 <= j < |o'| ==> s'[o'[j]] == if j == 0 then Line(true, tag, now) else s[r[j - 1]];
    assert forall j :: 0 < j < |o'| ==> o'[j] == r[j - 1];
  }

  /** A hit, or a miss in a full set, moves line `o[p]` to the top of the ranking with `tag` in it. */
  lemma {:induction false} RefreshReranks(s: seq<Line>, o: seq<nat>, clock: nat, now: nat, p: nat, tag: nat)
    requires Ranked(s, o, clock) && clock < now && p < |o|
    requires forall j :: 0 <= j < |o| && j != p ==> s[o[j]].tag != tag
    ensures var s' := s[o[p] := Line(true, tag, now)];
            Ranked(s', Promoted(o, p), now) && TagsOf(s', Promoted(o, p)) == [tag] + Cut(TagsOf(s, o), p)
  {
    hide TagsOf, Ordered, Permutation;
    RankedIndices(s, o, clock);
    PromotedPermutes(o, p);
    CutOrdered(s, o, p);
    forall j | 0 <= j < |o| - 1
      ensures var k := Cut(o, p)[j]; k < |s| && s[k].tag != tag && s[k].stamp <= clock
    {
      assert Cut(o, p)[j] == o[if j < p then j else j + 1];
    }
    OnTop(s, Cut(o, p), o[p], tag, clock, now);
  }

  lemma {:induction false} RankedIndices(s: seq<Line>, o: seq<nat>, clock: nat)
    requires Ranked(s, o, clock)
    ensures forall j :: 0 <= j < |o| ==> o[j] < |o| <= |s|
  {
  }

  lemma {:induction false} ExtendedPermutes(o: seq<nat>)
    requires Permutation(o)
    ensures Permutation([|o|] + o)
  {
    var o' := [|o|] + o;
    forall i: nat | i < |o'|
      ensures i in o'
    {
      if i < |o| {
        assert i in o;
        var j :| 0 <= j < |o| && o[j] == i;
        assert o'[j + 1] == i;
      } else {
        assert o'[0] == i;
      }
    }
  }

  /** A miss in a set with a free line fills the first free one. */
  lemma {:induction false} FillReranks(s: seq<Line>, o: seq<nat>, clock: nat, now: nat, tag: nat)
    requires Ranked(s, o, clock) && clock < now && |o| < |s|
    requires forall j :: 0 <= j < |o| ==> o[j] < |s| && s[o[j]].tag != tag
    ensures Victim(s) == |o|
    ensures var s' := s[|o| := Line(true, tag, now)];
            var o' := [|o|] + o;
            Ranked(s', o', now) && TagsOf(s', o') == [tag] + TagsOf(s, o)
  {
    hide TagsOf, Ordered, Permutation;
    assert !s[|o|].valid && forall i :: 0 <= i < |o| ==> s[i].valid;
    RankedIndices(s, o, clock);
    ExtendedPermutes(o);
    OnTop(s, o, |o|, tag, clock, now);
  }

  lemma {:induction false} LowestIsVictim(s: seq<Line>, o: seq<nat>, clock: nat)
    requires Ranked(s, o, clock) && |o| == |s| > 0
    ensures Victim(s) == o[|o| - 1]
  {
    var r := Oldest(s, 0, 1);
    assert r in o;
    var j :| 0 <= j < |o| && o[j] == r;
    assert s[r].stamp <= s[o[|o| - 1]].stamp;
  }

  /** One access to a set is one step of bounded recency. */
  lemma {:induction false} AccessTouches(s: seq<Line>, l: seq<nat>, clock: nat, tag: nat, now: nat)
    requires Represents(s, l, clock) && clock < now && |s| > 0
    ensures Represents(AccessSet(s, tag, now), Take(Touch(l, tag), |s|), now)
    ensures HitIn(s, tag) <==> tag in l
  {
    hide Ranked, Represents, TagsOf, HitIn, Victim;
    var o := RankingOf(s, l, clock);
    HitIsListed(s, o, clock, tag);
    var s' := AccessSet(s, tag, now);
    RankedSize(s, o, clock);
    var p := Position(l, tag);
    if HitIn(s, tag) {
      OthersDiffer(s, o, clock, p);
      RefreshReranks(s, o, clock, now, p, tag);
      Witnessed(s', Promoted(o, p), now);
      assert Touch(l, tag) == [tag] + Cut(l, p);
      assert Take(Touch(l, tag), |s|) == Touch(l, tag);
    } else if |o| < |s| {
      NoneListed(s, o, tag);
      FillReranks(s, o, clock, now, tag);
      Witnessed(s', [|o|] + o, now);
      assert Touch(l, tag) == [tag] + l;
      assert Take(Touch(l, tag), |s|) == [tag] + l;
    } else {
      NoneListed(s, o, tag);
      LowestIsVictim(s, o, clock);
      RefreshReranks(s, o, clock, now, |o| - 1, tag);
      Witnessed(s', Promoted(o, |o| - 1), now);
      assert Touch(l, tag) == [tag] + l;
      assert Take(Touch(l, tag), |s|) == [tag] + Cut(l, |o| - 1);
    }
  }

  lemma {:induction false} OthersDiffer(s: seq<Line>, o: seq<nat>, clock: nat, p: nat)
    requires Ranked(s, o, clock) && p < |o|
    ensures forall j :: 0 <= j < |o| ==> o[j] < |s| && (j != p ==> s[o[j]].tag != s[o[p]].tag)
    ensures s[o[p]].valid
  {
  }

  lemma {:induction false} NoneListed(s: seq<Line>, o: seq<nat>, tag: nat)
    requires (forall j :: 0 <= j < |o| ==> o[j] < |s|) && tag !in TagsOf(s, o)
    ensures forall j :: 0 <= j < |o| ==> s[o[j]].tag != tag
  {
    hide TagsOf;
    forall j | 0 <= j < |o| ensures s[o[j]].tag != tag { assert TagsOf(s, o)[j] != tag; }
  }

  lemma {:induction false} RankingOf(s: seq<Line>, l: seq<nat>, clock: nat) returns (o: seq<nat>)
    requires Represents(s, l, clock)
    ensures Ranked(s, o, clock) && (forall j :: 0 <= j < |o| ==> o[j] < |s|) && l == TagsOf(s, o)
  {
    o :| Ranked(s, o, clock) && l == TagsOf(s, o);
  }

  lemma {:induction false} RankedSize(s: seq<Line>, o: seq<nat>, clock: nat)
    requires Ranked(s, o, clock)
    ensures |o| <= |s| && (forall j :: 0 <= j < |o| ==> o[j] < |s|) && |TagsOf(s, o)| == |o|
  {
  }

  lemma {:induction false} Witnessed(s: seq<Line>, o: seq<nat>, clock: nat)
    requires Ranked(s, o, clock)
    ensures (forall j :: 0 <= j < |o| ==> o[j] < |s|) && Represents(s, TagsOf(s, o), clock)
  {
  }

  lemma {:induction false} LaterClock(s: seq<Line>, l: seq<nat>, clock: nat, later: nat)
    requires Represents(s, l, clock) && clock <= later
    ensures Represents(s, l, later)
  {
    var o := RankingOf(s, l, clock);
    assert Ranked(s, o, later);
  }

  // ---- the whole cache ---------------------------------------------------------------------------------------

  /** The cache after a trace of accesses, from empty. */
  function After(g: Geometry, trace: seq<Word>): (c: Cache)
    ensures c.config == g
  {
    if trace == [] then Empty(g)
    else Access(After(g, trace[..|trace| - 1]), trace[|trace| - 1])
  }

  /** The tags of the accesses that go to set `i`. */
  function SubTrace(g: Geometry, trace: seq<Word>, i: nat): seq<nat> {
    if trace == [] then []
    else
      var n := |trace| - 1;
      SubTrace(g, trace[..n], i) + (if Index(g, trace[n]) == i then [Tag(g, trace[n])] else [])
  }

  /** The content of a set after a trace: the most recent distinct tags of its own accesses. */
  function Content(g: Geometry, trace: seq<Word>, i: nat): seq<nat> {
    Take(Mru(SubTrace(g, trace, i)), g.ways)
  }

  /** The cache refines least-recently-used replacement: after any access trace, each set's valid lines by
      descending stamp are the `ways` most recent distinct tags of its subtrace; the valid lines are a prefix,
      their tags are unique, their stamps distinct and bounded by the access counter. */
  lemma {:induction false} CacheIsLru(g: Geometry, trace: seq<Word>, i: nat)
    requires i < NumSets(g)
    ensures var c := After(g, trace);
            Represents(c.sets[i], Content(g, trace, i), c.clock) && c.clock == |trace|
  {
    hide Index, Tag, Represents, AccessSet, Mru, Touch, HitIn;
    if trace == [] {
      EmptySet(g, i);
    } else {
      var n := |trace| - 1;
      var c, a := After(g, trace[..n]), trace[n];
      CacheIsLru(g, trace[..n], i);
      var s, l := c.sets[i], Content(g, trace[..n], i);
      if Index(g, a) == i {
        AccessTouches(s, l, c.clock, Tag(g, a), c.clock + 1);
        MruExtends(SubTrace(g, trace[..n], i), Tag(g, a), g.ways);
      } else {
        LaterClock(s, l, c.clock, c.clock + 1);
        assert SubTrace(g, trace, i) == SubTrace(g, trace[..n], i);
      }
    }
  }

  lemma {:induction false} EmptySet(g: Geometry, i: nat)
    requires i < NumSets(g)
    ensures After(g, []).clock == 0
    ensures Represents(After(g, []).sets[i], Content(g, [], i), 0)
  {
    var s := After(g, []).sets[i];
    assert forall j :: 0 <= j < |s| ==> s[j] == INVALID_LINE;
    assert Ranked(s, [], 0);
  }

  lemma {:induction false} MruExtends(sub: seq<nat>, tag: nat, k: nat)
    requires k > 0
    ensures Take(Mru(sub + [tag]), k) == Take(Touch(Take(Mru(sub), k), tag), k)
  {
    hide Touch;
    assert (sub + [tag])[..|sub|] == sub;
    MruHoldsTrace(sub);
    TakeOfTouch(Mru(sub), tag, k);
  }

  /** An access hits iff its tag is in the content of its set. */
  lemma {:induction false} HitsIfContained(g: Geometry, trace: seq<Word>, a: Word)
    ensures Resident(After(g, trace), a) <==> Tag(g, a) in Content(g, trace, Index(g, a))
  {
    hide Index, Tag, Represents, AccessSet, Mru, HitIn, After, Content;
    var c, i := After(g, trace), Index(g, a);
    CacheIsLru(g, trace, i);
    AccessTouches(c.sets[i], Content(g, trace, i), c.clock, Tag(g, a), c.clock + 1);
  }

  /** The stack-distance law: an access hits iff its block was accessed before and fewer than `ways` distinct
      other blocks of the same set were accessed since. */
  lemma {:induction false} StackDistanceLaw(g: Geometry, trace: seq<Word>, a: Word)
    ensures var sub := SubTrace(g, trace, Index(g, a));
            Resident(After(g, trace), a) <==> Tag(g, a) in sub && |Since(sub, Tag(g, a))| < g.ways
  {
    hide Index, Tag, After, Mru, Since, SubTrace;
    HitsIfContained(g, trace, a);
    AmongMostRecent(SubTrace(g, trace, Index(g, a)), Tag(g, a), g.ways);
  }

  // ---- inclusion ---------------------------------------------------------------------------------------------

  /** Two geometries that map addresses to sets and tags alike. */
  predicate SameMapping(g: Geometry, g': Geometry) {
    g.blockSize == g'.blockSize && NumSets(g) == NumSets(g')
  }

  lemma {:induction false} SameSubTrace(g: Geometry, g': Geometry, trace: seq<Word>, i: nat)
    requires SameMapping(g, g')
    ensures SubTrace(g, trace, i) == SubTrace(g', trace, i)
  {
    hide Index, Tag;
    if trace != [] {
      var n := |trace| - 1;
      SameSubTrace(g, g', trace[..n], i);
      SameAddressParts(g, g', trace[n]);
    }
  }

  lemma {:induction false} SameAddressParts(g: Geometry, g': Geometry, a: Word)
    requires SameMapping(g, g')
    ensures Index(g, a) == Index(g', a) && Tag(g, a) == Tag(g', a)
  {
    hide NumSets;
  }

  /** Stack inclusion: after a common trace, the cache with fewer ways holds no block that the other lacks. */
  lemma {:induction false} Inclusion(g: Geometry, g': Geometry, trace: seq<Word>, a: Word)
    requires SameMapping(g, g') && g.ways <= g'.ways
    ensures Resident(After(g, trace), a) ==> Resident(After(g', trace), a)
  {
    hide Index, Tag, After, Since, SubTrace, SameMapping;
    SameAddressParts(g, g', a);
    SameSubTrace(g, g', trace, Index(g, a));
    StackDistanceLaw(g, trace, a);
    StackDistanceLaw(g', trace, a);
  }

  /** More ways never mean more misses. */
  lemma {:induction false} MoreWaysFewerMisses(g: Geometry, g': Geometry, trace: seq<Word>)
    requires SameMapping(g, g') && g.ways <= g'.ways
    ensures After(g', trace).misses <= After(g, trace).misses
  {
    hide Index, Tag, Resident, SameMapping, Access;
    if trace != [] {
      var n := |trace| - 1;
      MoreWaysFewerMisses(g, g', trace[..n]);
      Inclusion(g, g', trace[..n], trace[n]);
      AccessCounts(After(g, trace[..n]), trace[n]);
      AccessCounts(After(g', trace[..n]), trace[n]);
    }
  }

  /** Every access is counted once, as a hit or as a miss. */
  lemma {:induction false} EveryAccessCounted(g: Geometry, trace: seq<Word>)
    ensures var c := After(g, trace); c.hits + c.misses == |trace| == c.clock
  {
    hide Index, Tag, Resident;
    if trace != [] { EveryAccessCounted(g, trace[..|trace| - 1]); }
  }

  // ---- competitiveness ---------------------------------------------------------------------------------------

  /** The misses among the accesses to set `i`. */
  function MissesInSet(g: Geometry, trace: seq<Word>, i: nat): nat {
    if trace == [] then 0
    else
      var n := |trace| - 1;
      MissesInSet(g, trace[..n], i)
      + (if Index(g, trace[n]) == i && !Resident(After(g, trace[..n]), trace[n]) then 1 else 0)
  }

  lemma {:induction false} MissesAreLruMisses(g: Geometry, trace: seq<Word>, i: nat)
    requires i < NumSets(g)
    ensures MissesInSet(g, trace, i) == LruMisses(SubTrace(g, trace, i), g.ways)
  {
    hide Index, Tag, Resident, Mru, After;
    if trace != [] {
      var n := |trace| - 1;
      MissesAreLruMisses(g, trace[..n], i);
      if Index(g, trace[n]) == i {
        HitsIfContained(g, trace[..n], trace[n]);
        var sub := SubTrace(g, trace[..n], i);
        assert SubTrace(g, trace, i) == sub + [Tag(g, trace[n])];
        assert (sub + [Tag(g, trace[n])])[..|sub|] == sub;
      } else {
        assert SubTrace(g, trace, i) == SubTrace(g, trace[..n], i);
      }
    }
  }

  /** Competitiveness: in every set, `access` misses at most `ways` times as often as any replacement policy
      with `ways` lines would on the accesses to that set, both from empty. */
  lemma {:induction false} CacheIsCompetitive(g: Geometry, trace: seq<Word>, i: nat, held: seq<set<nat>>)
    requires i < NumSets(g) && IsPolicy(SubTrace(g, trace, i), held, g.ways)
    ensures MissesInSet(g, trace, i) <= g.ways * PolicyMisses(SubTrace(g, trace, i), held)
  {
    hide IsPolicy, PolicyMisses, MissesInSet, SubTrace, LruMisses;
    MissesAreLruMisses(g, trace, i);
    PolicySize(SubTrace(g, trace, i), held, g.ways);
    LruIsCompetitive(SubTrace(g, trace, i), held, g.ways);
  }

  // ---- blocks ------------------------------------------------------------------------------------------------

  /** The number of the block an address lies in. */
  function Block(g: Geometry, a: Word): nat { ShiftRight(a as nat, OffsetBits(g)) }

  lemma {:induction false} QuotientIs(x: nat, d: nat, q: nat)
    requires d > 0 && d * q <= x < d * q + d
    ensures x / d == q
  {
    DivMod(x, d);
    Multiples(d, x / d, q);
    Multiples(d, q, x / d);
  }

  lemma {:induction false} ShiftByOneMore(x: nat, n: nat)
    ensures ShiftRight(x, n + 1) == ShiftRight(x / 2, n)
  {
    var d, q := Pow2(n), ShiftRight(x, n + 1);
    assert Pow2(n + 1) == 2 * d;
    assert (2 * d) * q <= x < (2 * d) * q + 2 * d;
    assert (2 * d) * q == 2 * (d * q);
    QuotientIs(x / 2, d, q);
  }

  /** Shifts add up. */
  lemma {:induction false} ShiftTwice(x: nat, a: nat, b: nat)
    ensures ShiftRight(x, a + b) == ShiftRight(ShiftRight(x, a), b)
    decreases a
  {
    if a == 0 {
      assert ShiftRight(x, 0) == x;
    } else {
      ShiftByOneMore(x, a - 1 + b);
      ShiftTwice(x / 2, a - 1, b);
      ShiftByOneMore(x, a - 1);
    }
  }

  /** Two addresses share index and tag iff they lie in the same block. */
  lemma {:induction false} SameLineIffSameBlock(g: Geometry, a: Word, b: Word)
    ensures Index(g, a) == Index(g, b) && Tag(g, a) == Tag(g, b) <==> Block(g, a) == Block(g, b)
  {
    hide NumSets, Log2, Pow2;
    ShiftTwice(a as nat, OffsetBits(g), IndexBits(g));
    ShiftTwice(b as nat, OffsetBits(g), IndexBits(g));
    var m := Pow2(IndexBits(g));
    DivMod(Block(g, a), m);
    DivMod(Block(g, b), m);
  }

  lemma {:induction false} DivMod(x: nat, m: nat)
    requires m > 0
    ensures x == m * (x / m) + x % m
  {
  }

  // ---- capacity ----------------------------------------------------------------------------------------------

  /** The sets fill the capacity: as many as fit, and no fewer. */
  lemma {:induction false} Capacity(g: Config)
    requires g.blockSize > 0 && g.ways > 0
    ensures NumSets(g) * g.ways * g.blockSize <= g.cacheSize < (NumSets(g) + 1) * g.ways * g.blockSize
  {
    var b, w, c, n := g.blockSize, g.ways, g.cacheSize, NumSets(g);
    DivMod(c, b);
    DivMod(c / b, w);
    assert w * n <= c / b < w * n + w;
    Multiples(b, c / b, w * n + w);
    if w * n < c / b { Multiples(b, w * n, c / b); }
    assert n * w * b == b * (w * n) && (n + 1) * w * b == b * (w * n + w);
  }

  predicate PowerOfTwo(n: nat) { n > 0 && Pow2(Log2(n)) == n }

  lemma {:induction false} PowersArePowers(k: nat)
    ensures PowerOfTwo(Pow2(k))
  {
    if k > 0 { PowersArePowers(k - 1); }
  }

  lemma {:induction false} SameCount(k: nat, n: nat, m: nat, c: nat)
    requires n * k <= c < (n + 1) * k && m * k <= c < (m + 1) * k
    ensures n == m
  {
    assert (n + 1) * k == k * n + k && (m + 1) * k == k * m + k;
    QuotientIs(c, k, n);
    QuotientIs(c, k, m);
  }

  /** With powers of two, and room for `sets` sets, an address belongs to the set that its block number selects modulo
      `sets`, and its tag is what is left of it. */
  lemma {:induction false} SetOfAddress(g: Geometry, sets: nat, a: Word)
    requires PowerOfTwo(g.blockSize) && PowerOfTwo(sets)
    requires sets * (g.ways * g.blockSize) <= g.cacheSize < (sets + 1) * (g.ways * g.blockSize)
    ensures |Empty(g).sets| == sets
    ensures Index(g, a) == a as nat / g.blockSize % sets && Tag(g, a) == a as nat / g.blockSize / sets
  {
    hide Log2, Pow2, NumSets;
    Capacity(g);
    var k, n := g.ways * g.blockSize, NumSets(g);
    assert n * g.ways * g.blockSize == n * k && (n + 1) * g.ways * g.blockSize == (n + 1) * k;
    SameCount(k, n, sets, g.cacheSize);
    ShiftTwice(a as nat, OffsetBits(g), IndexBits(g));
  }
}
