/** The set-associative cache of src/cache.cpp as a value: what one `access` does to the timestamped lines. */
module LruCache {
  import opened Utilities

  /** `CacheConfig`. */
  datatype Config = Config(cacheSize: nat, blockSize: nat, ways: nat, missLatency: nat)

  /** `Cache::Line`. */
  datatype Line = Line(valid: bool, tag: nat, stamp: nat)

  const INVALID_LINE: Line := Line(false, 0, 0)

  /** The integer part of the base-2 logarithm. */
  function Log2(n: nat): (k: nat)
    requires n > 0
    ensures Pow2(k) <= n < 2 * Pow2(k)
  {
    if n == 1 then 0 else 1 + Log2(n / 2)
  }

  function Quotient(x: nat, d: nat): nat
    requires d > 0
  {
    x / d
  }

  /** The unsigned shift `x >> bits`. */
  function ShiftRight(x: nat, bits: nat): nat {
    Quotient(x, Pow2(bits))
  }

  function NumSets(g: Config): nat
    requires g.blockSize > 0 && g.ways > 0
  {
    (g.cacheSize / g.blockSize) / g.ways
  }

  /** What the constructor needs: a geometry with at least one set. */
  predicate ValidConfig(g: Config) {
    g.blockSize > 0 && g.ways > 0 && NumSets(g) > 0
  }

  type Geometry = g: Config | ValidConfig(g) witness Config(1, 1, 1, 0)

  function IndexBits(g: Geometry): nat { Log2(NumSets(g)) }

  function OffsetBits(g: Geometry): nat { Log2(g.blockSize) }

  /** `(address >> offsetBits) & indexMask`. */
  function Index(g: Geometry, address: Word): (r: nat)
    ensures r < NumSets(g)
  {
    ShiftRight(address as nat, OffsetBits(g)) % Pow2(IndexBits(g))
  }

  /** `address >> (offsetBits + indexBits)`. */
  function Tag(g: Geometry, address: Word): nat {
    ShiftRight(address as nat, OffsetBits(g) + IndexBits(g))
  }

  /** The first line from `i` on that is valid and holds `tag`, or `|s|`. */
  function FirstHit(s: seq<Line>, tag: nat, i: nat): (r: nat)
    requires i <= |s|
    ensures i <= r <= |s|
    ensures r < |s| ==> s[r].valid && s[r].tag == tag
    ensures forall j :: i <= j < r ==> !(s[j].valid && s[j].tag == tag)
    decreases |s| - i
  {
    if i == |s| || (s[i].valid && s[i].tag == tag) then i else FirstHit(s, tag, i + 1)
  }

  /** The first invalid line from `i` on, or `|s|`. */
  function FirstInvalid(s: seq<Line>, i: nat): (r: nat)
    requires i <= |s|
    ensures i <= r <= |s|
    ensures r < |s| ==> !s[r].valid
    ensures forall j :: i <= j < r ==> s[j].valid
    decreases |s| - i
  {
    if i == |s| || !s[i].valid then i else FirstInvalid(s, i + 1)
  }

  /** The first line with the smallest stamp among `s[best]` and the lines from `i` on. */
  function Oldest(s: seq<Line>, best: nat, i: nat): (r: nat)
    requires best < i <= |s|
    ensures r < |s| && (r == best || i <= r)
    ensures s[r].stamp <= s[best].stamp
    ensures forall j :: i <= j < |s| ==> s[r].stamp <= s[j].stamp
    ensures r != best ==> s[r].stamp < s[best].stamp && forall j :: i <= j < r ==> s[r].stamp < s[j].stamp
    decreases |s| - i
  {
    if i == |s| then best
    else Oldest(s, if s[i].stamp < s[best].stamp then i else best, i + 1)
  }

  /** The line a miss replaces: the first invalid one, else the least recently stamped one. */
  function Victim(s: seq<Line>): (r: nat)
    requires |s| > 0
    ensures r < |s|
  {
    var free := FirstInvalid(s, 0);
    if free < |s| then free else Oldest(s, 0, 1)
  }

  predicate HitIn(s: seq<Line>, tag: nat) {
    FirstHit(s, tag, 0) < |s|
  }

  /** One set after an access to `tag` at time `now`. */
  function AccessSet(s: seq<Line>, tag: nat, now: nat): (s': seq<Line>)
    requires |s| > 0
    ensures |s'| == |s|
  {
    if HitIn(s, tag) then
      var i := FirstHit(s, tag, 0);
      s[i := s[i].(stamp := now)]
    else
      s[Victim(s) := Line(true, tag, now)]
  }

  /** The fields of a `Cache` object. */
  datatype Fields = Fields(config: Config, hits: nat, misses: nat, clock: nat, sets: seq<seq<Line>>)

  predicate Valid(c: Fields) {
    && ValidConfig(c.config)
    && |c.sets| == NumSets(c.config)
    && forall i :: 0 <= i < |c.sets| ==> |c.sets[i]| == c.config.ways
  }

  function Empty(g: Geometry): (c: Fields)
    ensures Valid(c) && c.config == g && c.hits == 0 && c.misses == 0
  {
    Fields(g, 0, 0, 0, seq(NumSets(g), _ => seq(g.ways, _ => INVALID_LINE)))
  }

  type Cache = c: Fields | Valid(c) witness Empty(Config(1, 1, 1, 0))

  /** Whether an access to `address` would hit. */
  predicate Resident(c: Cache, address: Word) {
    HitIn(c.sets[Index(c.config, address)], Tag(c.config, address))
  }

  /** The cache after `access(address, _)`; reads and writes are treated alike. */
  function Access(c: Cache, address: Word): (c': Cache)
    ensures c'.config == c.config
    ensures c'.hits + c'.misses == c.hits + c.misses + 1
    ensures c.misses <= c'.misses && c.hits <= c'.hits
  {
    var i := Index(c.config, address);
    var now := c.clock + 1;
    var s := AccessSet(c.sets[i], Tag(c.config, address), now);
    if Resident(c, address) then
      c.(hits := c.hits + 1, clock := now, sets := c.sets[i := s])
    else
      c.(misses := c.misses + 1, clock := now, sets := c.sets[i := s])
  }

  /** An access leaves its own block resident, hit or miss. */
  lemma AccessMakesResident(c: Cache, address: Word)
    ensures Resident(Access(c, address), address)
  {
    hide Index, Tag;
    var i, tag := Index(c.config, address), Tag(c.config, address);
    var s := c.sets[i];
    var s' := AccessSet(s, tag, c.clock + 1);
    var at := if HitIn(s, tag) then FirstHit(s, tag, 0) else Victim(s);
    assert s'[at].valid && s'[at].tag == tag;
  }

  /** An access counts as a miss iff its block was not resident. */
  lemma AccessCounts(c: Cache, address: Word)
    ensures Access(c, address).misses - c.misses == if Resident(c, address) then 0 else 1
  {
    hide Index, Tag, HitIn;
  }
}
