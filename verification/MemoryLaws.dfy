/** Laws of the byte memory: reads return what was last written, byte by byte, whatever the sizes. */
module MemoryLaws {
  import opened Utilities
  import opened Memory
  import opened MemoryStores

  /** One store, in bounds or not. */
  datatype Write = Write(address: Word, value: Word, size: nat)

  type Stores = ws: seq<Write> | forall i :: 0 <= i < |ws| ==> ValidSize(ws[i].size) witness []

  /** The memory after a sequence of stores. */
  function Apply(m: Mem, ws: Stores): Mem {
    if ws == [] then m
    else
      var n := |ws| - 1;
      Store(Apply(m, ws[..n]), ws[n].address, ws[n].value, ws[n].size)
  }

  predicate Covers(m: Mem, w: Write, i: nat) {
    Offset(m, w.address) <= i < Offset(m, w.address) + w.size
  }

  /** The byte at position `i`, by history: the matching byte of the last store that covers `i`. */
  function LastWritten(m: Mem, ws: Stores, i: nat): Byte
    requires i < |m.bytes|
  {
    if ws == [] then m.bytes[i]
    else
      var n := |ws| - 1;
      if Covers(m, ws[n], i) then ByteOf(ws[n].value as nat, i - Offset(m, ws[n].address))
      else LastWritten(m, ws[..n], i)
  }

  lemma {:induction false} BytesAreLastWritten(m: Mem, ws: Stores, i: nat)
    requires i < |m.bytes|
    ensures var m' := Apply(m, ws);
            m'.start == m.start && |m'.bytes| == |m.bytes| && m'.bytes[i] == LastWritten(m, ws, i)
  {
    hide ByteOf, Wrap;
    if ws != [] { BytesAreLastWritten(m, ws[..|ws| - 1], i); }
  }

  lemma {:induction false} SizeKept(m: Mem, ws: Stores)
    ensures Apply(m, ws).start == m.start && |Apply(m, ws).bytes| == |m.bytes|
  {
    if ws != [] { SizeKept(m, ws[..|ws| - 1]); }
  }

  /** The number a list of bytes stands for is the weighted sum of its bytes. */
  function Weighted(s: seq<Byte>): nat {
    if s == [] then 0 else Weighted(s[..|s| - 1]) + s[|s| - 1] as nat * Pow256(|s| - 1)
  }

  lemma {:induction false} ComposeIsWeighted(s: seq<Byte>)
    ensures Compose(s) == Weighted(s)
  {
    if s != [] {
      var n := |s| - 1;
      ComposeIsWeighted(s[..n]);
      ComposeAppends(s[..n], s[n]);
      assert s == s[..n] + [s[n]];
    }
  }

  /** After any sequence of stores of any sizes, a read succeeds iff it is in bounds, and returns the little-endian
      composition of the bytes last written. */
  lemma {:induction false} ReadsLastWritten(m: Mem, ws: Stores, address: Word, size: nat)
    requires ValidSize(size)
    ensures InBounds(Apply(m, ws), address, size) <==> InBounds(m, address, size)
    ensures Load(Apply(m, ws), address, size).Some? <==> InBounds(m, address, size)
    ensures InBounds(m, address, size) ==>
              var at := Offset(m, address);
              var bytes := seq(size, k requires 0 <= k < size => LastWritten(m, ws, at + k));
              Load(Apply(m, ws), address, size).value as nat == Weighted(bytes)
  {
    hide Wrap, Compose;
    var m' := Apply(m, ws);
    SizeKept(m, ws);
    if InBounds(m, address, size) {
      var at := Offset(m, address);
      var bytes := seq(size, k requires 0 <= k < size => LastWritten(m, ws, at + k));
      forall k | 0 <= k < size
        ensures m'.bytes[at + k] == bytes[k]
      {
        BytesAreLastWritten(m, ws, at + k);
      }
      assert m'.bytes[at..at + size] == bytes;
      ComposeIsWeighted(bytes);
      ComposeFits(bytes);
    }
  }

  lemma ComposeFits(s: seq<Byte>)
    requires |s| <= 8
    ensures Wrap(Compose(s)) as nat == Compose(s)
  {
    Pow256Bound(|s|);
  }

  // ---- one store and one read --------------------------------------------------------------------------------

  function BytesOf(v: nat, n: nat): seq<Byte> {
    seq(n, k requires 0 <= k < n => ByteOf(v, k))
  }

  lemma {:induction false} DigitStep(v: nat, p: nat)
    requires p > 0
    ensures v % (256 * p) == v % p + ((v / p) % 256) * p
  {
    var q, r := v / p, v % p;
    var q2, b := q / 256, q % 256;
    DigitProducts(p, q2, b);
    assert v == (256 * p) * q2 + (b * p + r);
    RemainderIs(v, 256 * p, q2, b * p + r);
  }

  lemma {:induction false} DigitProducts(p: nat, q2: nat, b: nat)
    requires b < 256
    ensures p * (256 * q2 + b) == (256 * p) * q2 + b * p
    ensures b * p + p <= 256 * p
  {
    Associate(256, p, q2);
    Associate(p, 256, q2);
    assert p * (256 * q2 + b) == p * (256 * q2) + p * b;
    Multiples(p, b, 256);
  }

  lemma {:induction false} Associate(x: nat, y: nat, z: nat)
    ensures x * (y * z) == (x * y) * z
  {
  }

  lemma {:induction false} RemainderIs(v: nat, d: nat, q: nat, r: nat)
    requires v == d * q + r && r < d
    ensures v % d == r
  {
    Unique(d, v / d, v % d, q, r);
  }

  lemma {:induction false} Unique(d: nat, q: nat, r: nat, q': nat, r': nat)
    requires r < d && r' < d && d * q + r == d * q' + r'
    ensures r == r'
  {
    Multiples(d, q, q');
    Multiples(d, q', q);
  }

  lemma {:induction false} ComposeOfBytes(v: nat, n: nat)
    ensures Compose(BytesOf(v, n)) == v % Pow256(n)
  {
    if n > 0 {
      ComposeOfBytes(v, n - 1);
      assert BytesOf(v, n) == BytesOf(v, n - 1) + [ByteOf(v, n - 1)];
      ComposeAppends(BytesOf(v, n - 1), ByteOf(v, n - 1));
      DigitStep(v, Pow256(n - 1));
    }
  }

  /** Round trip: reading back a store yields its value cut to its size. */
  lemma {:induction false} ReadBack(m: Mem, address: Word, v: Word, size: nat)
    requires ValidSize(size) && InBounds(m, address, size)
    ensures Load(Store(m, address, v, size), address, size) == Some((v as nat % Pow256(size)) as Word)
  {
    hide Compose, ByteOf, Wrap;
    var at, m' := Offset(m, address), Store(m, address, v, size);
    assert m'.bytes[at..at + size] == BytesOf(v as nat, size);
    ComposeOfBytes(v as nat, size);
    ComposeFits(m'.bytes[at..at + size]);
  }

  /** A store leaves reads of other bytes alone. */
  lemma {:induction false} DisjointRead(m: Mem, address: Word, v: Word, size: nat, other: Word, n: nat)
    requires ValidSize(size) && ValidSize(n)
    requires Offset(m, other) + n <= Offset(m, address) || Offset(m, address) + size <= Offset(m, other)
    ensures Load(Store(m, address, v, size), other, n) == Load(m, other, n)
  {
    hide Compose, ByteOf, Wrap;
    if InBounds(m, other, n) {
      var at := Offset(m, other);
      assert Store(m, address, v, size).bytes[at..at + n] == m.bytes[at..at + n];
    }
  }

  /** A store changes exactly the bytes of its range that exist; a failing one has written the prefix in range. */
  lemma {:induction false} StoreFootprint(m: Mem, address: Word, v: Word, size: nat, i: nat)
    requires ValidSize(size) && i < |m.bytes|
    ensures var m' := Store(m, address, v, size);
            |m'.bytes| == |m.bytes| &&
            m'.bytes[i] == if Offset(m, address) <= i < Offset(m, address) + size
                           then ByteOf(v as nat, i - Offset(m, address)) else m.bytes[i]
    ensures Offset(m, address) >= |m.bytes| ==> Store(m, address, v, size) == m
  {
    hide Wrap, ByteOf;
    if Offset(m, address) >= |m.bytes| { assert Store(m, address, v, size).bytes == m.bytes; }
  }

  lemma {:induction false} ComposeConcat(s: seq<Byte>, t: seq<Byte>)
    ensures Compose(s + t) == Compose(s) + Pow256(|s|) * Compose(t)
  {
    if s == [] {
      assert s + t == t;
    } else {
      assert (s + t)[1..] == s[1..] + t;
      ComposeConcat(s[1..], t);
      Associate(256, Pow256(|s| - 1), Compose(t));
    }
  }

  /** A doubleword read is its low word plus 2^32 times its high word. */
  lemma {:induction false} WideRead(m: Mem, address: Word)
    requires InBounds(m, address, DOUBLE_SIZE) && |m.bytes| <= 0x8000_0000_0000_0000
    ensures var low, high := Load(m, address, WORD_SIZE), Load(m, Wrap(address as int + 4), WORD_SIZE);
            && low.Some? && high.Some?
            && Load(m, address, DOUBLE_SIZE) == Some(Wrap(low.value as int + 0x1_0000_0000 * high.value as int))
  {
    hide Compose;
    var at := Offset(m, address);
    assert Offset(m, Wrap(address as int + 4)) == at + 4;
    var s, t := m.bytes[at..at + 4], m.bytes[at + 4..at + 8];
    assert m.bytes[at..at + 8] == s + t;
    ComposeConcat(s, t);
    ComposeFits(s);
    ComposeFits(t);
    Pow256Values();
  }
}
