/** The byte memory of src/MemoryStore.cpp as a value: little-endian reads and writes with a bounds failure. */
module Memory {
  import opened Utilities

  const BYTE_SIZE: nat := 1
  const HALF_SIZE: nat := 2
  const WORD_SIZE: nat := 4
  const DOUBLE_SIZE: nat := 8

  /** The sizes that `getOrSetValue` accepts. */
  predicate ValidSize(size: nat) {
    size == BYTE_SIZE || size == HALF_SIZE || size == WORD_SIZE || size == DOUBLE_SIZE
  }

  newtype Byte = x: int | 0 <= x < 256

  /** The store: byte `bytes[i]` sits at address `start + i`. */
  datatype Mem = Mem(start: Word, bytes: seq<Byte>)

  /** The unsigned distance of `address` from the first byte (64-bit wrap-around). */
  function Offset(m: Mem, address: Word): nat {
    Wrap(address as int - m.start as int) as nat
  }

  function Pow256(k: nat): (r: nat)
    ensures r > 0
  {
    if k == 0 then 1 else 256 * Pow256(k - 1)
  }

  /** Byte `k` of a number, byte 0 being the least significant: `(v >> 8k) & 0xFF`. */
  function ByteOf(v: nat, k: nat): Byte {
    ((v / Pow256(k)) % 256) as Byte
  }

  /** The number whose byte `k` is `s[k]`. */
  function Compose(s: seq<Byte>): (v: nat)
    ensures v < Pow256(|s|)
  {
    if s == [] then 0 else s[0] as nat + 256 * Compose(s[1..])
  }

  predicate InBounds(m: Mem, address: Word, size: nat) {
    Offset(m, address) + size <= |m.bytes|
  }

  /** A read of `size` bytes; `None` is the access violation. */
  function Load(m: Mem, address: Word, size: nat): Option<Word>
    requires ValidSize(size)
  {
    if InBounds(m, address, size) then
      Some(Wrap(Compose(m.bytes[Offset(m, address)..Offset(m, address) + size])))
    else
      None
  }

  /** The memory after a write of the low `size` bytes of `value`.  Bytes beyond the end are dropped: a
      failing write has already changed the bytes before the first one out of range. */
  function Store(m: Mem, address: Word, value: Word, size: nat): Mem
    requires ValidSize(size)
  {
    var at := Offset(m, address);
    m.(bytes := seq(|m.bytes|, i requires 0 <= i < |m.bytes| =>
      if at <= i < at + size then ByteOf(value as nat, i - at) else m.bytes[i]))
  }
}
