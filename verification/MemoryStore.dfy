/** `MemoryStore` of src/MemoryStore.cpp: an array of bytes, read and written byte by byte. */
module MemoryStores {
  import opened Utilities
  import opened Memory

  const EINVAL: int := 22

  class MemoryStore {
    const startAddr: Word
    const memArr: array<Byte>

    /** A byte vector cannot be longer than half the address space. */
    ghost predicate Valid() {
      memArr.Length <= 0x8000_0000_0000_0000
    }

    ghost function State(): Mem
      reads memArr
    {
      Mem(startAddr, memArr[..])
    }

    /** A store over given bytes; files and the zero fill are not part of this model. */
    constructor (start: Word, bytes: seq<Byte>)
      requires |bytes| <= 0x8000_0000_0000_0000
      ensures Valid() && State() == Mem(start, bytes) && fresh(memArr)
    {
      startAddr := start;
      memArr := new Byte[|bytes|](i requires 0 <= i < |bytes| => bytes[i]);
    }

    /** The position of byte `i` of an access, computed in 64 bits. */
    function At(address: Word, i: nat): nat {
      ByteIndex(startAddr, address, i)
    }

    /** The reading half: bytes are added to the value from the least significant one up. */
    method ReadBytes(address: Word, size: nat) returns (ok: bool, value: Word)
      requires Valid() && ValidSize(size)
      ensures ok <==> InBounds(State(), address, size)
      ensures ok ==> Load(State(), address, size) == Some(value)
    {
      ghost var bytes, rel := memArr[..], Offset(State(), address);
      value := 0;
      var i := 0;
      while i < size
        invariant 0 <= i <= size
        invariant i == 0 || rel + i <= |bytes|
        invariant value as nat == if i == 0 then 0 else Compose(bytes[rel..rel + i])
      {
        var at := At(address, i);
        ByteIndexIs(State(), address, i);
        if at >= memArr.Length {
          return false, value;
        }
        assert bytes[rel..rel + i] + [bytes[rel + i]] == bytes[rel..rel + i + 1];
        ComposeAppends(bytes[rel..rel + i], bytes[rel + i]);
        Pow256Bound(i + 1);
        value := (value as nat + memArr[at] as nat * Pow256(i)) as Word;
        i := i + 1;
      }
      Wrapped(value);
      return true, value;
    }

    /** The writing half: a failure leaves the bytes before it written. */
    method WriteBytes(address: Word, value: Word, size: nat) returns (ok: bool)
      requires Valid() && ValidSize(size)
      modifies memArr
      ensures ok <==> InBounds(old(State()), address, size)
      ensures State() == Store(old(State()), address, value, size)
    {
      hide ByteIndex, ByteOf;
      ghost var m := State();
      ghost var rel := Offset(m, address);
      var i := 0;
      while i < size
        invariant 0 <= i <= size
        invariant i == 0 || rel + i <= |m.bytes|
        invariant memArr[..] == Written(m.bytes, rel, value as nat, i)
      {
        var at := At(address, i);
        ByteIndexIs(m, address, i);
        if at >= memArr.Length {
          WrittenBeyond(m.bytes, rel, value as nat, i, size);
          return false;
        }
        WrittenStep(m.bytes, rel, value as nat, i);
        ghost var before := memArr[..];
        memArr[at] := ByteOf(value as nat, i);
        assert memArr[..] == before[at := ByteOf(value as nat, i)];
        i := i + 1;
      }
      return true;
    }

    method GetOrSetValue(get: bool, address: Word, given: Word, size: nat) returns (ret: int, value: Word)
      requires Valid()
      modifies if get then {} else {memArr}
      ensures !ValidSize(size) ==> ret == -EINVAL && value == given && State() == old(State())
      ensures ValidSize(size) ==> ret == if InBounds(old(State()), address, size) then 0 else -EINVAL
      ensures ValidSize(size) && get ==>
                State() == old(State()) && (ret == 0 ==> Load(old(State()), address, size) == Some(value))
      ensures ValidSize(size) && !get ==> value == given && State() == Store(old(State()), address, given, size)
    {
      value := given;
      if !(size == BYTE_SIZE || size == HALF_SIZE || size == WORD_SIZE || size == DOUBLE_SIZE) {
        return -EINVAL, value;
      }
      var ok;
      if get {
        ok, value := ReadBytes(address, size);
      } else {
        ok := WriteBytes(address, given, size);
      }
      return if ok then 0 else -EINVAL, value;
    }

    method GetMemValue(address: Word, size: nat) returns (ret: int, value: Word)
      requires Valid() && ValidSize(size)
      ensures match Load(State(), address, size)
              case None => ret != 0
              case Some(v) => ret == 0 && value == v
    {
      ret, value := GetOrSetValue(true, address, 0, size);
    }

    method SetMemValue(address: Word, value: Word, size: nat) returns (ret: int)
      requires Valid() && ValidSize(size)
      modifies memArr
      ensures State() == Store(old(State()), address, value, size)
      ensures ret == 0 <==> InBounds(old(State()), address, size)
    {
      var same;
      ret, same := GetOrSetValue(false, address, value, size);
    }
  }

  function ByteIndex(start: Word, address: Word, i: nat): nat {
    Wrap(Wrap(address as int - start as int) as int + i) as nat
  }

  /** As long as the bytes before it were in range, the 64-bit position of a byte does not wrap back into range. */
  lemma ByteIndexIs(m: Mem, address: Word, i: nat)
    requires |m.bytes| <= 0x8000_0000_0000_0000 && i < 8
    requires i == 0 || Offset(m, address) + i <= |m.bytes|
    ensures var at := ByteIndex(m.start, address, i);
            (at < |m.bytes| <==> Offset(m, address) + i < |m.bytes|)
                && (at < |m.bytes| ==> at == Offset(m, address) + i)
  {
  }

  lemma Wrapped(x: Word)
    ensures Wrap(x as int) == x
  {
  }

  /** `bytes` after the first `n` bytes of `value` have been written at `rel`. */
  function Written(bytes: seq<Byte>, rel: nat, value: nat, n: nat): seq<Byte> {
    seq(|bytes|, i requires 0 <= i < |bytes| => if rel <= i < rel + n then ByteOf(value, i - rel) else bytes[i])
  }

  lemma WrittenStep(bytes: seq<Byte>, rel: nat, value: nat, n: nat)
    requires rel + n < |bytes|
    ensures Written(bytes, rel, value, n + 1) == Written(bytes, rel, value, n)[rel + n := ByteOf(value, n)]
  {
  }

  lemma WrittenBeyond(bytes: seq<Byte>, rel: nat, value: nat, n: nat, size: nat)
    requires rel + n >= |bytes| && n <= size
    ensures Written(bytes, rel, value, n) == Written(bytes, rel, value, size)
  {
  }

  lemma {:induction false} ComposeAppends(s: seq<Byte>, b: Byte)
    ensures Compose(s + [b]) == Compose(s) + b as nat * Pow256(|s|)
  {
    if s == [] {
      assert [] + [b] == [b];
      assert Compose([b]) == b as nat + 256 * Compose([]);
    } else {
      assert (s + [b])[1..] == s[1..] + [b];
      ComposeAppends(s[1..], b);
      var p := Pow256(|s| - 1);
      assert 256 * (b as nat * p) == b as nat * (256 * p);
    }
  }

  lemma Pow256Bound(n: nat)
    requires n <= 8
    ensures Pow256(n) <= 0x1_0000_0000_0000_0000
  {
    Pow256Values();
  }

  lemma Pow256Values()
    ensures Pow256(0) == 1 && Pow256(1) == 0x100 && Pow256(2) == 0x1_0000 && Pow256(3) == 0x100_0000
    ensures Pow256(4) == 0x1_0000_0000 && Pow256(5) == 0x100_0000_0000 && Pow256(6) == 0x1_0000_0000_0000
    ensures Pow256(7) == 0x100_0000_0000_0000 && Pow256(8) == 0x1_0000_0000_0000_0000
  {
  }
}
