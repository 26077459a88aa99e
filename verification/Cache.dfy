/** `Cache` of src/cache.cpp: the table of lines, searched and updated in place. */
module Caches {
  import opened Utilities
  import L = LruCache

  class Cache {
    const config: L.Config
    /** `sets[set, way]`. */
    const sets: array2<L.Line>
    var hits: nat
    var misses: nat
    var globalLRUCounter: nat

    ghost predicate Valid()
    {
      L.ValidConfig(config) && sets.Length0 == L.NumSets(config) && sets.Length1 == config.ways
    }

    ghost function Set(i: nat): seq<L.Line>
      requires i < sets.Length0
      reads sets
    {
      seq(sets.Length1, way requires 0 <= way < sets.Length1 reads sets => sets[i, way])
    }

    ghost function Sets(): seq<seq<L.Line>>
      reads sets
    {
      seq(sets.Length0, i requires 0 <= i < sets.Length0 reads sets => Set(i))
    }

    /** The cache as a value. */
    ghost function State(): L.Cache
      requires Valid()
      reads this, sets
    {
      L.Fields(config, hits, misses, globalLRUCounter, Sets())
    }

    constructor (g: L.Geometry)
      ensures Valid() && State() == L.Empty(g) && config == g && fresh(sets)
    {
      config := g;
      hits, misses, globalLRUCounter := 0, 0, 0;
      sets := new L.Line[L.NumSets(g), g.ways]((i, j) => L.INVALID_LINE);
      new;
      assert forall i :: 0 <= i < sets.Length0 ==> Set(i) == L.Empty(g).sets[i];
      assert Sets() == L.Empty(g).sets;
    }

    /** The way that holds `tag`, or the number of ways. */
    method FindHit(index: nat, tag: nat) returns (way: nat)
      requires Valid() && index < sets.Length0
      ensures way == L.FirstHit(Set(index), tag, 0)
    {
      way := 0;
      while way < config.ways
        invariant way <= config.ways
        invariant L.FirstHit(Set(index), tag, way) == L.FirstHit(Set(index), tag, 0)
      {
        if sets[index, way].valid && sets[index, way].tag == tag {
          return;
        }
        way := way + 1;
      }
    }

    /** The line to replace: the first invalid one, else the first with the smallest stamp. */
    method FindVictim(index: nat) returns (victim: nat)
      requires Valid() && index < sets.Length0
      ensures victim == L.Victim(Set(index))
    {
      victim := 0;
      while victim < config.ways
        invariant victim <= config.ways
        invariant L.FirstInvalid(Set(index), victim) == L.FirstInvalid(Set(index), 0)
      {
        if !sets[index, victim].valid {
          return;
        }
        victim := victim + 1;
      }
      victim := 0;
      var way := 0;
      while way < config.ways
        invariant way <= config.ways && victim < config.ways
        invariant way == 0 ==> victim == 0
        invariant way > 0 ==> victim < way && L.Oldest(Set(index), victim, way) == L.Oldest(Set(index), 0, 1)
      {
        if sets[index, way].stamp < sets[index, victim].stamp {
          victim := way;
        }
        way := way + 1;
      }
    }

    /** One line is overwritten. */
    method Overwrite(index: nat, way: nat, line: L.Line)
      requires Valid() && index < sets.Length0 && way < sets.Length1
      modifies sets
      ensures Sets() == old(Sets())[index := old(Set(index))[way := line]]
    {
      sets[index, way] := line;
      assert Set(index) == old(Set(index))[way := line];
      assert forall i :: 0 <= i < sets.Length0 && i != index ==> Set(i) == old(Set(i));
    }

    /** `access`: reads and writes are treated alike. */
    method Access(address: Word) returns (hit: bool)
      requires Valid()
      modifies this`hits, this`misses, this`globalLRUCounter, sets
      ensures hit == L.Resident(old(State()), address)
      ensures State() == L.Access(old(State()), address)
    {
      hide L.Index, L.Tag;
      var index := L.Index(config, address);
      var tag := L.Tag(config, address);
      globalLRUCounter := globalLRUCounter + 1;
      var way := FindHit(index, tag);
      if way < config.ways {
        hits := hits + 1;
        Overwrite(index, way, sets[index, way].(stamp := globalLRUCounter));
        return true;
      }
      misses := misses + 1;
      var victim := FindVictim(index);
      Overwrite(index, victim, L.Line(true, tag, globalLRUCounter));
      return false;
    }
  }
}
