/** The 32-bit FNV-1a hash that spreads users over buckets and shards. */
module Fnv {

  const OFFSET_BASIS: bv32 := 2166136261
  const PRIME: bv32 := 16777619

  function Mix(h: bv32, b: bv8): bv32 {
    (h ^ (b as bv32)) * PRIME
  }

  function Hash(key: seq<bv8>): bv32 {
    if key == [] then OFFSET_BASIS else Mix(Hash(key[..|key| - 1]), key[|key| - 1])
  }

  /** hash(key) mod n. */
  function Slot(key: seq<bv8>, n: nat): (slot: nat)
    requires n > 0
    ensures slot < n
  {
    (Hash(key) as int) % n
  }

  lemma HashPush(key: seq<bv8>, b: bv8)
    ensures Hash(key + [b]) == Mix(Hash(key), b)
  {
    hide Mix;
    assert (key + [b])[..|key|] == key;
  }

  lemma MixedA()
    ensures Mix(0x811c9dc5, 0x61) == 0xe40c292c
  {
  }

  lemma MixedFoobar()
    ensures Mix(0x811c9dc5, 0x66) == 0xe30c2799
    ensures Mix(0xe30c2799, 0x6f) == 0x6222e842
    ensures Mix(0x6222e842, 0x6f) == 0xa9f37ed7
    ensures Mix(0xa9f37ed7, 0x62) == 0x3f5076ef
    ensures Mix(0x3f5076ef, 0x61) == 0x39aaa18a
    ensures Mix(0x39aaa18a, 0x72) == 0xbf9cf968
  {
  }

  /** The published values for the empty string, "a", and "foobar". */
  lemma PublishedValues()
    ensures Hash([]) == 0x811c9dc5
    ensures Hash([0x61]) == 0xe40c292c
    ensures Hash([0x66, 0x6f, 0x6f, 0x62, 0x61, 0x72]) == 0xbf9cf968
  {
    MixedA();
    MixedFoobar();
    hide Mix;
    HashPush([], 0x61);
    assert [] + [0x61] == [0x61];
    var word: seq<bv8> := [0x66, 0x6f, 0x6f, 0x62, 0x61, 0x72];
    HashPush([], 0x66);
    HashPush(word[..1], 0x6f);
    HashPush(word[..2], 0x6f);
    HashPush(word[..3], 0x62);
    HashPush(word[..4], 0x61);
    HashPush(word[..5], 0x72);
    assert word[..1] == [] + [0x66] && word[..2] == word[..1] + [0x6f] && word[..3] == word[..2] + [0x6f];
    assert word[..4] == word[..3] + [0x62] && word[..5] == word[..4] + [0x61] && word == word[..5] + [0x72];
  }
}
