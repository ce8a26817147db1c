/** Entity handles (src/entity_id.rs): a slot index and an 8-bit generation. */
module EntityIds {

  const INDEX_MASK: nat := 0xFF_FFFF
  const GEN_MASK: nat := 0xFF

  type Word = n: nat | n < 0x1_0000_0000

  /** A handle seen through its two getters. */
  datatype EntityId = EntityId(index: nat, generation: nat)

  predicate InRange(id: EntityId) {
    id.index <= INDEX_MASK && id.generation <= GEN_MASK
  }

  /** The packed word: `index << 8 | generation`, the index in the high 24 bits. */
  function Pack(id: EntityId): Word
    requires InRange(id)
  {
    id.index * 0x100 + id.generation
  }

  /** The getters: a right shift by eight and a mask of the low eight bits. */
  function Unpack(word: Word): EntityId {
    EntityId(word / 0x100, word % 0x100)
  }

  /** The packed word determines the handle, and every word is the packing of exactly one. */
  lemma PackRoundTrip(id: EntityId, word: Word)
    ensures InRange(id) ==> Unpack(Pack(id)) == id
    ensures InRange(Unpack(word)) && Pack(Unpack(word)) == word
  {
    if InRange(id) {
      assert (id.index * 0x100 + id.generation) / 0x100 == id.index;
    }
  }

  /** The derived order on words is the lexicographic order on (index, generation). */
  lemma PackOrder(a: EntityId, b: EntityId)
    requires InRange(a) && InRange(b)
    ensures Pack(a) < Pack(b) <==>
            a.index < b.index || (a.index == b.index && a.generation < b.generation)
  {
  }
}
