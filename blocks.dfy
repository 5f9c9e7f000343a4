/** A single block of the hash-linked log, seen as a value: its five fields,
    the input its digest is computed from, and the digest function itself.

    The digest in blockchain_simulation.js is SHA-256 (hex) over the string
    `index + previousHash + timestamp + JSON.stringify(data)`. Neither the hash
    nor the serialisation is modelled: both are folded into one total function
    `Hasher` that the rest of the model takes as a parameter, so every result
    holds for ANY such function. The concatenation has no separators, so the
    source's digest can collide across the index, previous-hash and timestamp
    boundaries when two fields change at once. What is assumed, and only where
    tamper detection depends on it, is collision-freedom in one field at a
    time (`PayloadInjective`, `IndexInjective`, `TimestampInjective`): with the
    other three fields fixed, different values of that field give different
    digests. */
module Blocks {

  /** The JSON-like payload a block carries. The chain never looks inside it;
      it only feeds it to the digest. */
  datatype Json =
    | JString(str: string)
    | JNumber(num: int)
    | JObject(members: seq<(string, Json)>)

  /** Everything the digest of a block depends on, in the order the source
      concatenates it: index, previous hash, timestamp, payload. */
  datatype HashInput = HashInput(index: int, previousHash: string, timestamp: string, data: Json)

  /** SHA-256 over the serialised fields, as an arbitrary total function. */
  type Hasher = HashInput -> string

  /** With index, previous hash and timestamp fixed, no two distinct payloads
      share a digest: SHA-256 without collisions over a fixed prefix followed by
      the payload's serialisation. */
  ghost predicate PayloadInjective(h: Hasher) {
    forall x: HashInput, d: Json :: h(x.(data := d)) == h(x) ==> d == x.data
  }

  /** With the other three fields fixed, no two distinct indices share a digest:
      the index's decimal form is the head of a string whose rest is fixed. */
  ghost predicate IndexInjective(h: Hasher) {
    forall x: HashInput, i: int :: h(x.(index := i)) == h(x) ==> i == x.index
  }

  /** With the other three fields fixed, no two distinct timestamps share a
      digest: the timestamp sits between a fixed prefix and a fixed suffix. */
  ghost predicate TimestampInjective(h: Hasher) {
    forall x: HashInput, t: string :: h(x.(timestamp := t)) == h(x) ==> t == x.timestamp
  }

  /** The fields of a block at one moment. */
  datatype BlockValue = BlockValue(
    index: int,
    timestamp: string,
    data: Json,
    previousHash: string,
    hash: string)

  /** The fields a block's digest is computed from; its stored hash is not one of them. */
  function Input(b: BlockValue): (r: HashInput) {
    HashInput(b.index, b.previousHash, b.timestamp, b.data)
  }

  /** What `calculateHash()` returns for a block with these fields. */
  function Recompute(h: Hasher, b: BlockValue): (r: string) {
    h(Input(b))
  }

  /** The stored hash agrees with a recomputation over the current fields. */
  predicate Sealed(h: Hasher, b: BlockValue) {
    b.hash == Recompute(h, b)
  }

  /** The block with its stored hash replaced by a fresh recomputation. */
  function Seal(h: Hasher, b: BlockValue): (r: BlockValue)
    ensures Sealed(h, r)
    ensures Input(r) == Input(b)
  {
    b.(hash := Recompute(h, b))
  }

  /** Replacing a block's payload moves its digest, whatever its stored hash:
      the digest recorded for the original no longer matches the edited block. */
  lemma PayloadEditChangesDigest(h: Hasher, b: BlockValue, d: Json)
    requires PayloadInjective(h)
    requires d != b.data
    ensures Recompute(h, b.(data := d)) != Recompute(h, b)
  {
  }

  /** Replacing a block's index moves its digest. */
  lemma IndexEditChangesDigest(h: Hasher, b: BlockValue, i: int)
    requires IndexInjective(h)
    requires i != b.index
    ensures Recompute(h, b.(index := i)) != Recompute(h, b)
  {
  }

  /** Replacing a block's timestamp moves its digest. */
  lemma TimestampEditChangesDigest(h: Hasher, b: BlockValue, t: string)
    requires TimestampInjective(h)
    requires t != b.timestamp
    ensures Recompute(h, b.(timestamp := t)) != Recompute(h, b)
  {
  }
}
