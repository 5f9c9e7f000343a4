/** The chain as a sequence of block values: what `isChainValid()` accepts,
    what `addBlock()` produces, and the lemmas relating the two. The classes in
    module Simulation are proved against these definitions. */
module ChainSpec {
  import opened Blocks

  /** The fixed first block that every new chain starts from. */
  function Genesis(h: Hasher): (g: BlockValue) {
    Seal(h, BlockValue(0, "01/01/2024", JString("Genesis Block"), "0", ""))
  }

  /** Block i (not the genesis) passes both checks of the validation loop:
      its stored hash matches a recomputation, and it points at its predecessor. */
  predicate Linked(h: Hasher, s: seq<BlockValue>, i: int)
    requires 1 <= i < |s|
  {
    Sealed(h, s[i]) && s[i].previousHash == s[i - 1].hash
  }

  /** Every block after the genesis is linked. The genesis block's own hash
      is never checked, and a chain of zero or one block is valid. */
  predicate Valid(h: Hasher, s: seq<BlockValue>) {
    forall i :: 1 <= i < |s| ==> Linked(h, s, i)
  }

  /** The chain after `addBlock(b)`: the caller's index, timestamp and payload,
      re-linked to the current tail and re-sealed; whatever previous hash and
      hash `b` carried are discarded, and its index is not checked. */
  function AddBlock(h: Hasher, s: seq<BlockValue>, b: BlockValue): (r: seq<BlockValue>)
    requires |s| >= 1
    ensures |r| == |s| + 1 && r[..|s|] == s
    ensures r[|s|].index == b.index && r[|s|].timestamp == b.timestamp && r[|s|].data == b.data
    ensures r[|s|].previousHash == s[|s| - 1].hash
    ensures Sealed(h, r[|s|])
  {
    s + [Seal(h, b.(previousHash := s[|s| - 1].hash))]
  }

  /** Appending never changes whether a chain is valid: the new tail is linked
      by construction, and nothing before it moves. */
  lemma AddBlockPreservesValid(h: Hasher, s: seq<BlockValue>, b: BlockValue)
    requires |s| >= 1
    ensures Valid(h, AddBlock(h, s, b)) <==> Valid(h, s)
  {
    var r := AddBlock(h, s, b);
    if Valid(h, s) {
      forall i | 1 <= i < |r| ensures Linked(h, r, i) {
        if i < |s| {
          assert Linked(h, s, i);
        }
      }
    }
    if Valid(h, r) {
      forall i | 1 <= i < |s| ensures Linked(h, s, i) {
        assert Linked(h, r, i);
      }
    }
  }

  /** Two blocks offered to `addBlock` that agree on index, timestamp and
      payload produce the same chain. */
  lemma AddBlockIgnoresCarriedHashes(h: Hasher, s: seq<BlockValue>, b: BlockValue, c: BlockValue)
    requires |s| >= 1
    requires b.index == c.index && b.timestamp == c.timestamp && b.data == c.data
    ensures AddBlock(h, s, b) == AddBlock(h, s, c)
  {
  }

  /** The chain a fresh `Blockchain` reaches after `addBlock` of each of `bs` in turn. */
  function Build(h: Hasher, bs: seq<BlockValue>): (r: seq<BlockValue>)
    decreases |bs|
  {
    if bs == [] then [Genesis(h)]
    else AddBlock(h, Build(h, bs[..|bs| - 1]), bs[|bs| - 1])
  }

  /** Any chain made only by the constructor and `addBlock` is valid, has one
      block per append after the genesis, and keeps each caller's index,
      timestamp and payload in order. */
  lemma {:induction false} BuildValid(h: Hasher, bs: seq<BlockValue>)
    ensures |Build(h, bs)| == |bs| + 1
    ensures Build(h, bs)[0] == Genesis(h)
    ensures Valid(h, Build(h, bs))
    ensures forall i :: 0 <= i < |bs| ==>
      Build(h, bs)[i + 1].index == bs[i].index &&
      Build(h, bs)[i + 1].timestamp == bs[i].timestamp &&
      Build(h, bs)[i + 1].data == bs[i].data
  {
    if bs == [] {
      assert Valid(h, [Genesis(h)]);
    } else {
      var init := bs[..|bs| - 1];
      BuildValid(h, init);
      AddBlockPreservesValid(h, Build(h, init), bs[|bs| - 1]);
      var r := Build(h, bs);
      assert r[..|init| + 1] == Build(h, init);
      forall i | 0 <= i < |bs|
        ensures r[i + 1].index == bs[i].index && r[i + 1].timestamp == bs[i].timestamp && r[i + 1].data == bs[i].data
      {
        if i < |init| {
          assert r[i + 1] == Build(h, init)[i + 1];
          assert bs[i] == init[i];
        }
      }
    }
  }

  /** Block k with its payload replaced and nothing else changed: its stored
      hash now covers a payload it no longer holds. */
  function EditData(s: seq<BlockValue>, k: int, d: Json): (r: seq<BlockValue>)
    requires 0 <= k < |s|
    ensures |r| == |s| && r[k].data == d
    ensures r[k].index == s[k].index && r[k].timestamp == s[k].timestamp
    ensures r[k].previousHash == s[k].previousHash && r[k].hash == s[k].hash
    ensures forall i :: 0 <= i < |s| && i != k ==> r[i] == s[i]
  {
    s[k := s[k].(data := d)]
  }

  /** Block k with its payload replaced and its own hash recomputed to cover
      the edit, as the demo script does to block 1. */
  function EditDataAndReseal(h: Hasher, s: seq<BlockValue>, k: int, d: Json): (r: seq<BlockValue>)
    requires 0 <= k < |s|
    ensures |r| == |s| && r[k].data == d && Sealed(h, r[k])
    ensures r[k].index == s[k].index && r[k].timestamp == s[k].timestamp
    ensures r[k].previousHash == s[k].previousHash
    ensures forall i :: 0 <= i < |s| && i != k ==> r[i] == s[i]
  {
    s[k := Seal(h, s[k].(data := d))]
  }

  /** Changing a non-genesis block's payload without recomputing its hash is
      caught by the first check of the validation loop. */
  lemma EditDetected(h: Hasher, s: seq<BlockValue>, k: int, d: Json)
    requires PayloadInjective(h) && Valid(h, s)
    requires 1 <= k < |s| && d != s[k].data
    ensures !Valid(h, EditData(s, k, d))
  {
    var r := EditData(s, k, d);
    assert Linked(h, s, k);
    PayloadEditChangesDigest(h, s[k], d);
    assert !Linked(h, r, k);
  }

  /** Changing a non-genesis block's payload and recomputing its hash is
      caught at its successor, whose previous hash still names the old digest. */
  lemma ResealedEditDetected(h: Hasher, s: seq<BlockValue>, k: int, d: Json)
    requires PayloadInjective(h) && Valid(h, s)
    requires 1 <= k < |s| - 1 && d != s[k].data
    ensures !Valid(h, EditDataAndReseal(h, s, k, d))
  {
    var r := EditDataAndReseal(h, s, k, d);
    assert Linked(h, s, k) && Linked(h, s, k + 1);
    PayloadEditChangesDigest(h, s[k], d);
    assert !Linked(h, r, k + 1);
  }

  /** Changing only a non-genesis block's index, without recomputing its hash,
      is caught by the first check of the validation loop. */
  lemma IndexEditDetected(h: Hasher, s: seq<BlockValue>, k: int, i: int)
    requires IndexInjective(h) && Valid(h, s)
    requires 1 <= k < |s| && i != s[k].index
    ensures !Valid(h, s[k := s[k].(index := i)])
  {
    var r := s[k := s[k].(index := i)];
    assert Linked(h, s, k);
    IndexEditChangesDigest(h, s[k], i);
    assert !Linked(h, r, k);
  }

  /** Changing only a non-genesis block's timestamp, without recomputing its
      hash, is caught by the first check of the validation loop. */
  lemma TimestampEditDetected(h: Hasher, s: seq<BlockValue>, k: int, t: string)
    requires TimestampInjective(h) && Valid(h, s)
    requires 1 <= k < |s| && t != s[k].timestamp
    ensures !Valid(h, s[k := s[k].(timestamp := t)])
  {
    var r := s[k := s[k].(timestamp := t)];
    assert Linked(h, s, k);
    TimestampEditChangesDigest(h, s[k], t);
    assert !Linked(h, r, k);
  }

  /** Changing only a non-genesis block's previous hash is caught by the link
      check, whatever the digest function. */
  lemma PreviousHashEditDetected(h: Hasher, s: seq<BlockValue>, k: int, p: string)
    requires Valid(h, s)
    requires 1 <= k < |s| && p != s[k].previousHash
    ensures !Valid(h, s[k := s[k].(previousHash := p)])
  {
    var r := s[k := s[k].(previousHash := p)];
    assert Linked(h, s, k);
    assert !Linked(h, r, k);
  }

  /** Detection needs a successor: an edit to the last block that recomputes
      its hash leaves the chain valid. */
  lemma ResealedTailEditUndetected(h: Hasher, s: seq<BlockValue>, d: Json)
    requires Valid(h, s) && |s| >= 1
    ensures Valid(h, EditDataAndReseal(h, s, |s| - 1, d))
  {
    var r := EditDataAndReseal(h, s, |s| - 1, d);
    forall i | 1 <= i < |r| ensures Linked(h, r, i) {
      assert Linked(h, s, i);
    }
  }

  /** The genesis block's own hash is never recomputed: replacing it by any
      block with the same stored hash does not change validity. */
  lemma GenesisNeverRecomputed(h: Hasher, s: seq<BlockValue>, g: BlockValue)
    requires |s| >= 1 && g.hash == s[0].hash
    ensures Valid(h, s[0 := g]) <==> Valid(h, s)
  {
    var r := s[0 := g];
    if Valid(h, s) {
      forall i | 1 <= i < |r| ensures Linked(h, r, i) {
        assert Linked(h, s, i);
      }
    }
    if Valid(h, r) {
      forall i | 1 <= i < |s| ensures Linked(h, s, i) {
        assert Linked(h, r, i);
      }
    }
  }
}
