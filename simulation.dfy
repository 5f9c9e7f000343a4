/** The two classes of blockchain_simulation.js as objects whose fields are
    updated in place: `Block`, whose fields anyone holding it may overwrite,
    and `Blockchain`, which owns an array of blocks. `Blockchain`'s constructor,
    `AddBlock` and `IsChainValid` are proved against the value-level
    definitions of module ChainSpec. */
module Simulation {
  import opened Blocks
  import ChainSpec

  class Block {
    var index: int
    var timestamp: string
    var data: Json
    var previousHash: string
    var hash: string

    /** A new block whose hash is computed at once from its own fields. */
    constructor (h: Hasher, index: int, timestamp: string, data: Json, previousHash: string := "")
      ensures this.index == index && this.timestamp == timestamp && this.data == data
      ensures this.previousHash == previousHash
      ensures Sealed(h, Value())
    {
      this.index := index;
      this.timestamp := timestamp;
      this.data := data;
      this.previousHash := previousHash;
      new;
      hash := CalculateHash(h);
    }

    /** The block's fields at this moment. */
    function Value(): (v: BlockValue)
      reads this
    {
      BlockValue(index, timestamp, data, previousHash, hash)
    }

    /** The digest of the current index, previous hash, timestamp and payload;
        it ignores the stored hash, and agrees with it exactly when the block
        is sealed. */
    function CalculateHash(h: Hasher): (r: string)
      reads this
      ensures r == Recompute(h, Value())
      ensures r == hash <==> Sealed(h, Value())
    {
      Recompute(h, Value())
    }
  }

  class Blockchain {
    /** The digest function every block of this chain is hashed with. */
    const h: Hasher
    var chain: seq<Block>

    /** The chain's blocks as values, in order. */
    function Values(): (vs: seq<BlockValue>)
      reads this, chain
      ensures |vs| == |chain|
      ensures forall i :: 0 <= i < |chain| ==> vs[i] == chain[i].Value()
    {
      seq(|chain|, i requires 0 <= i < |chain| reads this, chain => chain[i].Value())
    }

    /** A chain holding exactly the fixed genesis block, and therefore valid. */
    constructor (h: Hasher)
      ensures this.h == h
      ensures |chain| == 1 && fresh(chain[0])
      ensures Values() == [ChainSpec.Genesis(h)]
      ensures ChainSpec.Valid(h, Values())
    {
      this.h := h;
      new;
      var genesis := CreateGenesisBlock();
      chain := [genesis];
    }

    /** A new block 0 with the well-known timestamp, payload and "0" as its
        previous hash, sealed under this chain's digest. */
    method CreateGenesisBlock() returns (g: Block)
      ensures fresh(g)
      ensures g.index == 0 && g.timestamp == "01/01/2024" && g.data == JString("Genesis Block")
      ensures g.previousHash == "0" && Sealed(h, g.Value())
      ensures g.Value() == ChainSpec.Genesis(h)
    {
      g := new Block(h, 0, "01/01/2024", JString("Genesis Block"), "0");
    }

    /** The tail of a non-empty chain, which the next block will point at. */
    function GetLatestBlock(): (b: Block)
      requires |chain| >= 1
      reads this
      ensures b in chain && b == chain[|chain| - 1]
    {
      chain[|chain| - 1]
    }

    /** Appends `newBlock` after overwriting its previous hash with the tail's
        hash and recomputing its own hash. Index, timestamp and payload are
        kept as given and not checked. The block is the caller's object: if it
        is already in the chain, that element changes too, so the exact
        abstract effect is stated for a block not yet in the chain. */
    method AddBlock(newBlock: Block)
      requires |chain| >= 1
      modifies this`chain, newBlock
      ensures chain == old(chain) + [newBlock]
      ensures newBlock.index == old(newBlock.index)
      ensures newBlock.timestamp == old(newBlock.timestamp)
      ensures newBlock.data == old(newBlock.data)
      ensures newBlock.previousHash == old(GetLatestBlock().hash)
      ensures Sealed(h, newBlock.Value())
      ensures forall i :: 0 <= i < |old(chain)| && old(chain[i]) != newBlock ==>
        chain[i].Value() == old(chain[i].Value())
      ensures newBlock !in old(chain) ==>
        Values() == ChainSpec.AddBlock(h, old(Values()), old(newBlock.Value()))
      ensures newBlock !in old(chain) ==>
        (ChainSpec.Valid(h, Values()) <==> ChainSpec.Valid(h, old(Values())))
    {
      ghost var before := Values();
      ghost var offered := newBlock.Value();
      newBlock.previousHash := GetLatestBlock().hash;
      newBlock.hash := newBlock.CalculateHash(h);
      chain := chain + [newBlock];
      if newBlock !in old(chain) {
        assert Values() == ChainSpec.AddBlock(h, before, offered);
        ChainSpec.AddBlockPreservesValid(h, before, offered);
      }
    }

    /** Walks blocks 1 .. n-1 and stops at the first one whose stored hash is
        stale or whose previous hash does not name its predecessor's hash. */
    method IsChainValid() returns (valid: bool)
      ensures valid == ChainSpec.Valid(h, Values())
    {
      var i := 1;
      while i < |chain|
        invariant 1 <= i
        invariant forall j :: 1 <= j < i && j < |chain| ==> ChainSpec.Linked(h, Values(), j)
      {
        var currentBlock := chain[i];
        var previousBlock := chain[i - 1];
        if currentBlock.hash != currentBlock.CalculateHash(h) {
          assert !ChainSpec.Linked(h, Values(), i);
          return false;
        }
        if currentBlock.previousHash != previousBlock.hash {
          assert !ChainSpec.Linked(h, Values(), i);
          return false;
        }
        i := i + 1;
      }
      return true;
    }
  }

  /** The payload `{ amount: n }` of the demo script. */
  function Amount(n: int): (j: Json) {
    JObject([("amount", JNumber(n))])
  }

  /** The first half of the demo script: a fresh chain and two honest appends. */
  method HonestDemoChain(h: Hasher) returns (myCoin: Blockchain)
    ensures fresh(myCoin) && myCoin.h == h
    ensures |myCoin.chain| == 3 && fresh(myCoin.chain[1]) && fresh(myCoin.chain[2])
    ensures myCoin.chain[0] != myCoin.chain[1] && myCoin.chain[0] != myCoin.chain[2]
    ensures myCoin.chain[1] != myCoin.chain[2]
    ensures myCoin.Values()[0] == ChainSpec.Genesis(h)
    ensures myCoin.chain[1].index == 1 && myCoin.chain[1].timestamp == "02/10/2024"
    ensures myCoin.chain[1].data == Amount(4)
    ensures myCoin.chain[2].index == 2 && myCoin.chain[2].timestamp == "03/10/2024"
    ensures myCoin.chain[2].data == Amount(10)
    ensures ChainSpec.Valid(h, myCoin.Values())
  {
    myCoin := new Blockchain(h);
    var first := new Block(h, 1, "02/10/2024", Amount(4));
    assert first !in myCoin.chain;
    myCoin.AddBlock(first);
    var second := new Block(h, 2, "03/10/2024", Amount(10));
    assert second !in myCoin.chain;
    myCoin.AddBlock(second);
  }

  /** The demo script: two honest appends give a valid chain; rewriting block 1's
      payload and recomputing only its own hash is then detected. */
  method Demo(h: Hasher) returns (before: bool, after: bool)
    requires PayloadInjective(h)
    ensures before && !after
  {
    var myCoin := HonestDemoChain(h);
    before := myCoin.IsChainValid();

    ghost var honest := myCoin.Values();
    var tampered := myCoin.chain[1];
    tampered.data := Amount(100);
    tampered.hash := tampered.CalculateHash(h);
    assert myCoin.Values() == ChainSpec.EditDataAndReseal(h, honest, 1, Amount(100));
    ChainSpec.ResealedEditDetected(h, honest, 1, Amount(100));
    after := myCoin.IsChainValid();
  }
}
