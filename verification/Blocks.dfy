/** Blocks and their ids. An id embeds the block's number, and its digest stands for the whole block. */
module Blocks {

  datatype Digest = RawDigest(n: nat) | DigestOf(block: Block)

  datatype BlockId = BlockId(num: nat, digest: Digest)

  datatype Block = Block(previous: BlockId, body: seq<char>) {
    function Num(): nat {
      previous.num + 1
    }

    function Id(): BlockId {
      BlockId(Num(), DigestOf(this))
    }
  }

  /** The id that the first block names as its predecessor. */
  const NULL_ID := BlockId(0, RawDigest(0))
}
