/** The nonce allocator and the AEAD together: what one-time nonces give the stream inputs. */
module Composition {
  import opened Foundations
  import opened Frames
  import opened Aead
  import opened NonceProtocol

  /**
   * Messages sealed under the nonces that any processes were handed, in any interleaving and with any
   * deaths: two stream blocks with the same C1 input are the same block of the same message.
   */
  lemma AllocatedStreamInputsNeverRepeat(s: System, run: seq<Event>, sizes: seq<TagSize>, lengths: seq<u64>,
                                         u: BlockUse, w: BlockUse)
    requires Initial(s) && Possible(s, run)
    requires |sizes| == |lengths| == |After(s, run).returned| && IsUsed(lengths, u) && IsUsed(lengths, w)
    requires InputOf(After(s, run).returned, sizes, lengths, u) == InputOf(After(s, run).returned, sizes, lengths, w)
    ensures u == w
  {
    hide *;
    AllocatorIsSafe(s, run);
    StreamInputsNeverRepeat(After(s, run).returned, sizes, lengths, u, w);
  }
}
