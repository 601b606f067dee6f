/**
 * The event decoder as the core sees it: a generator that yields the
 * chunks of a recording one at a time and cannot be rewound. Re-reading
 * the recording means constructing a new decoder.
 */
module Stream {
  import opened Wrappers
  import opened Events

  class Decoder {
    /** Every chunk the recording holds, in the order the decoder yields them. */
    const chunks: seq<seq<Event>>
    /** How many chunks have been yielded so far. */
    var position: nat

    ghost predicate Valid()
      reads this
    {
      position <= |chunks| && AllChunks(chunks)
    }

    /** The chunks not yet yielded. */
    ghost function Remaining(): seq<seq<Event>>
      reads this
      requires Valid()
    {
      chunks[position..]
    }

    constructor (chunks: seq<seq<Event>>)
      requires AllChunks(chunks)
      ensures Valid() && this.chunks == chunks && position == 0
    {
      this.chunks := chunks;
      position := 0;
    }

    /** Pulls the next chunk, or None once the recording is exhausted. */
    method Next() returns (packet: Option<seq<Event>>)
      requires Valid()
      modifies this
      ensures Valid()
      ensures old(position) < |chunks| ==> packet == Some(chunks[old(position)]) && position == old(position) + 1
      ensures old(position) == |chunks| ==> packet == None && position == old(position)
    {
      if position < |chunks| {
        packet := Some(chunks[position]);
        position := position + 1;
      } else {
        packet := None;
      }
    }
  }
}
