/**
 * `find_begin_and_end`: the first timestamp of a recording and, when asked
 * for, one past its last timestamp.
 */
module Bounds {
  import opened Wrappers
  import opened Events
  import opened Stream

  /** The first timestamp of the stream, or 0 when it has no chunk. */
  function StreamBegin(stream: seq<seq<Event>>): nat
    requires AllChunks(stream)
  {
    if stream == [] then 0 else stream[0][0].t
  }

  /** One past the last timestamp of the stream, or 1 when it has no chunk. */
  function StreamEnd(stream: seq<seq<Event>>): nat
    requires AllChunks(stream)
  {
    if stream == [] then 1 else var last := stream[|stream| - 1]; last[|last| - 1].t + 1
  }

  /**
   * With `findEnd`, pulls every remaining chunk and returns (first
   * timestamp, last timestamp + 1); without it, pulls at most one chunk and
   * returns (its first timestamp, None). An exhausted decoder gives begin 0.
   */
  method FindBeginAndEnd(decoder: Decoder, findEnd: bool) returns (begin: nat, end: Option<nat>)
    requires decoder.Valid()
    modifies decoder
    ensures decoder.Valid()
    ensures begin == StreamBegin(old(decoder.Remaining()))
    ensures end == if findEnd then Some(StreamEnd(old(decoder.Remaining()))) else None
    ensures findEnd ==> decoder.position == |decoder.chunks|
    ensures !findEnd ==> decoder.position == if old(decoder.position) < |decoder.chunks| then old(decoder.position) + 1 else old(decoder.position)
  {
    var first: Option<nat> := None;
    var last: Option<nat> := None;
    if findEnd {
      while true
        invariant decoder.Valid() && old(decoder.position) <= decoder.position
        invariant var seen := decoder.chunks[old(decoder.position)..decoder.position];
          && first == (if seen == [] then None else Some(seen[0][0].t))
          && last == (if seen == [] then None else Some(seen[|seen| - 1][|seen[|seen| - 1]| - 1].t))
        decreases |decoder.chunks| - decoder.position
      {
        ghost var before := decoder.position;
        var packet := decoder.Next();
        if packet.None? {
          break;
        }
        var chunk := packet.value;
        assert decoder.chunks[old(decoder.position)..decoder.position]
            == decoder.chunks[old(decoder.position)..before] + [chunk];
        if first.None? {
          first := Some(chunk[0].t);
        }
        last := Some(chunk[|chunk| - 1].t);
      }
      assert decoder.chunks[old(decoder.position)..decoder.position] == old(decoder.Remaining());
      begin := if first.None? then 0 else first.value;
      var e := if last.None? then begin else last.value;
      end := Some(e + 1);
    } else {
      var packet := decoder.Next();
      begin := if packet.None? then 0 else packet.value[0].t;
      end := None;
    }
  }

  /**
   * On a sorted stream the resolved bounds form a non-empty window that
   * holds every event of the stream.
   */
  lemma ResolvedWindowHoldsStream(stream: seq<seq<Event>>)
    requires AllChunks(stream) && Sorted(Flatten(stream))
    ensures StreamBegin(stream) < StreamEnd(stream)
    ensures Where(Flatten(stream), Some(StreamBegin(stream)), Some(StreamEnd(stream))) == Flatten(stream)
  {
    var all := Flatten(stream);
    if stream != [] {
      FlattenEnds(stream);
      assert forall i :: 0 <= i < |all| ==> all[0].t <= all[i].t <= all[|all| - 1].t;
    }
    WhereKeepsAll(all, Some(StreamBegin(stream)), Some(StreamEnd(stream)));
  }

  /** The flattened stream starts with the first chunk's first event and ends with the last chunk's last. */
  lemma {:induction false} FlattenEnds(stream: seq<seq<Event>>)
    requires AllChunks(stream) && stream != []
    ensures var all := Flatten(stream); var lastChunk := stream[|stream| - 1];
      |all| > 0 && all[0] == stream[0][0] && all[|all| - 1] == lastChunk[|lastChunk| - 1]
  {
    if |stream| > 1 {
      FlattenEnds(stream[1..]);
    }
  }
}
