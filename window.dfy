/**
 * The per-chunk window test of `convert`: skip a chunk that ends before
 * the window, stop at a chunk that starts at or after its end, otherwise
 * keep the events inside it.
 */
module Window {
  import opened Wrappers
  import opened Events

  datatype Decision =
    | Skip                       // `continue`: the chunk adds nothing
    | Stop                       // `break`: no further chunk is pulled
    | Keep(events: seq<Event>)   // these events go on to the compositor

  /**
   * The decision for one chunk, with the tests in the order the loop makes
   * them: the last timestamp against `begin`, then the first against `end`,
   * then the four ways the chunk may straddle the window's edges.
   */
  function Filter(begin: Option<nat>, end: Option<nat>, chunk: seq<Event>): (d: Decision)
    requires IsChunk(chunk)
    ensures d.Keep? ==> Subsequence(d.events, chunk) && multiset(d.events) <= multiset(chunk)
    ensures d.Skip? <==> begin.Some? && chunk[|chunk| - 1].t < begin.value
    ensures d.Stop? <==> !d.Skip? && end.Some? && chunk[0].t >= end.value
  {
    var first := chunk[0].t;
    var last := chunk[|chunk| - 1].t;
    if begin.Some? && last < begin.value then Skip
    else if end.Some? && first >= end.value then Stop
    else if begin.Some? && end.Some? && first < begin.value && last >= end.value then
      Keep(Where(chunk, begin, end))
    else if begin.Some? && first < begin.value then
      Keep(Where(chunk, begin, None))
    else if end.Some? && last >= end.value then
      Keep(Where(chunk, None, end))
    else
      SubsequenceRefl(chunk);
      Keep(chunk)
  }

  /**
   * On a sorted chunk the decision selects exactly the events of the
   * window: whatever is kept is the in-window subsequence, and a skipped or
   * stopping chunk has no event in the window.
   */
  lemma FilterSelectsWindow(begin: Option<nat>, end: Option<nat>, chunk: seq<Event>)
    requires IsChunk(chunk) && Sorted(chunk)
    ensures Filter(begin, end, chunk).Keep? ==> Filter(begin, end, chunk).events == Where(chunk, begin, end)
    ensures !Filter(begin, end, chunk).Keep? ==> Where(chunk, begin, end) == []
  {
    var first := chunk[0].t;
    var last := chunk[|chunk| - 1].t;
    var d := Filter(begin, end, chunk);
    if begin.Some? && last < begin.value {
      assert d == Skip;
      ChunkBounds(chunk);
      WhereKeepsNone(chunk, begin, end);
    } else if end.Some? && first >= end.value {
      assert d == Stop;
      ChunkBounds(chunk);
      WhereKeepsNone(chunk, begin, end);
    } else if begin.Some? && end.Some? && first < begin.value && last >= end.value {
      assert d == Keep(Where(chunk, begin, end));
    } else if begin.Some? && first < begin.value {
      assert d == Keep(Where(chunk, begin, None));
      ChunkBounds(chunk);
      WhereAgree(chunk, begin, None, begin, end);
    } else if end.Some? && last >= end.value {
      assert d == Keep(Where(chunk, None, end));
      ChunkBounds(chunk);
      WhereAgree(chunk, None, end, begin, end);
    } else {
      assert d == Keep(chunk);
      ChunkBounds(chunk);
      WhereKeepsAll(chunk, begin, end);
    }
  }

  /** Every timestamp of a sorted chunk lies between its first and its last. */
  lemma ChunkBounds(chunk: seq<Event>)
    requires IsChunk(chunk) && Sorted(chunk)
    ensures forall i :: 0 <= i < |chunk| ==> chunk[0].t <= chunk[i].t <= chunk[|chunk| - 1].t
  {
  }

  /** A chunk already inside the window passes through unchanged. */
  lemma FilterPassesInsideChunk(begin: Option<nat>, end: Option<nat>, chunk: seq<Event>)
    requires IsChunk(chunk) && Sorted(chunk)
    requires begin.None? || begin.value <= chunk[0].t
    requires end.None? || chunk[|chunk| - 1].t < end.value
    ensures Filter(begin, end, chunk) == Keep(chunk)
  {
    assert chunk[0].t <= chunk[|chunk| - 1].t;
  }
}
