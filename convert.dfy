/**
 * The compositing loop of `convert`: pull chunks from the decoder, filter
 * each against the window, colour the events that remain and blend them
 * into a canvas that starts filled with the background colour.
 */
module Convert {
  import opened Wrappers
  import opened Events
  import opened Stream
  import opened Window
  import opened Compositor

  /**
   * The event batches the loop hands to `stack`, in order: one per kept
   * chunk, none from a skipped chunk, and nothing from the chunk that stops
   * the loop or any chunk after it.
   */
  function Kept(begin: Option<nat>, end: Option<nat>, stream: seq<seq<Event>>): seq<seq<Event>>
    requires AllChunks(stream)
  {
    if stream == [] then []
    else match Filter(begin, end, stream[0])
      case Skip => Kept(begin, end, stream[1..])
      case Stop => []
      case Keep(events) => [events] + Kept(begin, end, stream[1..])
  }

  /** How many chunks the loop pulls from the decoder: up to and including the one that stops it. */
  function Pulled(begin: Option<nat>, end: Option<nat>, stream: seq<seq<Event>>): nat
    requires AllChunks(stream)
  {
    if stream == [] then 0
    else if Filter(begin, end, stream[0]).Stop? then 1
    else 1 + Pulled(begin, end, stream[1..])
  }

  /** What one chunk at the head of the stream contributes to `Kept` and `Pulled`. */
  lemma KeptCons(begin: Option<nat>, end: Option<nat>, chunk: seq<Event>, later: seq<seq<Event>>)
    requires IsChunk(chunk) && AllChunks(later)
    ensures AllChunks([chunk] + later)
    ensures Kept(begin, end, [chunk] + later) == match Filter(begin, end, chunk)
      case Skip => Kept(begin, end, later)
      case Stop => []
      case Keep(events) => [events] + Kept(begin, end, later)
    ensures Pulled(begin, end, [chunk] + later) == if Filter(begin, end, chunk).Stop? then 1 else 1 + Pulled(begin, end, later)
  {
    assert ([chunk] + later)[0] == chunk && ([chunk] + later)[1..] == later;
  }

  /** The (x, y) rows of a batch of events. */
  function CoordsOf(events: seq<Event>): (coords: seq<(int, int)>)
    ensures |coords| == |events|
  {
    seq(|events|, i requires 0 <= i < |events| => (events[i].x as int, events[i].y as int))
  }

  /** The colour rows of a batch of events; `colourOf` is the colormap applied to the time mapping. */
  function ColoursOf(events: seq<Event>, colourOf: nat -> Colour): (colours: seq<Colour>)
    ensures |colours| == |events|
  {
    seq(|events|, i requires 0 <= i < |events| => colourOf(events[i].t))
  }

  /** The value of one channel of cell (x, y) after blending `events` onto a background. */
  function Painted(background: Colour, events: seq<Event>, colourOf: nat -> Colour, alpha: real, x: int, y: int, c: nat): real
    requires c < 4
  {
    FoldOver(Channel(background, c), Hits(CoordsOf(events), ColoursOf(events, colourOf), x, y, c), alpha)
  }

  /** Every cell of `image` holds the blend of `events` onto the background. */
  ghost predicate Shows(image: array3<real>, background: Colour, events: seq<Event>, colourOf: nat -> Colour, alpha: real)
    reads image
  {
    && image.Length2 == 4
    && forall x, y, c :: 0 <= x < image.Length0 && 0 <= y < image.Length1 && 0 <= c < 4 ==>
      image[x, y, c] == Painted(background, events, colourOf, alpha, x, y, c)
  }

  /** Every event handed to `stack` lies on the canvas. */
  predicate OnCanvas(events: seq<Event>, width: nat, height: nat) {
    forall i :: 0 <= i < |events| ==> events[i].x < width && events[i].y < height
  }

  /**
   * Renders the remaining chunks of `decoder` into a fresh width×height×4
   * canvas. Each cell ends as the in-order blend of the colours of the kept
   * events at that cell onto the background. An alpha outside ]0, 1] fails
   * at the first call to `stack`, before anything is painted; if no chunk
   * reaches `stack`, it is never checked.
   */
  method Convert(begin: Option<nat>, end: Option<nat>, width: nat, height: nat, decoder: Decoder,
                 colourOf: nat -> Colour, alpha: real, background: Colour)
    returns (image: array3<real>, err: Option<StackError>)
    requires decoder.Valid()
    requires OnCanvas(Flatten(Kept(begin, end, decoder.Remaining())), width, height)
    modifies decoder
    ensures fresh(image) && image.Length0 == width && image.Length1 == height && image.Length2 == 4
    ensures decoder.Valid()
    ensures err == if Kept(begin, end, old(decoder.Remaining())) != [] && !(0.0 < alpha <= 1.0) then Some(AlphaRange) else None
    ensures err.None? ==> decoder.position == old(decoder.position) + Pulled(begin, end, old(decoder.Remaining()))
    ensures Shows(image, background, if err.None? then Flatten(Kept(begin, end, old(decoder.Remaining()))) else [], colourOf, alpha)
  {
    image := new real[width, height, 4]((x: int, y: int, c: int) requires 0 <= c < 4 => Channel(background, c));
    err := Composite(begin, end, decoder, image, colourOf, alpha, background);
  }

  /** The `for packet in decoder` loop of `convert`, painting onto a canvas that shows the background. */
  method Composite(begin: Option<nat>, end: Option<nat>, decoder: Decoder, image: array3<real>,
                   colourOf: nat -> Colour, alpha: real, background: Colour)
    returns (err: Option<StackError>)
    requires decoder.Valid()
    requires OnCanvas(Flatten(Kept(begin, end, decoder.Remaining())), image.Length0, image.Length1)
    requires Shows(image, background, [], colourOf, alpha)
    modifies decoder, image
    ensures decoder.Valid()
    ensures err == if Kept(begin, end, old(decoder.Remaining())) != [] && !(0.0 < alpha <= 1.0) then Some(AlphaRange) else None
    ensures err.None? ==> decoder.position == old(decoder.position) + Pulled(begin, end, old(decoder.Remaining()))
    ensures Shows(image, background, if err.None? then Flatten(Kept(begin, end, old(decoder.Remaining()))) else [], colourOf, alpha)
  {
    err := None;
    ghost var stream := decoder.Remaining();
    ghost var done: seq<seq<Event>> := [];
    while true
      invariant decoder.Valid() && old(decoder.position) <= decoder.position
      invariant err == None
      invariant Kept(begin, end, stream) == done + Kept(begin, end, decoder.Remaining())
      invariant Pulled(begin, end, stream) == decoder.position - old(decoder.position) + Pulled(begin, end, decoder.Remaining())
      invariant done != [] ==> 0.0 < alpha <= 1.0
      invariant Shows(image, background, Flatten(done), colourOf, alpha)
      decreases |decoder.chunks| - decoder.position
    {
      var decision := PullNext(begin, end, decoder, image.Length0, image.Length1, stream, done, old(decoder.position));
      if decision.None? || decision.value.Stop? {
        break;
      }
      if decision.value.Skip? {
        continue;
      }
      var events := decision.value.events;
      var result := StackEvents(image, events, colourOf, alpha, background, Flatten(done));
      if result.Some? {
        assert done == [];
        err := result;
        return;
      }
      done := done + [events];
    }
    assert Kept(begin, end, stream) == done;
  }

  /**
   * One pass of `for packet in decoder`: pull the next chunk, if any, and
   * make the window test on it. Keeps the split of `Kept` and `Pulled` of
   * the whole stream into what the loop has done and what remains.
   */
  method PullNext(begin: Option<nat>, end: Option<nat>, decoder: Decoder, width: nat, height: nat,
                  ghost stream: seq<seq<Event>>, ghost done: seq<seq<Event>>, ghost start: nat)
    returns (decision: Option<Decision>)
    requires decoder.Valid() && start <= decoder.position && AllChunks(stream)
    requires Kept(begin, end, stream) == done + Kept(begin, end, decoder.Remaining())
    requires Pulled(begin, end, stream) == decoder.position - start + Pulled(begin, end, decoder.Remaining())
    requires OnCanvas(Flatten(Kept(begin, end, stream)), width, height)
    modifies decoder
    ensures decoder.Valid()
    ensures decision.None? ==> decoder.position == old(decoder.position)
    ensures decision.Some? ==> decoder.position == old(decoder.position) + 1
    ensures decision.None? || decision.value.Stop? ==>
      Kept(begin, end, stream) == done && Pulled(begin, end, stream) == decoder.position - start
    ensures decision.Some? && decision.value.Skip? ==>
      && Kept(begin, end, stream) == done + Kept(begin, end, decoder.Remaining())
      && Pulled(begin, end, stream) == decoder.position - start + Pulled(begin, end, decoder.Remaining())
    ensures decision.Some? && decision.value.Keep? ==>
      var events := decision.value.events;
      && Kept(begin, end, stream) == (done + [events]) + Kept(begin, end, decoder.Remaining())
      && Pulled(begin, end, stream) == decoder.position - start + Pulled(begin, end, decoder.Remaining())
      && OnCanvas(events, width, height)
      && Flatten(done + [events]) == Flatten(done) + events
  {
    ghost var rest := decoder.Remaining();
    ghost var pulled := decoder.position - start;
    var packet := decoder.Next();
    if packet.None? {
      assert rest == [] && Kept(begin, end, rest) == [];
      return None;
    }
    var chunk := packet.value;
    assert rest == [chunk] + decoder.Remaining();
    Advance(begin, end, stream, done, pulled, chunk, decoder.Remaining(), width, height);
    decision := Some(Filter(begin, end, chunk));
  }

  /**
   * The bookkeeping of one pass of the loop: how `Kept` and `Pulled` of the
   * whole stream split around the chunk just pulled.
   */
  lemma Advance(begin: Option<nat>, end: Option<nat>, stream: seq<seq<Event>>, done: seq<seq<Event>>, pulled: nat,
                chunk: seq<Event>, later: seq<seq<Event>>, width: nat, height: nat)
    requires AllChunks(stream) && IsChunk(chunk) && AllChunks(later)
    requires Kept(begin, end, stream) == done + Kept(begin, end, [chunk] + later)
    requires Pulled(begin, end, stream) == pulled + Pulled(begin, end, [chunk] + later)
    requires OnCanvas(Flatten(Kept(begin, end, stream)), width, height)
    ensures Filter(begin, end, chunk).Skip? ==>
      Kept(begin, end, stream) == done + Kept(begin, end, later) && Pulled(begin, end, stream) == pulled + 1 + Pulled(begin, end, later)
    ensures Filter(begin, end, chunk).Stop? ==>
      Kept(begin, end, stream) == done && Pulled(begin, end, stream) == pulled + 1
    ensures Filter(begin, end, chunk).Keep? ==>
      var events := Filter(begin, end, chunk).events;
      && Kept(begin, end, stream) == (done + [events]) + Kept(begin, end, later)
      && Pulled(begin, end, stream) == pulled + 1 + Pulled(begin, end, later)
      && OnCanvas(events, width, height)
      && Flatten(done + [events]) == Flatten(done) + events
  {
    KeptCons(begin, end, chunk, later);
    var d := Filter(begin, end, chunk);
    if d.Keep? {
      var events := d.events;
      var rest := Kept(begin, end, later);
      assert done + ([events] + rest) == (done + [events]) + rest;
      OnCanvasMiddle(done, events, rest, width, height);
      FlattenAppend(done, [events]);
      assert Flatten([events]) == events;
    }
  }

  /**
   * One chunk's call to `stack`: the kept events become an (n, 2) coordinate
   * array and an (n, 4) colour array, which are blended into `image`.
   */
  method StackEvents(image: array3<real>, events: seq<Event>, colourOf: nat -> Colour, alpha: real,
                     ghost background: Colour, ghost before: seq<Event>)
    returns (err: Option<StackError>)
    requires image.Length2 == 4 && OnCanvas(events, image.Length0, image.Length1)
    requires Shows(image, background, before, colourOf, alpha)
    modifies image
    ensures err == if 0.0 < alpha <= 1.0 then None else Some(AlphaRange)
    ensures err.Some? ==> unchanged(image)
    ensures err.None? ==> Shows(image, background, before + events, colourOf, alpha)
  {
    var xy := new U16[|events|, 2]((i: int, j: int) requires 0 <= i < |events| => if j == 0 then events[i].x else events[i].y);
    var colours := new real[|events|, 4]((i: int, c: int) requires 0 <= i < |events| && 0 <= c < 4 => Channel(colourOf(events[i].t), c));
    assert Coords(xy) == CoordsOf(events);
    assert ColourRows(colours) == ColoursOf(events, colourOf) by {
      forall i | 0 <= i < |events| ensures ColourRows(colours)[i] == ColoursOf(events, colourOf)[i] {
        var col := colourOf(events[i].t);
        assert ColourRows(colours)[i] == Colour(Channel(col, 0), Channel(col, 1), Channel(col, 2), Channel(col, 3));
      }
    }
    err := Stack(image, xy, colours, alpha);
    if err.None? {
      forall x, y, c | 0 <= x < image.Length0 && 0 <= y < image.Length1 && 0 <= c < 4
        ensures image[x, y, c] == Painted(background, before + events, colourOf, alpha, x, y, c)
      {
        PaintedAppend(background, before, events, colourOf, alpha, x, y, c);
      }
    }
  }

  /** The events of a batch in the middle of a list of batches are among the flattened events. */
  lemma OnCanvasMiddle(done: seq<seq<Event>>, events: seq<Event>, later: seq<seq<Event>>, width: nat, height: nat)
    requires OnCanvas(Flatten(done + ([events] + later)), width, height)
    ensures OnCanvas(events, width, height)
  {
    var all := Flatten(done + ([events] + later));
    var prefix := Flatten(done);
    assert all == prefix + (events + Flatten(later)) by {
      FlattenAppend(done, [events] + later);
      FlattenAppend([events], later);
      assert Flatten([events]) == events;
    }
    forall i | 0 <= i < |events| ensures events[i].x < width && events[i].y < height {
      assert all[|prefix| + i] == events[i];
    }
  }

  /** Painting `a` and then `b` is painting `a + b`. */
  lemma PaintedAppend(background: Colour, a: seq<Event>, b: seq<Event>, colourOf: nat -> Colour, alpha: real, x: int, y: int, c: nat)
    requires c < 4
    ensures Painted(background, a + b, colourOf, alpha, x, y, c)
      == FoldOver(Painted(background, a, colourOf, alpha, x, y, c), Hits(CoordsOf(b), ColoursOf(b, colourOf), x, y, c), alpha)
  {
    assert CoordsOf(a + b) == CoordsOf(a) + CoordsOf(b);
    assert ColoursOf(a + b, colourOf) == ColoursOf(a, colourOf) + ColoursOf(b, colourOf);
    HitsAppend(CoordsOf(a), ColoursOf(a, colourOf), CoordsOf(b), ColoursOf(b, colourOf), x, y, c);
    FoldOverAppend(Channel(background, c), Hits(CoordsOf(a), ColoursOf(a, colourOf), x, y, c), Hits(CoordsOf(b), ColoursOf(b, colourOf), x, y, c), alpha);
  }

  /**
   * On a sorted stream the events the loop hands to `stack` are exactly the
   * events of the stream inside the window, in stream order: none outside
   * the window gets through, none inside it is dropped, none is repeated.
   */
  lemma {:induction false} KeptIsWindow(begin: Option<nat>, end: Option<nat>, stream: seq<seq<Event>>)
    requires AllChunks(stream) && Sorted(Flatten(stream))
    ensures Flatten(Kept(begin, end, stream)) == Where(Flatten(stream), begin, end)
  {
    if stream != [] {
      var chunk := stream[0];
      var later := stream[1..];
      assert stream == [chunk] + later;
      assert Flatten(stream) == chunk + Flatten(later);
      KeptCons(begin, end, chunk, later);
      SortedSplit(chunk, Flatten(later));
      WhereAppend(chunk, Flatten(later), begin, end);
      FilterSelectsWindow(begin, end, chunk);
      match Filter(begin, end, chunk)
      case Skip =>
        KeptIsWindow(begin, end, later);
      case Keep(events) =>
        KeptIsWindow(begin, end, later);
        FlattenAppend([events], Kept(begin, end, later));
        assert Flatten([events]) == events;
      case Stop =>
        var rest := Flatten(later);
        assert end.Some? && chunk[0].t >= end.value;
        forall i | 0 <= i < |rest| ensures !InWindow(begin, end, rest[i].t) {
          assert chunk[0].t <= rest[i].t;
        }
        WhereKeepsNone(rest, begin, end);
    }
  }

  /**
   * Once a chunk stops the loop, neither it nor any later chunk reaches
   * the canvas, and no chunk after it is pulled.
   */
  lemma {:induction false} StopEndsTraversal(begin: Option<nat>, end: Option<nat>, stream: seq<seq<Event>>, i: nat)
    requires AllChunks(stream) && i < |stream| && Filter(begin, end, stream[i]).Stop?
    ensures Kept(begin, end, stream) == Kept(begin, end, stream[..i])
    ensures Pulled(begin, end, stream) <= i + 1
  {
    if i > 0 {
      assert stream[..i][0] == stream[0] && stream[..i][1..] == stream[1..][..i - 1];
      StopEndsTraversal(begin, end, stream[1..], i - 1);
    }
  }
}
