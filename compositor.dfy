/**
 * `stack`: validates its arguments, then blends each (x, y) row of `xy`
 * with the matching row of `colours` into a w×h×4 canvas, in row order.
 * Channel values are reals; floating-point rounding is not modelled.
 */
module Compositor {
  import opened Wrappers
  import opened Events

  /** Four channels: red, green, blue, alpha. */
  datatype Colour = Colour(r: real, g: real, b: real, a: real)

  function Channel(colour: Colour, c: nat): real
    requires c < 4
  {
    if c == 0 then colour.r else if c == 1 then colour.g else if c == 2 then colour.b else colour.a
  }

  /** One channel of one blend: `(1 − α)·old + α·new`. */
  function Over(dst: real, src: real, alpha: real): real {
    (1.0 - alpha) * dst + alpha * src
  }

  /** Blends `srcs` onto `dst` one after the other, first element first. */
  function FoldOver(dst: real, srcs: seq<real>, alpha: real): real
    decreases |srcs|
  {
    if srcs == [] then dst else FoldOver(Over(dst, srcs[0], alpha), srcs[1..], alpha)
  }

  /** Channel `c` of every row whose coordinates are (x, y), in row order. */
  function Hits(coords: seq<(int, int)>, colours: seq<Colour>, x: int, y: int, c: nat): seq<real>
    requires |coords| == |colours| && c < 4
  {
    if coords == [] then []
    else
      var n := |coords| - 1;
      Hits(coords[..n], colours[..n], x, y, c) + (if coords[n] == (x, y) then [Channel(colours[n], c)] else [])
  }

  datatype StackError =
    | BaseShape      // base must have shape (w, h, 4)
    | XyShape        // xy must have shape (n, 2)
    | ColoursShape   // colours must have shape (n, 4)
    | RowMismatch    // xy and colours must have the same number of rows
    | AlphaRange     // alpha must be in the range ]0, 1]

  /**
   * The argument checks of `stack`, in its order. The array types fix the
   * number of dimensions, so only the sizes of the last axes, the row
   * counts and alpha can be wrong.
   */
  function Validate(baseDepth: nat, xyRows: nat, xyCols: nat, colourRows: nat, colourCols: nat, alpha: real): (err: Option<StackError>)
    ensures err.None? <==> baseDepth == 4 && xyCols == 2 && colourCols == 4 && xyRows == colourRows && 0.0 < alpha <= 1.0
    ensures baseDepth != 4 ==> err == Some(BaseShape)
    ensures err == Some(AlphaRange) <==> baseDepth == 4 && xyCols == 2 && colourCols == 4 && xyRows == colourRows && !(0.0 < alpha <= 1.0)
  {
    if baseDepth != 4 then Some(BaseShape)
    else if xyCols != 2 then Some(XyShape)
    else if colourCols != 4 then Some(ColoursShape)
    else if xyRows != colourRows then Some(RowMismatch)
    else if alpha <= 0.0 || alpha > 1.0 then Some(AlphaRange)
    else None
  }

  /** The rows of an (n, 2) coordinate array. */
  ghost function Coords(xy: array2<U16>): (s: seq<(int, int)>)
    reads xy
    requires xy.Length1 == 2
    ensures |s| == xy.Length0
  {
    seq(xy.Length0, i requires 0 <= i < xy.Length0 reads xy => (xy[i, 0] as int, xy[i, 1] as int))
  }

  /** The rows of an (n, 4) colour array. */
  ghost function ColourRows(colours: array2<real>): (s: seq<Colour>)
    reads colours
    requires colours.Length1 == 4
    ensures |s| == colours.Length0
  {
    seq(colours.Length0, i requires 0 <= i < colours.Length0 reads colours =>
      Colour(colours[i, 0], colours[i, 1], colours[i, 2], colours[i, 3]))
  }

  /**
   * Blends the rows into `base` in place. On a failed check nothing is
   * written; otherwise every channel of every cell ends as the in-order
   * blend of the colours of the rows that hit it, and a cell no row hits
   * keeps its value. Coordinates outside the canvas make the source panic;
   * here they are excluded by the precondition.
   */
  method Stack(base: array3<real>, xy: array2<U16>, colours: array2<real>, alpha: real) returns (err: Option<StackError>)
    requires Validate(base.Length2, xy.Length0, xy.Length1, colours.Length0, colours.Length1, alpha).None? ==>
      forall i :: 0 <= i < xy.Length0 ==> xy[i, 0] < base.Length0 && xy[i, 1] < base.Length1
    modifies base
    ensures err == Validate(base.Length2, xy.Length0, xy.Length1, colours.Length0, colours.Length1, alpha)
    ensures err.Some? ==> unchanged(base)
    ensures err.None? ==> forall x, y, c :: 0 <= x < base.Length0 && 0 <= y < base.Length1 && 0 <= c < 4 ==>
      base[x, y, c] == FoldOver(old(base[x, y, c]), Hits(Coords(xy), ColourRows(colours), x, y, c), alpha)
    ensures err.None? ==> forall x, y, c :: 0 <= x < base.Length0 && 0 <= y < base.Length1 && 0 <= c < 4 && (x, y) !in Coords(xy) ==>
      base[x, y, c] == old(base[x, y, c])
  {
    err := Validate(base.Length2, xy.Length0, xy.Length1, colours.Length0, colours.Length1, alpha);
    if err.Some? {
      return;
    }
    ghost var coords := Coords(xy);
    ghost var rows := ColourRows(colours);
    var i := 0;
    while i < xy.Length0
      invariant 0 <= i <= xy.Length0
      invariant forall x, y, c :: 0 <= x < base.Length0 && 0 <= y < base.Length1 && 0 <= c < 4 ==>
        base[x, y, c] == FoldOver(old(base[x, y, c]), Hits(coords[..i], rows[..i], x, y, c), alpha)
    {
      label before:
      BlendCell(base, xy[i, 0], xy[i, 1], colours, i, alpha);
      assert coords[i] == (xy[i, 0] as int, xy[i, 1] as int);
      forall x', y', c | 0 <= x' < base.Length0 && 0 <= y' < base.Length1 && 0 <= c < 4
        ensures base[x', y', c] == FoldOver(old(base[x', y', c]), Hits(coords[..i + 1], rows[..i + 1], x', y', c), alpha)
      {
        var prev := Hits(coords[..i], rows[..i], x', y', c);
        var hit := coords[i] == (x', y');
        assert old@before(base[x', y', c]) == FoldOver(old(base[x', y', c]), prev, alpha);
        assert base[x', y', c] == if hit then Over(old@before(base[x', y', c]), colours[i, c], alpha) else old@before(base[x', y', c]);
        assert colours[i, c] == Channel(rows[i], c);
        HitsStep(coords, rows, i, x', y', c);
        CellStep(old(base[x', y', c]), prev, old@before(base[x', y', c]), base[x', y', c], hit, Channel(rows[i], c), alpha);
      }
      i := i + 1;
    }
    assert coords[..i] == coords && rows[..i] == rows;
    forall x, y, c | 0 <= x < base.Length0 && 0 <= y < base.Length1 && 0 <= c < 4 && (x, y) !in coords
      ensures base[x, y, c] == old(base[x, y, c])
    {
      HitsMissing(coords, rows, x, y, c);
    }
  }

  /** The body of `stack`'s loop: blends row `i` of `colours` into the four channels of cell (x, y). */
  method BlendCell(base: array3<real>, x: int, y: int, colours: array2<real>, i: int, alpha: real)
    requires 0 <= x < base.Length0 && 0 <= y < base.Length1 && base.Length2 == 4
    requires 0 <= i < colours.Length0 && colours.Length1 == 4
    modifies base
    ensures forall x', y', c :: 0 <= x' < base.Length0 && 0 <= y' < base.Length1 && 0 <= c < 4 ==>
      base[x', y', c] == if x' == x && y' == y then Over(old(base[x', y', c]), colours[i, c], alpha) else old(base[x', y', c])
  {
    base[x, y, 0] := Over(base[x, y, 0], colours[i, 0], alpha);
    base[x, y, 1] := Over(base[x, y, 1], colours[i, 1], alpha);
    base[x, y, 2] := Over(base[x, y, 2], colours[i, 2], alpha);
    base[x, y, 3] := Over(base[x, y, 3], colours[i, 3], alpha);
  }

  /** One cell across one loop step: blended when hit, untouched otherwise. */
  lemma CellStep(initial: real, hits: seq<real>, before: real, after: real, hit: bool, src: real, alpha: real)
    requires before == FoldOver(initial, hits, alpha)
    requires after == if hit then Over(before, src, alpha) else before
    ensures after == FoldOver(initial, hits + (if hit then [src] else []), alpha)
  {
    if hit {
      FoldOverSnoc(initial, hits, src, alpha);
    } else {
      assert hits + [] == hits;
    }
  }

  /** Blending one more colour after a sequence is one more step of the fold. */
  lemma {:induction false} FoldOverSnoc(dst: real, srcs: seq<real>, src: real, alpha: real)
    ensures FoldOver(dst, srcs + [src], alpha) == Over(FoldOver(dst, srcs, alpha), src, alpha)
    decreases |srcs|
  {
    if srcs != [] {
      assert (srcs + [src])[1..] == srcs[1..] + [src];
      FoldOverSnoc(Over(dst, srcs[0], alpha), srcs[1..], src, alpha);
    }
  }

  /** Blending two sequences one after the other is blending their concatenation. */
  lemma {:induction false} FoldOverAppend(dst: real, a: seq<real>, b: seq<real>, alpha: real)
    ensures FoldOver(dst, a + b, alpha) == FoldOver(FoldOver(dst, a, alpha), b, alpha)
    decreases |a|
  {
    if a == [] {
      assert a + b == b;
    } else {
      assert (a + b)[1..] == a[1..] + b;
      FoldOverAppend(Over(dst, a[0], alpha), a[1..], b, alpha);
    }
  }

  /** With α = 1 a cell ends equal to the last colour blended into it, whatever it held. */
  lemma {:induction false} FoldOverOpaque(dst: real, srcs: seq<real>)
    requires srcs != []
    ensures FoldOver(dst, srcs, 1.0) == srcs[|srcs| - 1]
    decreases |srcs|
  {
    if |srcs| > 1 {
      FoldOverOpaque(Over(dst, srcs[0], 1.0), srcs[1..]);
    }
  }

  /** One blend lands between the old value and the new colour. */
  lemma OverBetween(dst: real, src: real, alpha: real)
    requires 0.0 <= alpha <= 1.0
    ensures dst <= src ==> dst <= Over(dst, src, alpha) <= src
    ensures src <= dst ==> src <= Over(dst, src, alpha) <= dst
  {
    var d := src - dst;
    assert Over(dst, src, alpha) == dst + alpha * d;
    if d >= 0.0 {
      assert alpha * d >= 0.0;
      assert d - alpha * d == (1.0 - alpha) * d >= 0.0;
    } else {
      var p := 1.0 - alpha;
      assert alpha * d <= 0.0;
      assert p * d <= 0.0 by { assert p * (-d) >= 0.0; }
      assert d - alpha * d == p * d;
    }
  }

  /** Channels that start in [0, 1] and receive colours in [0, 1] stay in [0, 1]. */
  lemma {:induction false} FoldOverInUnit(dst: real, srcs: seq<real>, alpha: real)
    requires 0.0 < alpha <= 1.0 && 0.0 <= dst <= 1.0
    requires forall i :: 0 <= i < |srcs| ==> 0.0 <= srcs[i] <= 1.0
    ensures 0.0 <= FoldOver(dst, srcs, alpha) <= 1.0
    decreases |srcs|
  {
    if srcs != [] {
      OverBetween(dst, srcs[0], alpha);
      FoldOverInUnit(Over(dst, srcs[0], alpha), srcs[1..], alpha);
    }
  }

  /**
   * Order matters: with 0 < α < 1, blending A then B differs from B then A
   * whenever A ≠ B.
   */
  lemma OverOrderMatters(dst: real, a: real, b: real, alpha: real)
    requires 0.0 < alpha < 1.0 && a != b
    ensures Over(Over(dst, a, alpha), b, alpha) != Over(Over(dst, b, alpha), a, alpha)
  {
    var da := Over(dst, a, alpha);
    var db := Over(dst, b, alpha);
    var w := alpha * (b - a);
    assert da - db == -w by {
      OverDifference(dst, dst, a, b, alpha);
    }
    assert Over(da, b, alpha) - Over(db, a, alpha) == alpha * w by {
      OverDifference(da, db, b, a, alpha);
      var p := 1.0 - alpha;
      assert p * -w == -w + alpha * w;
    }
    assert alpha * w != 0.0 by {
      if b > a {
        assert w > 0.0;
        assert alpha * w > 0.0;
      } else {
        assert w < 0.0;
        assert alpha * w < 0.0;
      }
    }
  }

  /** The difference of two blends with the same α is the blend of the differences. */
  lemma OverDifference(d1: real, d2: real, s1: real, s2: real, alpha: real)
    ensures Over(d1, s1, alpha) - Over(d2, s2, alpha) == (1.0 - alpha) * (d1 - d2) + alpha * (s1 - s2)
  {
    var p := 1.0 - alpha;
    assert p * d1 - p * d2 == p * (d1 - d2);
    assert alpha * s1 - alpha * s2 == alpha * (s1 - s2);
  }

  /** Extending the rows by row `i` adds that row's colour to the hits of its cell only. */
  lemma HitsStep(coords: seq<(int, int)>, colours: seq<Colour>, i: nat, x: int, y: int, c: nat)
    requires |coords| == |colours| && i < |coords| && c < 4
    ensures Hits(coords[..i + 1], colours[..i + 1], x, y, c)
      == Hits(coords[..i], colours[..i], x, y, c) + (if coords[i] == (x, y) then [Channel(colours[i], c)] else [])
  {
    assert coords[..i + 1][..i] == coords[..i] && colours[..i + 1][..i] == colours[..i];
  }

  /** The hits of a concatenation are the hits of each part, in order. */
  lemma {:induction false} HitsAppend(c1: seq<(int, int)>, k1: seq<Colour>, c2: seq<(int, int)>, k2: seq<Colour>, x: int, y: int, c: nat)
    requires |c1| == |k1| && |c2| == |k2| && c < 4
    ensures Hits(c1 + c2, k1 + k2, x, y, c) == Hits(c1, k1, x, y, c) + Hits(c2, k2, x, y, c)
    decreases |c2|
  {
    if c2 == [] {
      assert c1 + c2 == c1 && k1 + k2 == k1;
    } else {
      var n := |c2| - 1;
      assert (c1 + c2)[..|c1| + n] == c1 + c2[..n];
      assert (k1 + k2)[..|k1| + n] == k1 + k2[..n];
      HitsAppend(c1, k1, c2[..n], k2[..n], x, y, c);
    }
  }

  /** A cell receives some colour exactly when its coordinates occur among the rows. */
  lemma {:induction false} HitsMissing(coords: seq<(int, int)>, colours: seq<Colour>, x: int, y: int, c: nat)
    requires |coords| == |colours| && c < 4
    ensures Hits(coords, colours, x, y, c) == [] <==> (x, y) !in coords
  {
    if coords != [] {
      var n := |coords| - 1;
      assert coords == coords[..n] + [coords[n]];
      HitsMissing(coords[..n], colours[..n], x, y, c);
    }
  }
}
