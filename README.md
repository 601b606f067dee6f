# colourtime core, modelled in Dafny

colourtime renders an Event Stream recording as a single RGBA picture.
Each event carries a timestamp in microseconds and a pixel position. A
time mapping turns the timestamp into a number in [0, 1): linear over a
window, or cyclic with a fixed period. A colormap turns that number into a
colour. Every event's colour is then alpha-blended, in stream order, onto a
canvas filled with a background colour. This project models the core of
that pipeline:

- `Events`: events, chunks of events and the half-open time window [begin, end).
- `Stream`: the decoder, a one-way generator of non-empty chunks.
- `Window`: the per-chunk decision in `convert`. A chunk is skipped, ends the loop, or has its events kept.
- `Convert`: the `convert` loop that pulls chunks, filters them and blends them onto the canvas.
- `Compositor`: the native `stack` routine, an in-place blend into a width×height×4 canvas.
- `Bounds`: `find_begin_and_end`, which finds the first timestamp and, optionally, one past the last.
- `TimeMapping`: the linear and cyclic time mappings.
- `Timecode`: `timecode`, which parses a command-line time as an integer or as `HH:MM:SS[.ffffff]`.

The colormap applied to the time mapping is one opaque function
`colourOf: nat -> Colour` from timestamp to colour. Pixel values are
`real`.

## Model

| member | source | states |
|---|---|---|
| Events.Where | python/colourtime/__init__.py:40-44 | The result holds exactly the events of the input whose timestamp is in [begin, end). It is a subsequence of the input, so their order is kept, and its multiset is contained in the input's. The exact counts are stated by Events.WhereCounts. |
| Events.WhereCounts | python/colourtime/__init__.py:40-44 | Every copy of an in-window event is kept and no copy of any other event. Duplicated events are never merged, so each one is blended. |
| Events.WhereAppend | python/colourtime/__init__.py:40-44 | Filtering a concatenation filters each part. Filtering chunk by chunk therefore equals filtering the whole stream. |
| Window.Filter | python/colourtime/__init__.py:30-46 | A chunk is skipped exactly when begin is set and its last timestamp is before begin. It stops the loop exactly when it is not skipped, end is set and its first timestamp is at or after end. Kept events are a subsequence of the chunk. |
| Window.FilterSelectsWindow | python/colourtime/__init__.py:30-46 | For a time-sorted chunk, the four branches together keep exactly the chunk's events inside [begin, end). A skipped or stopping chunk has no event in the window. |
| Window.FilterPassesInsideChunk | python/colourtime/__init__.py:45-46 | A sorted chunk lying wholly inside the window is kept unchanged. |
| Stream.Decoder.Next | python/colourtime/__init__.py:97 | Yields the next chunk and advances by one. Once the recording is exhausted, it yields None and does not advance. |
| Bounds.FindBeginAndEnd | python/colourtime/__init__.py:80-103 | begin is the first timestamp of the remaining stream, or 0 if there is none. With find_end, end is one past the last timestamp, or begin + 1 for an empty stream, and the decoder is drained. Without find_end, end is None and at most one chunk is pulled. |
| Bounds.ResolvedWindowHoldsStream | python/colourtime/__init__.py:86-95 | For a time-sorted stream, the window [begin, end) it computes is non-empty and holds every event of the stream. |
| Convert.Convert | python/colourtime/__init__.py:27-51 | Returns a fresh width×height×4 canvas. Each channel of each cell is the background blended, in stream order, with the colours of the kept events at that cell. The call fails, leaving the background, exactly when some batch reaches `stack` and alpha is outside ]0, 1]. On success, the decoder is advanced by exactly the chunks the loop pulls. |
| Convert.Composite | python/colourtime/__init__.py:29-51 | Same as Convert, for the loop over a canvas that already shows the background. |
| Convert.Kept | python/colourtime/__init__.py:29-46 | The batches the loop hands to `stack`: one per kept chunk, nothing from a skipped chunk, nothing from the stopping chunk or later. No ensures of its own. Its meaning is given by Convert.KeptIsWindow, which equates the flattened batches with the window filter, and by Convert.StopEndsTraversal. |
| Convert.Pulled | python/colourtime/__init__.py:29-33 | How many chunks the loop pulls, up to and including the stopping one. No ensures of its own. Convert.Convert ties the decoder's advance to it, and Convert.StopEndsTraversal bounds it by the first stop. |
| Convert.PullNext | python/colourtime/__init__.py:29-46 | Pulls one chunk and decides it. The split of the stream into batches already handed over and batches still to come is preserved across skip and keep. A stop or an exhausted decoder means every batch has been handed over. |
| Convert.StackEvents | python/colourtime/__init__.py:47-51 | Hands one batch to `stack`. It fails, leaving the canvas untouched, exactly when alpha is out of range. Otherwise the canvas shows the earlier events followed by this batch. |
| Convert.KeptIsWindow | python/colourtime/__init__.py:29-46 | For a time-sorted stream, the events the loop hands to `stack`, in order, are exactly the stream's events inside [begin, end). |
| Convert.StopEndsTraversal | python/colourtime/__init__.py:32-33 | Nothing after the first stopping chunk is kept, and no chunk after it is pulled. |
| Compositor.Validate | src/lib.rs:8-35 | Succeeds exactly when the canvas depth is 4, xy has 2 columns, colours has 4 columns, the row counts agree and 0 < alpha <= 1. A wrong depth is reported first. The alpha error is reported exactly when every shape check passes and alpha is outside ]0, 1]. |
| Compositor.Stack | src/lib.rs:2-51 | On a failed check the canvas is unchanged. Otherwise each channel of each cell is its old value blended, in row order, with the colours of the rows at that cell. A cell no row hits keeps its value. |
| Compositor.Over | src/lib.rs:45-48 | One channel update, (1 − alpha)·old + alpha·colour. No ensures of its own. Compositor.OverBetween, Compositor.OverOrderMatters, Compositor.FoldOverOpaque and Compositor.FoldOverInUnit state what it does. |
| Compositor.BlendCell | src/lib.rs:43-48 | One row blends its four channels into its own cell, (1 − alpha)·old + alpha·colour, and changes no other cell. |
| Compositor.FoldOverOpaque | src/lib.rs:31-48 | With alpha 1 a cell ends as the colour of the last row that hits it. |
| Compositor.OverBetween | src/lib.rs:45-48 | One blend lands between the old value and the colour. |
| Compositor.FoldOverInUnit | src/lib.rs:45-48 | Channels in [0, 1], blended with colours in [0, 1], stay in [0, 1]. |
| Compositor.OverOrderMatters | src/lib.rs:42-49 | With 0 < alpha < 1, blending two different colours in the opposite order gives a different value, so row order matters. |
| Compositor.HitsMissing | src/lib.rs:42-49 | A cell receives no blend exactly when no row names it. |
| TimeMapping.GenerateLinear | python/colourtime/__init__.py:69-70 | A linear mapping is built exactly when begin < end, and it keeps both bounds. |
| TimeMapping.Apply | python/colourtime/__init__.py:64-75 | The two mapping closures, cyclic (line 64) and linear (line 75). No ensures of its own. TimeMapping.LinearInUnit, TimeMapping.CyclicInUnit and TimeMapping.CyclicPeriodic state its range and periodicity. |
| TimeMapping.CyclicPhase | python/colourtime/__init__.py:60-64 | The numerator of the cyclic mapping is below the duration, and it differs from t − begin by a whole number of periods. |
| TimeMapping.CyclicPhasePeriodic | python/colourtime/__init__.py:60-64 | Shifting t by whole periods leaves the numerator unchanged. |
| TimeMapping.CyclicPeriodic | python/colourtime/__init__.py:60-64 | The cyclic mapping gives the same value one period later. |
| TimeMapping.CyclicInUnit | python/colourtime/__init__.py:60-64 | The cyclic mapping lands in [0, 1). |
| TimeMapping.LinearInUnit | python/colourtime/__init__.py:69-75 | Inside [begin, end) the linear mapping lands in [0, 1), and begin maps to 0. |
| Timecode.Timecode | python/colourtime/__init__.py:109-130 | `timecode`: an all-digit string is its value, a matching timecode is its microseconds, anything else gets the fixed error message. No ensures of its own. Timecode.TimecodeAccepts, Timecode.TimecodeOfDecimal, Timecode.TimecodeOfPaddedDecimal and Timecode.TimecodeOfClock state it. |
| Timecode.MatchTimecode | python/colourtime/__init__.py:106-112 | `TIMECODE_PATTERN.match`. No ensures of its own. Timecode.MatchSound states that every match is a well-formed timecode text, and Timecode.MatchRender states that every such text matches with its own fields. |
| Timecode.MatchFraction | python/colourtime/__init__.py:106 | The optional `.fraction` group and the end anchor, which admits one final newline. No ensures of its own. Timecode.MatchFractionRender states that it reads back every rendered fraction, with or without the newline. |
| Timecode.FractionMicros | python/colourtime/__init__.py:122-129 | The fraction in microseconds. No ensures of its own. Timecode.FractionPadded gives its value for at most six digits. |
| Timecode.SplitDigits | python/colourtime/__init__.py:106 | Splits a string into its longest leading run of digits and the rest. This is one greedy `\d+` group of the pattern. |
| Timecode.MatchSound | python/colourtime/__init__.py:106 | A match means the text is hours:minutes:seconds with an optional .fraction, each a non-empty run of digits, optionally followed by one newline. |
| Timecode.MatchRender | python/colourtime/__init__.py:106 | Every such text matches, and the groups it yields are the fields it was written from. |
| Timecode.RenderNotDigits | python/colourtime/__init__.py:110-112 | No timecode text passes the all-digits test, so the two branches never overlap. |
| Timecode.DecimalRoundTrip | python/colourtime/__init__.py:110-111 | Reading back the decimal digits of n gives n. |
| Timecode.TimecodeOfDecimal | python/colourtime/__init__.py:110-111 | A plain decimal number is read as that many microseconds. |
| Timecode.TimecodeOfPaddedDecimal | python/colourtime/__init__.py:110-111 | A decimal number with leading zeros, such as "007", is read as its value. |
| Timecode.LeadingZeros | python/colourtime/__init__.py:111 | Leading zeros do not change the value of a numeral. |
| Timecode.PadZeros | python/colourtime/__init__.py:126-127 | Padding digits with k zeros on the right multiplies their value by 10^k. |
| Timecode.FractionPadded | python/colourtime/__init__.py:122-127 | A fraction of at most six digits is worth value·10^(6 − length) microseconds. |
| Timecode.TimecodeOfClock | python/colourtime/__init__.py:119-128 | A timecode with at most six fraction digits gives hours·3600000000 + minutes·60000000 + seconds·1000000 plus the fraction in microseconds. |
| Timecode.TimecodeAccepts | python/colourtime/__init__.py:109-118 | `timecode` succeeds exactly on non-empty digit strings and on timecode texts. Every other input gets the error. |

## Left out

- Decoding the recording file, and opening and closing decoders. The decoder is an in-memory sequence of non-empty chunks, and `main` reopens it as a new `Decoder`.
- `main`: argument parsing, the choice of mapping and colormap, and the output file name.
- The colormap and the time mapping inside `convert`: both are one opaque function `colourOf` from timestamp to colour. Their use of the mappings in `TimeMapping` is not linked.
- The numpy field repacking of `xy` and the conversion to an 8-bit, rotated PIL image (rounding, `astype(uint8)`, `ROTATE_90`, saving). The model ends at the real-valued canvas.
- Floating point: channels, alpha and the mappings are exact reals. IEEE rounding, NaN and infinities are not modelled. A NaN alpha, which passes the source's range check, is out of scope.
- Timecode.FractionMicros: a fraction longer than six digits goes through a supplied `roundFraction` function instead of the float parse and `round`.
- Timecode.Timecode: numerals have no length bound. Python's `int` raises ValueError on a numeral longer than the interpreter's decimal-conversion limit, 4300 digits by default. That makes the source fail at python/colourtime/__init__.py:111 and 120 on an over-long numeral, which the model reads as its value. Timecode.TimecodeAccepts, Timecode.TimecodeOfDecimal and Timecode.TimecodeOfClock hold only below that limit.
- Timecode.IsDigit: only ASCII `0`-`9` count as digits. Python's `str.isdigit`, `int` and the `\d` class also accept other Unicode digits.
- Bounds.FindBeginAndEnd: timestamps are unbounded naturals, so the unsigned 64-bit wrap of `end += 1` at the largest timestamp is not modelled.
- TimeMapping.Apply: it requires begin <= t. For earlier timestamps the source's unsigned 64-bit subtraction wraps around, and that case is not modelled.
- TimeMapping.CyclicPhase: it requires a positive duration. That holds wherever `main` builds a cyclic mapping: the `if args.cycle:` test (python/colourtime/__init__.py:209) sends a zero cycle to the linear branch instead. A negative cycle, which Python's floor modulo would accept, is not modelled.
- Compositor.Stack: the input arrays are `array3` and `array2`, so the source's checks on the number of dimensions hold by typing. Coordinates outside the canvas, on which the source panics, are excluded by a precondition.
- Convert.Convert: after an alpha failure, it does not state how far the decoder has advanced. The source raises at the first kept chunk, so the position is one past that chunk.
- Convert.Convert: it requires every kept event to lie on the canvas, where the source would panic inside `stack`.
- The Python extension-module registration and the `unsafe` mutable view of the canvas. Aliasing between `base` and the read-only inputs is not modelled.
