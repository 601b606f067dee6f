/**
 * Events of an Event Stream recording, chunks of them, and the half-open
 * time window [begin, end) that selects some of them.
 */
module Events {
  import opened Wrappers

  /** A 16-bit unsigned pixel coordinate. */
  type U16 = n: int | 0 <= n < 0x1_0000

  /** One timestamped pixel event. */
  datatype Event = Event(t: nat, x: U16, y: U16)

  /** A chunk as the decoder yields it: at least one event. */
  predicate IsChunk(chunk: seq<Event>) {
    |chunk| > 0
  }

  predicate AllChunks(stream: seq<seq<Event>>) {
    forall i :: 0 <= i < |stream| ==> IsChunk(stream[i])
  }

  /** Timestamps never decrease along `es`. */
  ghost predicate Sorted(es: seq<Event>) {
    forall i, j :: 0 <= i <= j < |es| ==> es[i].t <= es[j].t
  }

  /** The events of the chunks, one chunk after the other. */
  function Flatten(stream: seq<seq<Event>>): seq<Event> {
    if stream == [] then [] else stream[0] + Flatten(stream[1..])
  }

  /** `t` lies in [begin, end); an absent bound does not restrict. */
  predicate InWindow(begin: Option<nat>, end: Option<nat>, t: nat) {
    (begin.None? || begin.value <= t) && (end.None? || t < end.value)
  }

  /** `a` is `b` with some elements removed, the rest in their original order. */
  predicate Subsequence<T(==)>(a: seq<T>, b: seq<T>)
    decreases |b|
  {
    a == [] || (b != [] && ((a[0] == b[0] && Subsequence(a[1..], b[1..])) || Subsequence(a, b[1..])))
  }

  lemma {:induction false} SubsequenceRefl<T>(s: seq<T>)
    ensures Subsequence(s, s)
  {
    if s != [] {
      SubsequenceRefl(s[1..]);
    }
  }

  /**
   * The events of `es` inside the window, in their order: what a numpy
   * boolean mask on the timestamps selects.
   */
  function Where(es: seq<Event>, begin: Option<nat>, end: Option<nat>): (r: seq<Event>)
    ensures Subsequence(r, es)
    ensures multiset(r) <= multiset(es)
    ensures forall e :: e in r <==> e in es && InWindow(begin, end, e.t)
  {
    if es == [] then []
    else
      assert es == [es[0]] + es[1..];
      if InWindow(begin, end, es[0].t) then [es[0]] + Where(es[1..], begin, end)
      else Where(es[1..], begin, end)
  }

  /**
   * `Where` keeps every copy of an in-window event and no copy of any other
   * event: the mask drops nothing it selects, duplicates included.
   */
  lemma {:induction false} WhereCounts(es: seq<Event>, begin: Option<nat>, end: Option<nat>)
    ensures forall e :: multiset(Where(es, begin, end))[e] == if InWindow(begin, end, e.t) then multiset(es)[e] else 0
  {
    if es != [] {
      WhereCounts(es[1..], begin, end);
      assert es == [es[0]] + es[1..];
    }
  }

  lemma {:induction false} WhereAppend(a: seq<Event>, b: seq<Event>, begin: Option<nat>, end: Option<nat>)
    ensures Where(a + b, begin, end) == Where(a, begin, end) + Where(b, begin, end)
  {
    if a == [] {
      assert a + b == b;
    } else {
      assert (a + b)[0] == a[0];
      assert (a + b)[1..] == a[1..] + b;
      WhereAppend(a[1..], b, begin, end);
    }
  }

  /** Two windows that agree on every event of `es` select the same events. */
  lemma {:induction false} WhereAgree(es: seq<Event>, b1: Option<nat>, e1: Option<nat>, b2: Option<nat>, e2: Option<nat>)
    requires forall i :: 0 <= i < |es| ==> (InWindow(b1, e1, es[i].t) <==> InWindow(b2, e2, es[i].t))
    ensures Where(es, b1, e1) == Where(es, b2, e2)
  {
    if es != [] {
      WhereAgree(es[1..], b1, e1, b2, e2);
    }
  }

  /** A window containing every event keeps `es` whole. */
  lemma {:induction false} WhereKeepsAll(es: seq<Event>, begin: Option<nat>, end: Option<nat>)
    requires forall i :: 0 <= i < |es| ==> InWindow(begin, end, es[i].t)
    ensures Where(es, begin, end) == es
  {
    if es != [] {
      WhereKeepsAll(es[1..], begin, end);
      assert es == [es[0]] + es[1..];
    }
  }

  /** A window containing no event of `es` selects nothing. */
  lemma {:induction false} WhereKeepsNone(es: seq<Event>, begin: Option<nat>, end: Option<nat>)
    requires forall i :: 0 <= i < |es| ==> !InWindow(begin, end, es[i].t)
    ensures Where(es, begin, end) == []
  {
    if es != [] {
      WhereKeepsNone(es[1..], begin, end);
    }
  }

  /** Splitting a sorted sequence keeps both halves sorted and orders them. */
  lemma SortedSplit(a: seq<Event>, b: seq<Event>)
    requires Sorted(a + b)
    ensures Sorted(a) && Sorted(b)
    ensures forall i, j :: 0 <= i < |a| && 0 <= j < |b| ==> a[i].t <= b[j].t
  {
    forall i, j | 0 <= i <= j < |a| ensures a[i].t <= a[j].t {
      assert (a + b)[i] == a[i] && (a + b)[j] == a[j];
    }
    forall i, j | 0 <= i <= j < |b| ensures b[i].t <= b[j].t {
      assert (a + b)[|a| + i] == b[i] && (a + b)[|a| + j] == b[j];
    }
    forall i, j | 0 <= i < |a| && 0 <= j < |b| ensures a[i].t <= b[j].t {
      assert (a + b)[i] == a[i] && (a + b)[|a| + j] == b[j];
    }
  }

  lemma {:induction false} FlattenAppend(a: seq<seq<Event>>, b: seq<seq<Event>>)
    ensures Flatten(a + b) == Flatten(a) + Flatten(b)
  {
    if a == [] {
      assert a + b == b;
    } else {
      assert (a + b)[1..] == a[1..] + b;
      FlattenAppend(a[1..], b);
    }
  }
}
