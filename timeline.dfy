/**
 * Annotating the extracted messages with elapsed time (slack.py:296-310).
 * The list is walked in order and each entry gets, in place, its distance
 * from the first message and from the message before it.
 */
module Timeline {
  import opened Wrappers
  import opened Types
  import opened Duration

  /** A message of the timeline with the two deltas the annotation adds (absent before it runs). */
  datatype Entry = Entry(message: Message, deltaFromStart: Option<TimeDelta>, deltaFromLast: Option<TimeDelta>)

  /**
   * `es` is `ms` annotated: the same messages in the same order, each with
   * its distance from the first message and from its predecessor (the first
   * message is its own predecessor).
   */
  ghost predicate AnnotationOf(es: seq<Entry>, ms: seq<Message>) {
    && |es| == |ms|
    && forall i {:trigger es[i]} :: 0 <= i < |es| ==> es[i] == Annotated(ms[i], ms[0].datetime, PrevTime(ms, i))
  }

  /** A message with its distances from the start time and from the previous message's time. */
  function Annotated(m: Message, start: int, last: int): (e: Entry)
    ensures e.message == m
    ensures e.deltaFromStart.Some? && TotalSeconds(e.deltaFromStart.value) == m.datetime - start
    ensures e.deltaFromLast.Some? && TotalSeconds(e.deltaFromLast.value) == m.datetime - last
  {
    Entry(m, Some(FromSeconds(m.datetime - start)), Some(FromSeconds(m.datetime - last)))
  }

  /** The time of the message before message `i`; the first message is its own predecessor. */
  function PrevTime(ms: seq<Message>, i: nat): int
    requires i < |ms|
  {
    if i == 0 then ms[0].datetime else ms[i - 1].datetime
  }

  function Messages(es: seq<Entry>): (ms: seq<Message>)
    ensures |ms| == |es| && forall i :: 0 <= i < |es| ==> ms[i] == es[i].message
  {
    seq(|es|, i requires 0 <= i < |es| => es[i].message)
  }

  /** The annotated entries of the first `n` messages. */
  function AnnotatedPrefix(ms: seq<Message>, n: nat): (es: seq<Entry>)
    requires n <= |ms|
    ensures |es| == n
    ensures forall k {:trigger es[k]} :: 0 <= k < n ==> es[k] == Annotated(ms[k], ms[0].datetime, PrevTime(ms, k))
  {
    seq(n, k requires 0 <= k < n => Annotated(ms[k], ms[0].datetime, PrevTime(ms, k)))
  }

  /**
   * `annotate_with_time` (slack.py:296-310). The start time is taken from
   * the first message (a time is never falsy), and the previous time moves
   * along with the loop.
   */
  method AnnotateWithTime(a: array<Entry>)
    modifies a
    ensures AnnotationOf(a[..], Messages(old(a[..])))
  {
    ghost var ms := Messages(a[..]);
    var start: Option<int> := None;
    var last: Option<int> := None;
    var i := 0;
    while i < a.Length
      invariant 0 <= i <= a.Length == |ms|
      invariant a[..i] == AnnotatedPrefix(ms, i)
      invariant a[i..] == old(a[i..])
      invariant start == if i == 0 then None else Some(ms[0].datetime)
      invariant last == if i == 0 then None else Some(ms[i - 1].datetime)
    {
      assert a[i] == a[i..][0] == old(a[..])[i];
      var t := a[i].message.datetime;
      if start.None? {
        start, last := Some(t), Some(t);
      }
      ghost var done := a[..i];
      a[i] := Annotated(a[i].message, start.value, last.value);
      assert a[..i + 1] == done + [a[i]];
      assert AnnotatedPrefix(ms, i + 1) == AnnotatedPrefix(ms, i) + [a[i]];
      assert a[i + 1..] == old(a[i..])[1..];
      last := Some(t);
      i := i + 1;
    }
    assert a[..] == a[..i];
  }

  /** The first message is at distance zero from the start and from its predecessor, and prints as nothing. */
  lemma AnnotationFirst(es: seq<Entry>, ms: seq<Message>)
    requires AnnotationOf(es, ms) && |es| > 0
    ensures es[0].deltaFromStart == es[0].deltaFromLast == Some(TimeDelta(0, 0))
    ensures RenderDelta(es[0].deltaFromStart.value) == ""
  {
    RenderDeltaUnits(TimeDelta(0, 0));
  }

  /** The distance from the start adds up the distances between neighbours. */
  lemma AnnotationAdditive(es: seq<Entry>, ms: seq<Message>, i: nat)
    requires AnnotationOf(es, ms) && 0 < i < |es|
    ensures TotalSeconds(es[i].deltaFromStart.value)
         == TotalSeconds(es[i - 1].deltaFromStart.value) + TotalSeconds(es[i].deltaFromLast.value)
  {
  }

  /** Every message of an annotated list is as far from the start as the sum of the steps that lead to it. */
  lemma {:induction false} AnnotationTelescopes(es: seq<Entry>, ms: seq<Message>, i: nat)
    requires AnnotationOf(es, ms) && i < |es|
    ensures TotalSeconds(es[i].deltaFromStart.value) == SumOfSteps(es, i)
  {
    if i > 0 {
      AnnotationTelescopes(es, ms, i - 1);
      AnnotationAdditive(es, ms, i);
    }
  }

  /** The sum of the distances from the predecessor of entries 1 to `i`. */
  function SumOfSteps(es: seq<Entry>, i: nat): int
    requires i < |es|
    requires forall k :: 0 <= k < |es| ==> es[k].deltaFromLast.Some?
  {
    if i == 0 then 0 else SumOfSteps(es, i - 1) + TotalSeconds(es[i].deltaFromLast.value)
  }

  predicate Chronological(ms: seq<Message>) {
    forall i, j :: 0 <= i < j < |ms| ==> ms[i].datetime <= ms[j].datetime
  }

  /** On a list in time order no delta is negative, and the distance from the start never decreases. */
  lemma AnnotationChronological(es: seq<Entry>, ms: seq<Message>)
    requires AnnotationOf(es, ms) && Chronological(ms)
    ensures forall i :: 0 <= i < |es| ==> es[i].deltaFromStart.value.days >= 0 && es[i].deltaFromLast.value.days >= 0
    ensures forall i, j :: 0 <= i < j < |es| ==>
      TotalSeconds(es[i].deltaFromStart.value) <= TotalSeconds(es[j].deltaFromStart.value)
  {
    forall i | 0 <= i < |es|
      ensures es[i].deltaFromStart.value.days >= 0 && es[i].deltaFromLast.value.days >= 0
    {
      NonNegativeDelta(ms[i].datetime - ms[0].datetime);
      NonNegativeDelta(ms[i].datetime - PrevTime(ms, i));
    }
  }
}
