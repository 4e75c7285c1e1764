/**
 * The scroll-reveal latch every section keeps: an `isVisible` flag that starts
 * false and is set when the viewport observer reports the section as
 * intersecting. The observer itself belongs to the browser; only the flag's
 * update is modelled. Each observer callback delivers a non-empty batch of
 * entries, of which the section reads only the first.
 */
module Reveal {

  /** The part of an observer entry the sections read. */
  datatype Entry = Entry(isIntersecting: bool)

  /** One observer callback: it sets the flag when its first entry intersects and otherwise leaves it. */
  function Observe(visible: bool, entries: seq<Entry>): (v: bool)
    requires |entries| > 0
    ensures visible ==> v
    ensures v ==> visible || entries[0].isIntersecting
    ensures entries[0].isIntersecting ==> v
  {
    if entries[0].isIntersecting then true else visible
  }

  /** Every batch the observer delivers holds at least one entry. */
  predicate Delivered(batches: seq<seq<Entry>>) {
    forall k :: 0 <= k < |batches| ==> |batches[k]| > 0
  }

  /** The flag after a run of callbacks, in delivery order. */
  function Run(visible: bool, batches: seq<seq<Entry>>): bool
    requires Delivered(batches)
    decreases |batches|
  {
    if batches == [] then visible else Run(Observe(visible, batches[0]), batches[1..])
  }

  /** Once revealed, no run of callbacks hides the section again. */
  lemma {:induction false} RunKeepsRevealed(batches: seq<seq<Entry>>)
    requires Delivered(batches)
    ensures Run(true, batches)
    decreases |batches|
  {
    if batches != [] {
      RunKeepsRevealed(batches[1..]);
    }
  }

  /** The flag ends true exactly when it started true or some callback's first entry was intersecting. */
  lemma {:induction false} RunRevealsOnIntersection(visible: bool, batches: seq<seq<Entry>>)
    requires Delivered(batches)
    ensures Run(visible, batches) <==> visible || exists k :: 0 <= k < |batches| && batches[k][0].isIntersecting
    decreases |batches|
  {
    if batches != [] {
      var tail := batches[1..];
      RunRevealsOnIntersection(Observe(visible, batches[0]), tail);
      assert forall k :: 1 <= k < |batches| ==> batches[k] == tail[k - 1];
      if exists k :: 0 <= k < |tail| && tail[k][0].isIntersecting {
        var k :| 0 <= k < |tail| && tail[k][0].isIntersecting;
        assert batches[k + 1][0].isIntersecting;
      }
    }
  }

  /** Running two stretches of callbacks one after the other is running them together. */
  lemma {:induction false} RunAppend(visible: bool, first: seq<seq<Entry>>, second: seq<seq<Entry>>)
    requires Delivered(first) && Delivered(second)
    ensures Delivered(first + second)
    ensures Run(visible, first + second) == Run(Run(visible, first), second)
    decreases |first|
  {
    if first == [] {
      assert first + second == second;
    } else {
      RunAppend(Observe(visible, first[0]), first[1..], second);
      assert (first + second)[0] == first[0];
      assert (first + second)[1..] == first[1..] + second;
    }
  }

  /** The `isVisible` state of one section. */
  class RevealLatch {
    var isVisible: bool

    /** `useState(false)`: a section mounts hidden. */
    constructor ()
      ensures !isVisible
    {
      isVisible := false;
    }

    /** The observer callback. */
    method OnIntersect(entries: seq<Entry>)
      requires |entries| > 0
      modifies this
      ensures isVisible == Observe(old(isVisible), entries)
      ensures old(isVisible) ==> isVisible
    {
      if entries[0].isIntersecting {
        isVisible := true;
      }
    }
  }
}
