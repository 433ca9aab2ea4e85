/**
  How long something has held without a break.  The policies of helper/src/call_safety_policy.cpp and
  helper/src/privacy_policy.cpp each keep one timestamp for this, -1 when nothing is held; here is
  what that timestamp says about the whole history.
*/
module Windows {

  /** One look at the world: whether the thing held, and whether holding had to start afresh. */
  datatype Sample = Sample(at: int, holds: bool, afresh: bool)

  /** The timestamp as the policies update it. */
  function Since(samples: seq<Sample>): int {
    if samples == [] then -1
    else
      var front, last := samples[..|samples| - 1], samples[|samples| - 1];
      if !last.holds then -1
      else if last.afresh || Since(front) < 0 then last.at
      else Since(front)
  }

  /** Everything from sample i on holds, and nothing after it starts afresh. */
  ghost predicate Unbroken(samples: seq<Sample>, i: nat) {
    && i < |samples|
    && (forall j :: i <= j < |samples| ==> samples[j].holds)
    && (forall j :: i < j < |samples| ==> !samples[j].afresh)
  }

  /** An unbroken stretch ends the history and is at least `span` long. */
  ghost predicate Spans(samples: seq<Sample>, span: int) {
    exists i: nat :: Unbroken(samples, i) && samples[|samples| - 1].at - samples[i].at >= span
  }

  /** The clock is not negative, and does not run backwards between samples that hold. */
  ghost predicate Timely(samples: seq<Sample>) {
    && (forall i :: 0 <= i < |samples| && samples[i].holds ==> 0 <= samples[i].at)
    && (forall i, j :: 0 <= i < j < |samples| && samples[i].holds && samples[j].holds ==> samples[i].at <= samples[j].at)
  }

  /** The timestamp is the start of the longest unbroken stretch that ends the history. */
  lemma {:induction false} SinceMeaning(samples: seq<Sample>)
    requires Timely(samples)
    ensures Since(samples) >= 0 ==> exists i: nat :: i < |samples| && Unbroken(samples, i) && samples[i].at == Since(samples)
    ensures forall i: nat :: Unbroken(samples, i) ==> 0 <= Since(samples) <= samples[i].at
    decreases |samples|
  {
    hide Unbroken;
    if samples == [] {
      forall i: nat ensures !Unbroken(samples, i) { NoStretch(i); }
    } else {
      var n := |samples| - 1;
      var front := samples[..n];
      SinceMeaning(front);
      UnbrokenEnd(samples);
      forall i: nat ensures Unbroken(samples, i) ==> i <= n { if Unbroken(samples, i) { UnbrokenLast(samples, i); } }
      forall i: nat | i < n ensures Unbroken(samples, i) <==> Unbroken(front, i) && samples[n].holds && !samples[n].afresh {
        UnbrokenFront(samples, i);
      }
      if samples[n].holds && !samples[n].afresh && Since(front) >= 0 {
        var i: nat :| i < n && Unbroken(front, i) && front[i].at == Since(front);
        UnbrokenLast(front, i);
        assert Unbroken(samples, i) && samples[i].at <= samples[n].at;
      }
      forall i: nat | Unbroken(samples, i) ensures 0 <= Since(samples) <= samples[i].at {
        UnbrokenLast(samples, i);
        if i < n { assert Unbroken(front, i); }
      }
    }
  }

  lemma NoStretch(i: nat)
    ensures !Unbroken([], i)
  {
  }

  lemma UnbrokenEnd(samples: seq<Sample>)
    requires samples != []
    ensures Unbroken(samples, |samples| - 1) <==> samples[|samples| - 1].holds
  {
  }

  lemma UnbrokenLast(samples: seq<Sample>, i: nat)
    requires Unbroken(samples, i)
    ensures i < |samples| && samples[|samples| - 1].holds && samples[i].holds
  {
  }

  lemma UnbrokenFront(samples: seq<Sample>, i: nat)
    requires i < |samples| - 1
    ensures var n := |samples| - 1;
            Unbroken(samples, i) <==> Unbroken(samples[..n], i) && samples[n].holds && !samples[n].afresh
  {
    var n := |samples| - 1;
    var front := samples[..n];
    if Unbroken(samples, i) {
      assert forall j :: 0 <= j < n ==> front[j] == samples[j];
    }
    if Unbroken(front, i) && samples[n].holds && !samples[n].afresh {
      forall j | i <= j < |samples| ensures samples[j].holds && (i < j ==> !samples[j].afresh) {
        if j < n { assert front[j] == samples[j]; }
      }
    }
  }

  /** The one timestamp answers the question about the whole history. */
  lemma SinceSpans(samples: seq<Sample>, span: int)
    requires Timely(samples) && samples != []
    ensures Spans(samples, span) <==> Since(samples) >= 0 && samples[|samples| - 1].at - Since(samples) >= span
  {
    hide Since;
    SinceMeaning(samples);
  }

  lemma SinceNext(samples: seq<Sample>, next: Sample)
    ensures Since(samples + [next]) ==
      if !next.holds then -1 else if next.afresh || Since(samples) < 0 then next.at else Since(samples)
  {
    assert (samples + [next])[..|samples|] == samples;
  }

  lemma {:induction false} SinceFloor(samples: seq<Sample>)
    requires forall i :: 0 <= i < |samples| && samples[i].holds ==> 0 <= samples[i].at
    ensures Since(samples) >= -1
    decreases |samples|
  {
    if samples != [] { SinceFloor(samples[..|samples| - 1]); }
  }
}
