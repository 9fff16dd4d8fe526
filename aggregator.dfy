/**
 * The duration aggregator: collapses each ocean's list of `[entry, exit]`
 * pairs into hours. Only closed pairs count; an ocean gets a key in the
 * result only when it has at least one closed pair (the result starts empty
 * and a key is created by the first addition to it).
 */
module Aggregator {
  import opened Types
  import opened Tracker

  /** Length of a closed pair in hours (timestamps are in seconds). */
  function Hours(iv: Interval): real
    requires iv.Closed()
  {
    (iv.exit.value - iv.entry.value) as real / 3600.0
  }

  /** True iff some pair of `ivs` has both endpoints set. */
  predicate HasClosed(ivs: seq<Interval>) {
    exists i :: 0 <= i < |ivs| && ivs[i].Closed()
  }

  lemma HasClosedSnoc(ivs: seq<Interval>, iv: Interval)
    ensures HasClosed(ivs + [iv]) <==> HasClosed(ivs) || iv.Closed()
  {
    if HasClosed(ivs) {
      var i :| 0 <= i < |ivs| && ivs[i].Closed();
      assert (ivs + [iv])[i] == ivs[i];
    }
    if iv.Closed() {
      assert (ivs + [iv])[|ivs|] == iv;
    }
  }

  /** The hours of the closed pairs of `ivs`, added up front to back; other pairs add nothing. */
  function ClosedHours(ivs: seq<Interval>): real
    decreases |ivs|
  {
    if ivs == [] then 0.0
    else
      var last := ivs[|ivs| - 1];
      ClosedHours(ivs[..|ivs| - 1]) + (if last.Closed() then Hours(last) else 0.0)
  }

  /** What collapsing a map of pair lists yields: the oceans with a closed pair, each with its closed hours. */
  ghost function Collapsed(times: Ranges): map<Ocean, real> {
    map o | o in times && HasClosed(times[o]) :: ClosedHours(times[o])
  }

  /**
   * The nested loops: every ocean's pairs are visited in order, pairs with an
   * unset endpoint are skipped, and each closed pair's hours are added to the
   * ocean's entry, which is created by the first addition.
   */
  method CollapseRanges(times: Ranges) returns (hours: map<Ocean, real>)
    ensures forall o :: o in hours <==> o in times && HasClosed(times[o])
    ensures forall o :: o in hours ==> hours[o] == ClosedHours(times[o])
    ensures hours == Collapsed(times)
  {
    hours := map[];
    var todo := times.Keys;
    while todo != {}
      invariant todo <= times.Keys
      invariant forall k :: k in hours <==> k in times && k !in todo && HasClosed(times[k])
      invariant forall k :: k in hours ==> hours[k] == ClosedHours(times[k])
      decreases todo
    {
      var o :| o in todo;
      var ranges := times[o];
      var j := 0;
      while j < |ranges|
        invariant 0 <= j <= |ranges|
        invariant forall k :: k != o ==> (k in hours <==> k in times && k !in todo && HasClosed(times[k]))
        invariant forall k :: k in hours && k != o ==> hours[k] == ClosedHours(times[k])
        invariant o in hours <==> HasClosed(ranges[..j])
        invariant o in hours ==> hours[o] == ClosedHours(ranges[..j])
      {
        var iv := ranges[j];
        assert ranges[..j + 1] == ranges[..j] + [iv];
        ClosedHoursAppend(ranges[..j], [iv]);
        HasClosedSnoc(ranges[..j], iv);
        if o !in hours {
          NoClosedMeansZero(ranges[..j]);
        }
        if iv.entry.None? && iv.exit.None? {
          // a pending pair: skipped
        } else if iv.entry.None? || iv.exit.None? {
          // a pair with one endpoint: skipped
        } else {
          var sofar := if o in hours then hours[o] else 0.0;
          hours := hours[o := sofar + Hours(iv)];
        }
        j := j + 1;
      }
      assert ranges[..j] == ranges;
      todo := todo - {o};
    }
    assert hours.Keys == Collapsed(times).Keys;
  }

  // ---------------------------------------------------------------------------
  // Properties of the collapse

  /** A list whose closed pairs run forward in time has non-negative closed hours. */
  lemma {:induction false} ClosedHoursNonNegative(ivs: seq<Interval>)
    requires ListOrdered(ivs)
    ensures ClosedHours(ivs) >= 0.0
    decreases |ivs|
  {
    if ivs != [] {
      var prefix := ivs[..|ivs| - 1];
      assert ListOrdered(prefix) by {
        assert forall i :: 0 <= i < |prefix| ==> prefix[i] == ivs[i];
      }
      ClosedHoursNonNegative(prefix);
    }
  }

  /**
   * A list without a closed pair adds up to zero hours: leaving such an
   * ocean out of the result loses nothing but its key.
   */
  lemma {:induction false} NoClosedMeansZero(ivs: seq<Interval>)
    requires !HasClosed(ivs)
    ensures ClosedHours(ivs) == 0.0
    decreases |ivs|
  {
    if ivs != [] {
      var prefix := ivs[..|ivs| - 1];
      assert !HasClosed(prefix) by {
        assert forall i :: 0 <= i < |prefix| ==> prefix[i] == ivs[i];
      }
      NoClosedMeansZero(prefix);
    }
  }

  /** Closed hours of a concatenation are the sum of the parts' closed hours. */
  lemma {:induction false} ClosedHoursAppend(a: seq<Interval>, b: seq<Interval>)
    ensures ClosedHours(a + b) == ClosedHours(a) + ClosedHours(b)
    decreases |b|
  {
    if b != [] {
      var b' := b[..|b| - 1];
      assert (a + b)[..|a + b| - 1] == a + b';
      ClosedHoursAppend(a, b');
    } else {
      assert a + b == a;
    }
  }

  /** When every closed pair runs forward in time, every collapsed value is at least zero. */
  lemma CollapsedNonNegative(times: Ranges)
    requires Ordered(times)
    ensures forall o :: o in Collapsed(times) ==> Collapsed(times)[o] >= 0.0
  {
    forall o | o in Collapsed(times)
      ensures Collapsed(times)[o] >= 0.0
    {
      ClosedHoursNonNegative(times[o]);
    }
  }
}
