/**
 * The interval tracker: one left-to-right pass over a vessel's classified
 * samples that keeps, per ocean, a list of `[entry, exit]` pairs whose last
 * element is the one being filled, and remembers the previous sample's ocean.
 *
 * `Step` and `Run` are the specification of one pass (a left fold over the
 * samples); `TrackIntervals` is the pass itself, a loop that updates the map
 * and the previous ocean in place and is proved to end in `Run(samples)`.
 */
module Tracker {
  import opened Types

  type Ranges = map<Ocean, seq<Interval>>

  /** The scan state: the per-ocean pair lists and the ocean of the previous sample. */
  datatype TrackState = TrackState(times: Ranges, last: Option<Ocean>)

  /**
   * Shape of one ocean's list during the scan: it is never empty, an exit is
   * only set on a pair whose entry is set, and only the last pair may lack
   * its entry (so a pending pair can only sit at the end).
   */
  predicate WellFormedList(ivs: seq<Interval>) {
    && |ivs| > 0
    && (forall i :: 0 <= i < |ivs| ==> ivs[i].exit.Some? ==> ivs[i].entry.Some?)
    && (forall i :: 0 <= i < |ivs| - 1 ==> ivs[i].entry.Some?)
  }

  /**
   * The scan invariant: every ocean has a well-formed list, and the last pair
   * of the previous sample's ocean has its entry set.
   */
  predicate Valid(st: TrackState) {
    && (forall o: Ocean :: o in st.times && WellFormedList(st.times[o]))
    && (st.last.Some? ==> st.times[st.last.value][|st.times[st.last.value]| - 1].entry.Some?)
  }

  /** The state before the first sample: one pending pair per ocean, no previous ocean. */
  function Init(): (st: TrackState)
    ensures Valid(st)
    ensures st.last == None
    ensures forall o: Ocean :: st.times[o] == [Pending]
  {
    var times := map[Indian := [Pending], Pacific := [Pending], Atlantic := [Pending]];
    assert forall o: Ocean :: o in times by {
      forall o: Ocean ensures o in times {
        if o.Indian? {} else if o.Pacific? {} else {}
      }
    }
    TrackState(times, None)
  }

  /**
   * One sample. Inside ocean `o`: the entry of `o`'s last pair is set if it
   * was unset, otherwise its exit is overwritten. Outside every ocean right
   * after being inside one: a fresh pending pair is appended to the previous
   * ocean's list. The sample's ocean becomes the previous ocean.
   */
  function Step(st: TrackState, s: Sample): (r: TrackState)
    requires Valid(st)
    ensures Valid(r)
  {
    match s.region
    case Some(o) =>
      var ranges := st.times[o];
      var lastVisit := ranges[|ranges| - 1];
      var visit := if lastVisit.entry.None? then lastVisit.(entry := Some(s.ts))
                   else lastVisit.(exit := Some(s.ts));
      TrackState(st.times[o := ranges[..|ranges| - 1] + [visit]], s.region)
    case None =>
      if st.last.Some? then
        TrackState(st.times[st.last.value := st.times[st.last.value] + [Pending]], None)
      else
        TrackState(st.times, None)
  }

  /** The state after the whole trajectory: `Step` folded over the samples from the left. */
  function Run(samples: seq<Sample>): (st: TrackState)
    ensures Valid(st)
    decreases |samples|
  {
    if samples == [] then Init()
    else Step(Run(samples[..|samples| - 1]), samples[|samples| - 1])
  }

  /** Processing one more sample is one more step from the state reached so far. */
  lemma RunSnoc(samples: seq<Sample>, s: Sample)
    ensures Run(samples + [s]) == Step(Run(samples), s)
  {
  }

  /**
   * The scan as the loop runs it: the map of pair lists and the previous ocean
   * are updated sample by sample; the result is the map the fold specifies.
   */
  method TrackIntervals(samples: seq<Sample>) returns (times: Ranges)
    ensures times == Run(samples).times
    ensures forall o: Ocean :: o in times && WellFormedList(times[o])
  {
    times := map[Indian := [Pending], Pacific := [Pending], Atlantic := [Pending]];
    var lastOcean: Option<Ocean> := None;
    var i := 0;
    while i < |samples|
      invariant 0 <= i <= |samples|
      invariant TrackState(times, lastOcean) == Run(samples[..i])
    {
      var s := samples[i];
      match s.region {
        case Some(o) =>
          var ranges := times[o];
          var lastVisit := ranges[|ranges| - 1];
          if lastVisit.entry.None? {
            lastVisit := lastVisit.(entry := Some(s.ts));
          } else {
            lastVisit := lastVisit.(exit := Some(s.ts));
          }
          times := times[o := ranges[..|ranges| - 1] + [lastVisit]];
        case None =>
          if lastOcean.Some? {
            times := times[lastOcean.value := times[lastOcean.value] + [Pending]];
          }
      }
      lastOcean := s.region;
      assert samples[..i + 1][..i] == samples[..i];
      i := i + 1;
    }
    assert samples[..i] == samples;
  }

  // ---------------------------------------------------------------------------
  // What one step changes

  /**
   * A sample inside ocean `o` changes only the last pair of `o`: its entry is
   * set when it was unset, otherwise its exit becomes the sample's time. The
   * earlier pairs of `o` and every other ocean's list are untouched, and `o`
   * becomes the previous ocean.
   */
  lemma StepInside(st: TrackState, s: Sample, o: Ocean)
    requires Valid(st) && s.region == Some(o)
    ensures var before, after := st.times[o], Step(st, s).times[o];
      && |after| == |before|
      && after[..|after| - 1] == before[..|before| - 1]
      && after[|after| - 1] == (if before[|before| - 1].entry.None?
                                then Interval(Some(s.ts), before[|before| - 1].exit)
                                else Interval(before[|before| - 1].entry, Some(s.ts)))
    ensures forall p: Ocean :: p != o ==> Step(st, s).times[p] == st.times[p]
    ensures Step(st, s).last == Some(o)
  {
  }

  /**
   * A fresh pending pair is appended only when the sample is outside every
   * ocean and the previous one was inside some ocean, and then only to that
   * ocean's list. No other step changes a list's length.
   */
  lemma StepAppends(st: TrackState, s: Sample)
    requires Valid(st)
    ensures forall o: Ocean ::
      |Step(st, s).times[o]| == |st.times[o]| + (if s.region.None? && st.last == Some(o) then 1 else 0)
    ensures forall o: Ocean :: s.region.None? && st.last == Some(o) ==>
      Step(st, s).times[o] == st.times[o] + [Pending]
  {
  }

  /**
   * The sample's ocean (or None) becomes the previous ocean, and a list is
   * left untouched unless the sample lies inside its ocean or is the first
   * one outside after that ocean.
   */
  lemma StepFrame(st: TrackState, s: Sample)
    requires Valid(st)
    ensures Step(st, s).last == s.region
    ensures forall o: Ocean :: s.region != Some(o) && !(s.region.None? && st.last == Some(o)) ==>
      Step(st, s).times[o] == st.times[o]
  {
  }

  /**
   * The first sample outside every ocean after a sample inside `o` appends a
   * pending pair to `o`'s list, changes nothing else and clears the previous ocean.
   */
  lemma StepLeaves(st: TrackState, s: Sample, o: Ocean)
    requires Valid(st) && s.region.None? && st.last == Some(o)
    ensures Step(st, s) == TrackState(st.times[o := st.times[o] + [Pending]], None)
  {
  }

  // ---------------------------------------------------------------------------
  // What the whole scan never undoes

  /**
   * `b` continues `a`: no list got shorter, every pair before a list's last
   * one is unchanged, and an entry once set keeps its value.
   */
  predicate Extends(a: Ranges, b: Ranges) {
    forall o: Ocean :: o in a ==>
      && o in b
      && |a[o]| <= |b[o]|
      && (forall i :: 0 <= i < |a[o]| - 1 ==> b[o][i] == a[o][i])
      && (forall i :: 0 <= i < |a[o]| ==> a[o][i].entry.Some? ==> b[o][i].entry == a[o][i].entry)
  }

  lemma StepExtends(st: TrackState, s: Sample)
    requires Valid(st)
    ensures Extends(st.times, Step(st, s).times)
  {
  }

  lemma ExtendsTransitive(a: Ranges, b: Ranges, c: Ranges)
    requires Extends(a, b) && Extends(b, c)
    ensures Extends(a, c)
  {
  }

  /**
   * Over the whole trajectory, the state after any prefix is continued by the
   * final state: lists only grow, earlier pairs are frozen and set entries
   * never change.
   */
  lemma {:induction false} RunExtends(samples: seq<Sample>, k: nat)
    requires k <= |samples|
    ensures Extends(Run(samples[..k]).times, Run(samples).times)
    decreases |samples| - k
  {
    if k == |samples| {
      assert samples[..k] == samples;
    } else {
      var n := |samples|;
      var prefix := samples[..n - 1];
      assert prefix[..k] == samples[..k];
      var before, middle, after := Run(samples[..k]), Run(prefix), Run(samples);
      assert after == Step(middle, samples[n - 1]);
      RunExtends(prefix, k);
      StepExtends(middle, samples[n - 1]);
      ExtendsTransitive(before.times, middle.times, after.times);
    }
  }

  // ---------------------------------------------------------------------------
  // Ordered trajectories give ordered pairs

  /** Every timestamp set in `ivs` is at most `t`. */
  predicate ListSetBefore(ivs: seq<Interval>, t: int) {
    forall i :: 0 <= i < |ivs| ==>
      (ivs[i].entry.Some? ==> ivs[i].entry.value <= t) && (ivs[i].exit.Some? ==> ivs[i].exit.value <= t)
  }

  /** Every closed pair of `ivs` has its entry no later than its exit. */
  predicate ListOrdered(ivs: seq<Interval>) {
    forall i :: 0 <= i < |ivs| ==> ivs[i].Closed() ==> ivs[i].entry.value <= ivs[i].exit.value
  }

  predicate Ordered(times: Ranges) {
    forall o :: o in times ==> ListOrdered(times[o])
  }

  predicate SetBefore(times: Ranges, t: int) {
    forall o :: o in times ==> ListSetBefore(times[o], t)
  }

  lemma StepOrdered(st: TrackState, s: Sample, t: int)
    requires Valid(st) && Ordered(st.times) && SetBefore(st.times, t) && t <= s.ts
    ensures Ordered(Step(st, s).times) && SetBefore(Step(st, s).times, s.ts)
  {
  }

  /**
   * Given samples in ascending time order, every closed pair of the final
   * state has entry <= exit (and every set timestamp is at most the last
   * sample's).
   */
  lemma {:induction false} RunOrdered(samples: seq<Sample>)
    requires Sorted(samples)
    ensures Ordered(Run(samples).times)
    ensures |samples| > 0 ==> SetBefore(Run(samples).times, samples[|samples| - 1].ts)
    decreases |samples|
  {
    if samples != [] {
      var n := |samples|;
      var prefix := samples[..n - 1];
      assert Sorted(prefix);
      RunOrdered(prefix);
      if prefix == [] {
        StepOrdered(Run(prefix), samples[n - 1], samples[n - 1].ts);
      } else {
        StepOrdered(Run(prefix), samples[n - 1], prefix[n - 2].ts);
      }
    }
  }
}
