/**
 * The dwell-time query end to end: classify every row of the trajectory,
 * track the per-ocean pairs, collapse them into hours. The rows arrive in
 * ascending timestamp order; reading them is not part of this model.
 */
module Engine {
  import opened Types
  import opened Classifier
  import opened Tracker
  import opened Aggregator

  /** Each row `(position, timestamp)` paired with the ocean that contains its position. */
  function Classify<Poly, Point>(polygons: seq<(Ocean, Poly)>, contains: (Poly, Point) -> bool,
                                 rows: seq<(Point, int)>): seq<Sample>
  {
    seq(|rows|, i requires 0 <= i < |rows| => Sample(FindOcean(polygons, contains, rows[i].0), rows[i].1))
  }

  /**
   * Hours per ocean for one trajectory window: the oceans that received at
   * least one closed pair, each with the hours of its closed pairs. With
   * rows in ascending time order every value is at least zero, and an empty
   * window gives an empty map.
   */
  method GetOceans<Poly, Point>(polygons: seq<(Ocean, Poly)>, contains: (Poly, Point) -> bool,
                                rows: seq<(Point, int)>) returns (hours: map<Ocean, real>)
    requires forall i, j :: 0 <= i < j < |rows| ==> rows[i].1 <= rows[j].1
    ensures hours == Collapsed(Run(Classify(polygons, contains, rows)).times)
    ensures forall o :: o in hours ==> hours[o] >= 0.0
    ensures rows == [] ==> hours == map[]
  {
    var samples := Classify(polygons, contains, rows);
    assert Sorted(samples);
    var times := TrackIntervals(samples);
    hours := CollapseRanges(times);
    RunOrdered(samples);
    CollapsedNonNegative(times);
  }

  /** Every ocean's closed hours are at least zero when the samples come in ascending time order. */
  lemma DwellNonNegative(samples: seq<Sample>)
    requires Sorted(samples)
    ensures forall o :: o in Collapsed(Run(samples).times) ==> Collapsed(Run(samples).times)[o] >= 0.0
  {
    RunOrdered(samples);
    CollapsedNonNegative(Run(samples).times);
  }

  // ---------------------------------------------------------------------------
  // A visit seen by a single sample earns nothing

  /** How many samples fall inside ocean `o`. */
  function Visits(samples: seq<Sample>, o: Ocean): nat
    decreases |samples|
  {
    if samples == [] then 0
    else Visits(samples[..|samples| - 1], o) + (if samples[|samples| - 1].region == Some(o) then 1 else 0)
  }

  /** How many endpoints (entries and exits) are set across the pairs of `ivs`. */
  function Endpoints(ivs: seq<Interval>): nat
    decreases |ivs|
  {
    if ivs == [] then 0
    else
      var last := ivs[|ivs| - 1];
      Endpoints(ivs[..|ivs| - 1]) + (if last.entry.Some? then 1 else 0) + (if last.exit.Some? then 1 else 0)
  }

  /** A sample inside `o` sets at most one endpoint of `o`'s pairs; any other sample sets none. */
  lemma StepEndpoints(st: TrackState, s: Sample, o: Ocean)
    requires Valid(st)
    ensures Endpoints(Step(st, s).times[o]) <= Endpoints(st.times[o]) + (if s.region == Some(o) then 1 else 0)
  {
  }

  lemma {:induction false} RunEndpoints(samples: seq<Sample>, o: Ocean)
    ensures Endpoints(Run(samples).times[o]) <= Visits(samples, o)
    decreases |samples|
  {
    if samples == [] {
      assert Run(samples).times[o] == [Pending];
      assert [Pending][..0] == [];
    } else {
      var prefix := samples[..|samples| - 1];
      RunEndpoints(prefix, o);
      StepEndpoints(Run(prefix), samples[|samples| - 1], o);
    }
  }

  /** A list with a closed pair has at least two endpoints set. */
  lemma {:induction false} ClosedNeedsTwoEndpoints(ivs: seq<Interval>)
    requires HasClosed(ivs)
    ensures Endpoints(ivs) >= 2
    decreases |ivs|
  {
    var prefix := ivs[..|ivs| - 1];
    if !ivs[|ivs| - 1].Closed() {
      var i :| 0 <= i < |ivs| && ivs[i].Closed();
      assert prefix[i] == ivs[i];
      ClosedNeedsTwoEndpoints(prefix);
    }
  }

  /**
   * An ocean that at most one sample falls inside never gets a key in the
   * result: a single observation opens a pair but cannot close it.
   */
  lemma SingleVisitEarnsNothing(samples: seq<Sample>, o: Ocean)
    requires Visits(samples, o) <= 1
    ensures o !in Collapsed(Run(samples).times)
  {
    RunEndpoints(samples, o);
    if HasClosed(Run(samples).times[o]) {
      ClosedNeedsTwoEndpoints(Run(samples).times[o]);
    }
  }

  // ---------------------------------------------------------------------------
  // Every recorded time was observed in that ocean

  /** Some sample inside ocean `o` carries timestamp `t`. */
  predicate Observed(samples: seq<Sample>, o: Ocean, t: int) {
    exists k :: 0 <= k < |samples| && samples[k].region == Some(o) && samples[k].ts == t
  }

  /** Every endpoint set in `ivs` is the timestamp of some sample inside `o`. */
  predicate AllObserved(samples: seq<Sample>, o: Ocean, ivs: seq<Interval>) {
    forall i :: 0 <= i < |ivs| ==>
      && (ivs[i].entry.Some? ==> Observed(samples, o, ivs[i].entry.value))
      && (ivs[i].exit.Some? ==> Observed(samples, o, ivs[i].exit.value))
  }

  /** What was observed in a prefix of the trajectory is observed in the whole of it. */
  lemma ObservedInLonger(samples: seq<Sample>, k: nat, o: Ocean, ivs: seq<Interval>)
    requires k <= |samples| && AllObserved(samples[..k], o, ivs)
    ensures AllObserved(samples, o, ivs)
  {
  }

  /** A step records, in `o`'s list, at most the time of a sample inside `o`. */
  lemma StepObserved(samples: seq<Sample>, st: TrackState, s: Sample, o: Ocean)
    requires Valid(st) && AllObserved(samples, o, st.times[o])
    requires s.region == Some(o) ==> Observed(samples, o, s.ts)
    ensures AllObserved(samples, o, Step(st, s).times[o])
  {
  }

  /**
   * Each entry and exit in ocean `o`'s list is the time of a sample that lay
   * inside `o`: the tracker never invents a time nor files one under another
   * ocean.
   */
  lemma {:induction false} RunRecordsObservedTimes(samples: seq<Sample>, o: Ocean)
    ensures AllObserved(samples, o, Run(samples).times[o])
    decreases |samples|
  {
    if samples != [] {
      var n := |samples|;
      var prefix := samples[..n - 1];
      RunRecordsObservedTimes(prefix, o);
      ObservedInLonger(samples, n - 1, o, Run(prefix).times[o]);
      if samples[n - 1].region == Some(o) {
        assert Observed(samples, o, samples[n - 1].ts);
      }
      StepObserved(samples, Run(prefix), samples[n - 1], o);
    }
  }

  // ---------------------------------------------------------------------------
  // Worked trajectories, for any timestamps (in seconds)

  /** Atlantic at t0 and t1, outside every ocean at t2, Atlantic again at t3 and t4. */
  function Trip(t0: int, t1: int, t2: int, t3: int, t4: int): seq<Sample> {
    [Sample(Some(Atlantic), t0), Sample(Some(Atlantic), t1), Sample(None, t2),
     Sample(Some(Atlantic), t3), Sample(Some(Atlantic), t4)]
  }

  /** After Atlantic at t0 and t1: one Atlantic pair (t0, t1), the other oceans untouched. */
  lemma TripFirstVisit(t0: int, t1: int)
    ensures var st := Run([Sample(Some(Atlantic), t0), Sample(Some(Atlantic), t1)]);
      && st.times[Atlantic] == [Interval(Some(t0), Some(t1))]
      && st.last == Some(Atlantic)
      && st.times[Indian] == [Pending] && st.times[Pacific] == [Pending]
  {
    var s0, s1 := Sample(Some(Atlantic), t0), Sample(Some(Atlantic), t1);
    assert [s0] == [] + [s0];
    RunSnoc([], s0);
    StepInside(Init(), s0, Atlantic);
    var entered := Run([s0]).times[Atlantic];
    assert entered == [entered[0]];
    assert [s0, s1] == [s0] + [s1];
    RunSnoc([s0], s1);
    StepInside(Run([s0]), s1, Atlantic);
    var closed := Run([s0, s1]).times[Atlantic];
    assert closed == [closed[0]];
  }

  /** After the outside sample at t2: a pending pair appended to the Atlantic's list. */
  lemma TripLeaves(t0: int, t1: int, t2: int)
    ensures var st := Run([Sample(Some(Atlantic), t0), Sample(Some(Atlantic), t1), Sample(None, t2)]);
      && st.times[Atlantic] == [Interval(Some(t0), Some(t1)), Pending]
      && st.times[Indian] == [Pending] && st.times[Pacific] == [Pending]
  {
    var s0, s1, s2 := Sample(Some(Atlantic), t0), Sample(Some(Atlantic), t1), Sample(None, t2);
    TripFirstVisit(t0, t1);
    assert [s0, s1, s2] == [s0, s1] + [s2];
    RunSnoc([s0, s1], s2);
    StepLeaves(Run([s0, s1]), s2, Atlantic);
  }

  /** After returning at t3: a second Atlantic pair opened at t3. */
  lemma TripReturns(t0: int, t1: int, t2: int, t3: int)
    ensures var st := Run([Sample(Some(Atlantic), t0), Sample(Some(Atlantic), t1), Sample(None, t2),
                           Sample(Some(Atlantic), t3)]);
      && st.times[Atlantic] == [Interval(Some(t0), Some(t1)), Interval(Some(t3), None)]
      && st.times[Indian] == [Pending] && st.times[Pacific] == [Pending]
  {
    var s0, s1, s2, s3 := Sample(Some(Atlantic), t0), Sample(Some(Atlantic), t1), Sample(None, t2), Sample(Some(Atlantic), t3);
    TripLeaves(t0, t1, t2);
    assert [s0, s1, s2, s3] == [s0, s1, s2] + [s3];
    RunSnoc([s0, s1, s2], s3);
    StepInside(Run([s0, s1, s2]), s3, Atlantic);
    var after := Run([s0, s1, s2, s3]).times[Atlantic];
    assert after == after[..1] + [after[1]];
  }

  /** After the second Atlantic visit ends at t4: two closed Atlantic pairs. */
  lemma TripTracked(t0: int, t1: int, t2: int, t3: int, t4: int)
    ensures var st := Run(Trip(t0, t1, t2, t3, t4));
      && st.times[Atlantic] == [Interval(Some(t0), Some(t1)), Interval(Some(t3), Some(t4))]
      && st.times[Indian] == [Pending] && st.times[Pacific] == [Pending]
  {
    var s0, s1, s2, s3 := Sample(Some(Atlantic), t0), Sample(Some(Atlantic), t1), Sample(None, t2), Sample(Some(Atlantic), t3);
    var s4 := Sample(Some(Atlantic), t4);
    TripReturns(t0, t1, t2, t3);
    assert Trip(t0, t1, t2, t3, t4) == [s0, s1, s2, s3] + [s4];
    RunSnoc([s0, s1, s2, s3], s4);
    StepInside(Run([s0, s1, s2, s3]), s4, Atlantic);
    var ivs := Run(Trip(t0, t1, t2, t3, t4)).times[Atlantic];
    assert ivs == ivs[..1] + [ivs[1]];
  }

  /** Collapsing two closed pairs in one ocean and a pending pair in the others. */
  lemma CollapseTwoPairs(times: Ranges, t0: int, t1: int, t3: int, t4: int)
    requires Atlantic in times && Indian in times && Pacific in times
    requires times[Atlantic] == [Interval(Some(t0), Some(t1)), Interval(Some(t3), Some(t4))]
    requires times[Indian] == [Pending] && times[Pacific] == [Pending]
    ensures Collapsed(times) == map[Atlantic := (t1 - t0) as real / 3600.0 + (t4 - t3) as real / 3600.0]
  {
    var ivs := times[Atlantic];
    var first := Interval(Some(t0), Some(t1));
    assert ivs[..1] == [first] && [first][..0] == [];
    assert ClosedHours([first]) == Hours(first);
    assert ivs[0].Closed();
    assert !HasClosed([Pending]);
    forall o | o in Collapsed(times)
      ensures o == Atlantic
    {
      if o.Indian? {} else if o.Pacific? {}
    }
    assert Collapsed(times).Keys == {Atlantic};
  }

  /**
   * Atlantic at t0 and t1, outside at t2, Atlantic at t3 and t4: the outside
   * sample starts a second pair, so the Atlantic has two closed pairs,
   * (t0, t1) and (t3, t4), and its hours are their sum; the time spent
   * outside is not counted and the other oceans get no key.
   */
  lemma AtlanticLeavesAndReturns(t0: int, t1: int, t2: int, t3: int, t4: int)
    ensures Run(Trip(t0, t1, t2, t3, t4)).times[Atlantic] == [Interval(Some(t0), Some(t1)), Interval(Some(t3), Some(t4))]
    ensures Collapsed(Run(Trip(t0, t1, t2, t3, t4)).times)
            == map[Atlantic := (t1 - t0) as real / 3600.0 + (t4 - t3) as real / 3600.0]
  {
    TripTracked(t0, t1, t2, t3, t4);
    CollapseTwoPairs(Run(Trip(t0, t1, t2, t3, t4)).times, t0, t1, t3, t4);
  }

  /**
   * Atlantic at t0, then Pacific at t1 with no outside sample between: the
   * Atlantic pair is left open (its exit is never set) and the Pacific pair
   * is opened; neither is closed, so the result has no key at all.
   */
  lemma DirectJump(t0: int, t1: int)
    ensures var jump := [Sample(Some(Atlantic), t0), Sample(Some(Pacific), t1)];
      && Run(jump).times[Atlantic] == [Interval(Some(t0), None)]
      && Run(jump).times[Pacific] == [Interval(Some(t1), None)]
      && Collapsed(Run(jump).times) == map[]
  {
    var s0, s1 := Sample(Some(Atlantic), t0), Sample(Some(Pacific), t1);
    assert [s0] == [] + [s0];
    RunSnoc([], s0);
    StepInside(Init(), s0, Atlantic);
    var atlantic := Run([s0]).times[Atlantic];
    assert atlantic == [atlantic[0]];
    assert [s0, s1] == [s0] + [s1];
    RunSnoc([s0], s1);
    StepInside(Run([s0]), s1, Pacific);
    var pacific := Run([s0, s1]).times[Pacific];
    assert pacific == [pacific[0]];
    assert !HasClosed([Pending]) && !HasClosed(pacific) && !HasClosed(atlantic);
    assert Collapsed(Run([s0, s1]).times).Keys == {};
  }

  /** Atlantic at t0, Pacific at t1 and t2, Atlantic again at t3, with no outside sample. */
  function Resume(t0: int, t1: int, t2: int, t3: int): seq<Sample> {
    [Sample(Some(Atlantic), t0), Sample(Some(Pacific), t1), Sample(Some(Pacific), t2), Sample(Some(Atlantic), t3)]
  }

  /** After Atlantic at t0 and Pacific at t1 and t2: an open Atlantic pair and a closed Pacific pair (t1, t2). */
  lemma ResumeInPacific(t0: int, t1: int, t2: int)
    ensures var st := Run([Sample(Some(Atlantic), t0), Sample(Some(Pacific), t1), Sample(Some(Pacific), t2)]);
      && st.times[Atlantic] == [Interval(Some(t0), None)]
      && st.times[Pacific] == [Interval(Some(t1), Some(t2))]
      && st.times[Indian] == [Pending]
  {
    var s0, s1, s2 := Sample(Some(Atlantic), t0), Sample(Some(Pacific), t1), Sample(Some(Pacific), t2);
    assert [s0] == [] + [s0];
    RunSnoc([], s0);
    StepInside(Init(), s0, Atlantic);
    var atlantic := Run([s0]).times[Atlantic];
    assert atlantic == [atlantic[0]];
    assert [s0, s1] == [s0] + [s1];
    RunSnoc([s0], s1);
    StepInside(Run([s0]), s1, Pacific);
    var entered := Run([s0, s1]).times[Pacific];
    assert entered == [entered[0]];
    assert [s0, s1, s2] == [s0, s1] + [s2];
    RunSnoc([s0, s1], s2);
    StepInside(Run([s0, s1]), s2, Pacific);
    var closed := Run([s0, s1, s2]).times[Pacific];
    assert closed == [closed[0]];
  }

  /** After the return to the Atlantic at t3: its first pair resumed, with exit t3. */
  lemma ResumeTracked(t0: int, t1: int, t2: int, t3: int)
    ensures var st := Run(Resume(t0, t1, t2, t3));
      && st.times[Atlantic] == [Interval(Some(t0), Some(t3))]
      && st.times[Pacific] == [Interval(Some(t1), Some(t2))]
      && st.times[Indian] == [Pending]
  {
    var s0, s1, s2, s3 := Sample(Some(Atlantic), t0), Sample(Some(Pacific), t1), Sample(Some(Pacific), t2), Sample(Some(Atlantic), t3);
    ResumeInPacific(t0, t1, t2);
    assert Resume(t0, t1, t2, t3) == [s0, s1, s2] + [s3];
    RunSnoc([s0, s1, s2], s3);
    StepInside(Run([s0, s1, s2]), s3, Atlantic);
    var atlantic := Run(Resume(t0, t1, t2, t3)).times[Atlantic];
    assert atlantic == [atlantic[0]];
  }

  /** Collapsing one closed pair in each of two oceans and a pending pair in the third. */
  lemma CollapseOnePairEach(times: Ranges, t0: int, t1: int, t2: int, t3: int)
    requires Atlantic in times && Indian in times && Pacific in times
    requires times[Atlantic] == [Interval(Some(t0), Some(t3))]
    requires times[Pacific] == [Interval(Some(t1), Some(t2))]
    requires times[Indian] == [Pending]
    ensures Collapsed(times) == map[Pacific := (t2 - t1) as real / 3600.0, Atlantic := (t3 - t0) as real / 3600.0]
  {
    var pacific, resumed := Interval(Some(t1), Some(t2)), Interval(Some(t0), Some(t3));
    assert [pacific][0].Closed() && [resumed][0].Closed();
    assert !HasClosed([Pending]);
    assert ClosedHours([pacific]) == Hours(pacific);
    assert ClosedHours([resumed]) == Hours(resumed);
    forall o | o in Collapsed(times)
      ensures o == Pacific || o == Atlantic
    {
      if o.Indian? {}
    }
    assert Collapsed(times).Keys == {Pacific, Atlantic};
  }

  /**
   * Atlantic at t0, Pacific at t1 and t2, Atlantic at t3: the return to the
   * Atlantic resumes its first pair, whose exit becomes t3, so the Atlantic's
   * hours cover the Pacific stay as well. Whenever that stay has a positive
   * length, the hours of the two oceans add up to more than the window from
   * the first sample to the last: the hours of different oceans are not
   * bounded by the window's length.
   */
  lemma ResumeSpansOtherOcean(t0: int, t1: int, t2: int, t3: int)
    ensures Run(Resume(t0, t1, t2, t3)).times[Atlantic] == [Interval(Some(t0), Some(t3))]
    ensures Run(Resume(t0, t1, t2, t3)).times[Pacific] == [Interval(Some(t1), Some(t2))]
    ensures var hours := Collapsed(Run(Resume(t0, t1, t2, t3)).times);
      && hours == map[Pacific := (t2 - t1) as real / 3600.0, Atlantic := (t3 - t0) as real / 3600.0]
      && (t1 < t2 ==> hours[Pacific] + hours[Atlantic] > (t3 - t0) as real / 3600.0)
  {
    ResumeTracked(t0, t1, t2, t3);
    CollapseOnePairEach(Run(Resume(t0, t1, t2, t3)).times, t0, t1, t2, t3);
  }
}
