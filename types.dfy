/**
 * Values shared by the dwell-time engine: the ocean basins, the classified
 * position samples the tracker consumes, and the entry/exit pairs it keeps
 * per ocean.
 */
module Types {

  datatype Option<+T> = None | Some(value: T)

  /** The ocean basins the engine keeps intervals for (the keys of the initial interval map). */
  datatype Ocean = Indian | Pacific | Atlantic

  /**
   * One row of a vessel's trajectory after classification: the ocean that
   * contains the position (None when no ocean does) and the row's timestamp
   * in whole seconds.
   */
  datatype Sample = Sample(region: Option<Ocean>, ts: int)

  /**
   * A candidate stay inside one ocean: `[entry, exit]`, each possibly unset.
   * Pending: both unset; open: only the entry set; closed: both set.
   */
  datatype Interval = Interval(entry: Option<int>, exit: Option<int>) {
    predicate Closed() {
      entry.Some? && exit.Some?
    }
  }

  const Pending: Interval := Interval(None, None)

  /** Timestamps never decrease along the trajectory (the query orders rows by tstamp ascending). */
  ghost predicate Sorted(samples: seq<Sample>) {
    forall i, j :: 0 <= i < j < |samples| ==> samples[i].ts <= samples[j].ts
  }
}
