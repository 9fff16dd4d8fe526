# Ocean dwell-time engine, modelled in Dafny

The service answers one question for one vessel and one time window: how many
hours did the vessel spend in each ocean? The answer comes from three parts of
`app/routes.py`, and each is modelled here.

- **Classifier** (`find_ocean`, `classifier.dfy`). It walks the ocean polygon
  table in order and returns the first ocean whose polygon contains the
  position, or nothing. The polygons, the points and the containment test are
  parameters. So the table's order, which breaks ties between overlapping
  polygons, is an input too.
- **Interval tracker** (the row loop of `get_oceans`, `tracker.dfy`). It makes
  one pass over the rows in ascending time order and keeps two things:
  - per ocean, a list of `[entry, exit]` pairs;
  - the previous row's ocean.

  A row inside ocean `o` fills `o`'s last pair. If the entry is unset, the row
  sets the entry. Otherwise it overwrites the exit. A row outside every ocean,
  right after a row inside one, appends a fresh `[None, None]` pair to that
  previous ocean's list. `Step` and `Run` specify one pass as a left fold.
  `TrackIntervals` is the loop itself, proved to end in `Run(samples)`.
- **Aggregator** (`collapse_ranges`, `aggregator.dfy`). Nested loops add up
  `(exit - entry) / 3600` over the pairs that have both endpoints set.
  `CollapseRanges` is proved equal to the specification `Collapsed`.

`engine.dfy` puts the three together as `GetOceans`. It also holds the
end-to-end properties and three worked trajectories, each proved for any
timestamps.

Samples are modelled as `Sample(region, ts)`. `region` is what the classifier
returned for the row's position. `ts` is the row's timestamp in whole seconds.
Hours are `real`, computed exactly.

Two behaviours of `get_oceans` are easy to expect otherwise; the model follows the code:

- An ocean with no closed pair is *absent* from the result. It is not present
  with 0. The result map starts empty, and a key only appears at the first
  `+=`. `NoClosedMeansZero` shows that such an absent ocean would have had 0
  anyway.
- The hours of different oceans are *not* bounded by the window's length. A
  direct move from one ocean to another appends nothing. A later return then
  resumes the first ocean's old pair, which spans the time spent elsewhere.
  `ResumeSpansOtherOcean` shows this for any timestamps: Atlantic at 0h,
  Pacific at 1h and 2h, and Atlantic at 3h give 4 hours in a 3-hour window.

## Model

| member | source | states |
|---|---|---|
| `Classifier.FindOcean` | app/routes.py:234-239 | None iff no polygon in the table contains the point; otherwise the ocean of a polygon that contains it, with no containing polygon before it in table order |
| `Tracker.Init` | app/routes.py:133-140 | before the first row, each of Indian, Pacific and Atlantic holds exactly one `[None, None]` pair, there is no previous ocean, and the scan invariant holds |
| `Tracker.Step` | app/routes.py:157-184 | one row keeps the scan invariant: lists stay non-empty, an exit is set only where the entry is, only a list's last pair may lack an entry, and the previous ocean's last pair has its entry set |
| `Tracker.Run` | app/routes.py:145-184 | the state after any sequence of rows satisfies the scan invariant |
| `Tracker.TrackIntervals` | app/routes.py:133-184 | the in-place loop over the rows ends with the pair map the fold specifies, and every list is well formed |
| `Tracker.StepInside` | app/routes.py:159-168 | a row inside ocean o changes only o's last pair: entry set when unset, else exit overwritten with the row's time; earlier pairs of o and all other lists are unchanged; o becomes the previous ocean |
| `Tracker.StepAppends` | app/routes.py:177-184 | a list grows by one `[None, None]` exactly when the row is outside every ocean and the previous row was in that list's ocean; no other row changes a list's length |
| `Tracker.StepLeaves` | app/routes.py:177-184 | the first row outside every ocean after a row inside o appends one `[None, None]` pair to o's list, leaves every other list as it was, and clears the previous ocean |
| `Tracker.StepFrame` | app/routes.py:157-184 | the row's ocean (or none) becomes the previous ocean; a list changes only when the row lies inside its ocean or is the first row outside after it |
| `Tracker.StepExtends` | app/routes.py:159-184 | one row never shortens a list, never changes a pair before a list's last one, and never changes an entry once set |
| `Tracker.RunExtends` | app/routes.py:145-184 | over the whole trajectory, the state after any prefix is continued by the final state: lists only grow, earlier pairs stay frozen, set entries keep their value |
| `Tracker.StepOrdered` | app/routes.py:159-168 | a row no earlier than every time already recorded keeps every closed pair's entry <= exit, and leaves every recorded time <= the row's time |
| `Tracker.RunOrdered` | app/routes.py:125-168 | rows in ascending time order leave every closed pair with entry <= exit |
| `Aggregator.CollapseRanges` | app/routes.py:214-227 | the nested loops yield a key exactly for the oceans with at least one closed pair, each mapped to the hours of its closed pairs; pairs with an unset endpoint add nothing |
| `Aggregator.ClosedHoursNonNegative` | app/routes.py:217-225 | a list whose closed pairs run forward in time adds up to at least zero hours |
| `Aggregator.NoClosedMeansZero` | app/routes.py:215-225 | a list without a closed pair adds up to zero hours, so leaving its ocean out of the result loses only the key |
| `Aggregator.ClosedHoursAppend` | app/routes.py:216-225 | the closed hours of two lists joined are the sum of their closed hours |
| `Aggregator.CollapsedNonNegative` | app/routes.py:214-227 | when every closed pair runs forward in time, every value in the result is at least zero |
| `Engine.GetOceans` | app/routes.py:145-210 | classifying, tracking and collapsing ordered rows yields the collapse of the tracked map; every value is at least zero; an empty window yields an empty map |
| `Engine.DwellNonNegative` | app/routes.py:125-225 | for rows in ascending time order, every ocean's hours are at least zero |
| `Engine.StepEndpoints` | app/routes.py:159-168 | a row inside o sets at most one endpoint in o's list; any other row sets none there |
| `Engine.RunEndpoints` | app/routes.py:145-184 | the endpoints set in o's list never outnumber the rows that lay inside o |
| `Engine.ClosedNeedsTwoEndpoints` | app/routes.py:217-225 | a list with a closed pair has at least two endpoints set |
| `Engine.SingleVisitEarnsNothing` | app/routes.py:145-227 | an ocean that at most one row falls inside gets no key in the result |
| `Engine.StepObserved` | app/routes.py:159-168 | a row records in o's list at most its own time, and only when it lies inside o |
| `Engine.RunRecordsObservedTimes` | app/routes.py:145-184 | every entry and exit in o's list is the timestamp of some row inside o |
| `Engine.AtlanticLeavesAndReturns` | app/routes.py:133-227 | for any times t0..t4: Atlantic at t0 and t1, outside at t2, Atlantic at t3 and t4 gives the Atlantic pairs (t0,t1) and (t3,t4), and the result is exactly {Atlantic: (t1-t0)/3600 + (t4-t3)/3600}; the time outside is not counted |
| `Engine.DirectJump` | app/routes.py:133-227 | for any times t0, t1: Atlantic at t0 then Pacific at t1 leaves the pairs (t0, None) and (t1, None) open, and the result is the empty map |
| `Engine.ResumeSpansOtherOcean` | app/routes.py:133-227 | for any times t0..t3: Atlantic at t0, Pacific at t1 and t2, Atlantic at t3 resumes the Atlantic pair to (t0,t3); the result is {Pacific: (t2-t1)/3600, Atlantic: (t3-t0)/3600}, which adds up to more than the window (t3-t0)/3600 whenever t1 < t2 |

## Left out

- HTTP routes and argument parsing in `put_ship_data` / `get_ship_data`. This is request glue and `strptime` parsing.
- All database access: `insert_data`, `get_db_connection`, `table_exists`, and the query and cursor in `get_oceans`. Of the query, the model keeps only its ascending `tstamp` order, as a precondition.
- The geometry. Shapely's `Point` and `polygon.contains` are a parameter `contains`. `app/ocean_data/oceans.py` (the polygon table) is not part of this model. Its keys are taken to be Indian, Pacific and Atlantic, the keys of the initial interval map. A polygon under any other name would make the Python code raise `KeyError`, and that path is not modelled.
- `if cur_ocean:` and `if last_ocean:` test a string's truthiness. Ocean names are non-empty, so the model tests for "some ocean".
- Floating point. Timestamps are whole seconds, and hours are exact reals. The float division by 3600 and its rounding, and sub-second `datetime` precision, are not modelled.
- Dictionary iteration order in `collapse_ranges`. Each ocean's total depends only on its own list, so `CollapseRanges` visits the oceans in any order.
- The commented-out plotting block, `inits/createDb.py` (CSV bulk load) and `start.py` (server startup).
