/**
 * The region classifier: the first ocean, in the polygon table's own order,
 * whose polygon contains a point. The geometry is not modelled: polygons and
 * points are type parameters and the containment test is a parameter.
 */
module Classifier {
  import opened Types

  /**
   * True iff no polygon among the first `k` entries of `polygons` contains `p`.
   */
  predicate NoneBefore<Poly, Point>(polygons: seq<(Ocean, Poly)>, contains: (Poly, Point) -> bool, p: Point, k: int)
    requires k <= |polygons|
  {
    forall j :: 0 <= j < k ==> !contains(polygons[j].1, p)
  }

  /**
   * Walks `polygons` in order and answers the ocean of the first polygon
   * that contains `p`; None when none of them does.
   */
  function FindOcean<Poly, Point>(polygons: seq<(Ocean, Poly)>, contains: (Poly, Point) -> bool, p: Point): (r: Option<Ocean>)
    ensures r.None? <==> NoneBefore(polygons, contains, p, |polygons|)
    ensures r.Some? ==> exists k :: 0 <= k < |polygons| && polygons[k].0 == r.value
                                    && contains(polygons[k].1, p) && NoneBefore(polygons, contains, p, k)
    decreases |polygons|
  {
    if polygons == [] then None
    else if contains(polygons[0].1, p) then
      assert NoneBefore(polygons, contains, p, 0);
      Some(polygons[0].0)
    else
      var rest := polygons[1..];
      var r := FindOcean(rest, contains, p);
      assert forall j :: 0 < j <= |rest| ==> (NoneBefore(polygons, contains, p, j) <==> NoneBefore(rest, contains, p, j - 1)) by {
        forall j | 0 < j <= |rest|
          ensures NoneBefore(polygons, contains, p, j) <==> NoneBefore(rest, contains, p, j - 1)
        {
          assert forall i :: 0 <= i < j - 1 ==> rest[i] == polygons[i + 1];
        }
      }
      if r.Some? then
        var k :| 0 <= k < |rest| && rest[k].0 == r.value && contains(rest[k].1, p) && NoneBefore(rest, contains, p, k);
        assert polygons[k + 1] == rest[k];
        r
      else
        r
  }
}
