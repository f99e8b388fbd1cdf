/** The `to_list` template filter (apps/ganaderia/templatetags/list_filters.py):
    `range(int(start), int(end) + 1)`, the integers from `start` to `end`
    inclusive. The arguments are taken as integers already. */
module ListFilters {

  /** `to_list(start, end)`. */
  function ToList(start: int, end: int): (r: seq<int>)
    ensures |r| == if end < start then 0 else end - start + 1
    ensures forall i :: 0 <= i < |r| ==> r[i] == start + i
    decreases end - start
  {
    if end < start then [] else [start] + ToList(start + 1, end)
  }

  /** An integer is in the list iff it lies between the bounds, and the list is
      strictly increasing, so it holds each of them once. */
  lemma ToListMembers(start: int, end: int, x: int)
    ensures x in ToList(start, end) <==> start <= x <= end
    ensures forall i, j :: 0 <= i < j < |ToList(start, end)| ==> ToList(start, end)[i] < ToList(start, end)[j]
  {
    var r := ToList(start, end);
    if start <= x <= end {
      assert r[x - start] == x;
    }
  }
}
