/** Sorting chunk lists by squared distance to a centre chunk (`sort_unstable_by_key`
    with key `distance_squared_to(center)`). The source's sort is unstable, so the
    contract fixes only the order of keys and the multiset of elements, not the order
    among chunks at equal distance. */
module DistanceSort {
  import opened Chunks

  /** Non-decreasing squared distance to `center` along the list. */
  ghost predicate SortedBy(s: seq<ChunkPosition>, center: ChunkPosition) {
    forall i, j :: 0 <= i < j < |s| ==> DistanceSquared(s[i], center) <= DistanceSquared(s[j], center)
  }

  /** Places `c` in the sorted list `s` so that the result is still sorted. */
  function Insert(c: ChunkPosition, s: seq<ChunkPosition>, center: ChunkPosition): (r: seq<ChunkPosition>)
    requires SortedBy(s, center)
    ensures SortedBy(r, center)
    ensures multiset(r) == multiset(s) + multiset{c}
    decreases |s|
  {
    if |s| == 0 then [c]
    else if DistanceSquared(c, center) <= DistanceSquared(s[0], center) then
      assert multiset([c] + s) == multiset{c} + multiset(s);
      [c] + s
    else
      var rest := Insert(c, s[1..], center);
      assert s == [s[0]] + s[1..];
      assert multiset(s) == multiset{s[0]} + multiset(s[1..]);
      assert multiset([s[0]] + rest) == multiset{s[0]} + multiset(rest);
      ConsSorted(s, c, rest, center);
      [s[0]] + rest
  }

  /** Putting the head of a sorted list in front of a sorted rearrangement of its tail
      plus a farther chunk `c` keeps the list sorted. */
  lemma ConsSorted(s: seq<ChunkPosition>, c: ChunkPosition, rest: seq<ChunkPosition>, center: ChunkPosition)
    requires |s| > 0 && SortedBy(s, center) && SortedBy(rest, center)
    requires DistanceSquared(s[0], center) < DistanceSquared(c, center)
    requires multiset(rest) == multiset(s[1..]) + multiset{c}
    ensures SortedBy([s[0]] + rest, center)
  {
    var r := [s[0]] + rest;
    forall j | 0 < j < |r|
      ensures DistanceSquared(r[0], center) <= DistanceSquared(r[j], center)
    {
      var y := r[j];
      assert y == rest[j - 1];
      assert y in multiset(rest);
      if y != c {
        assert y in multiset(s[1..]);
        var k :| 0 <= k < |s[1..]| && s[1..][k] == y;
        assert s[k + 1] == y;
      }
    }
  }

  /** The chunks of `s`, reordered by non-decreasing squared distance to `center`. */
  function SortByDistance(s: seq<ChunkPosition>, center: ChunkPosition): (r: seq<ChunkPosition>)
    ensures SortedBy(r, center)
    ensures multiset(r) == multiset(s)
    decreases |s|
  {
    if |s| == 0 then []
    else
      assert s == [s[0]] + s[1..];
      assert multiset(s) == multiset{s[0]} + multiset(s[1..]);
      Insert(s[0], SortByDistance(s[1..], center), center)
  }
}
