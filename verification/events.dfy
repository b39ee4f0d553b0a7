/** The events of `events.rs` that carry data: the view update a player's move
    produces, and the chunk-crossing and chunk-load-failure records. */
module Events {
  import opened Chunks
  import opened Views
  import opened DistanceSort

  /** Triggered when a player changes their view, i.e. crosses into a new chunk.
      `newChunks` are in `newView` but not `oldView`; `oldChunks` are in `oldView`
      but not `newView`. */
  datatype ViewUpdateEvent = ViewUpdateEvent(
    oldView: View,
    newView: View,
    newChunks: seq<ChunkPosition>,
    oldChunks: seq<ChunkPosition>)

  /** Triggered for every entity (player or not) that crosses into a new chunk. */
  datatype ChunkCrossEvent = ChunkCrossEvent(oldChunk: ChunkPosition, newChunk: ChunkPosition)

  /** Triggered when loading the chunk at `position` failed. */
  datatype ChunkLoadFailEvent = ChunkLoadFailEvent(position: ChunkPosition)

  /** `ViewUpdateEvent::new`: the chunks entering the view, nearest to the new centre
      first, and the chunks leaving it, nearest to the old centre first. */
  function NewViewUpdate(oldView: View, newView: View): (e: ViewUpdateEvent)
    ensures e.oldView == oldView && e.newView == newView
    ensures forall c :: multiset(e.newChunks)[c] == if Covers(newView, c) && !Covers(oldView, c) then 1 else 0
    ensures forall c :: multiset(e.oldChunks)[c] == if Covers(oldView, c) && !Covers(newView, c) then 1 else 0
    ensures multiset(e.newChunks) == multiset(Difference(newView, oldView))
    ensures multiset(e.oldChunks) == multiset(Difference(oldView, newView))
    ensures SortedBy(e.newChunks, newView.center)
    ensures SortedBy(e.oldChunks, oldView.center)
  {
    ViewUpdateEvent(
      oldView,
      newView,
      SortByDistance(Difference(newView, oldView), newView.center),
      SortByDistance(Difference(oldView, newView), oldView.center))
  }

  /** A chunk is in a list exactly when its multiplicity there is positive. */
  lemma InIffCounted(s: seq<ChunkPosition>, c: ChunkPosition)
    ensures c in s <==> multiset(s)[c] > 0
  {
  }

  /** Membership in both chunk lists, both directions: a chunk enters exactly when only
      the new view covers it and leaves exactly when only the old view covers it. */
  lemma ViewUpdateMembership(oldView: View, newView: View, c: ChunkPosition)
    ensures c in NewViewUpdate(oldView, newView).newChunks <==> Covers(newView, c) && !Covers(oldView, c)
    ensures c in NewViewUpdate(oldView, newView).oldChunks <==> Covers(oldView, c) && !Covers(newView, c)
  {
    var e := NewViewUpdate(oldView, newView);
    InIffCounted(e.newChunks, c);
    InIffCounted(e.oldChunks, c);
  }

  /** The two lists never share a chunk, and a chunk both views cover is in neither. */
  lemma ViewUpdateDisjoint(oldView: View, newView: View)
    ensures forall c :: !(c in NewViewUpdate(oldView, newView).newChunks && c in NewViewUpdate(oldView, newView).oldChunks)
    ensures forall c :: Covers(oldView, c) && Covers(newView, c) ==>
      c !in NewViewUpdate(oldView, newView).newChunks && c !in NewViewUpdate(oldView, newView).oldChunks
  {
    forall c ensures !(c in NewViewUpdate(oldView, newView).newChunks && c in NewViewUpdate(oldView, newView).oldChunks) {
      ViewUpdateMembership(oldView, newView, c);
    }
    forall c | Covers(oldView, c) && Covers(newView, c)
      ensures c !in NewViewUpdate(oldView, newView).newChunks && c !in NewViewUpdate(oldView, newView).oldChunks
    {
      ViewUpdateMembership(oldView, newView, c);
    }
  }

  /** The set of chunks a view covers. */
  ghost function CoveredSet(v: View): set<ChunkPosition> {
    set c | c in Cells(v)
  }

  lemma CoveredSetMember(v: View, c: ChunkPosition)
    ensures c in CoveredSet(v) <==> Covers(v, c)
  {
    InIffCounted(Cells(v), c);
  }

  /** The chunks that are covered by exactly one of the two views. */
  ghost function SymmetricDifference(oldView: View, newView: View): set<ChunkPosition> {
    (CoveredSet(newView) - CoveredSet(oldView)) + (CoveredSet(oldView) - CoveredSet(newView))
  }

  /** The chunks listed in either list of a view update. */
  ghost function Listed(e: ViewUpdateEvent): set<ChunkPosition> {
    (set c | c in e.newChunks) + (set c | c in e.oldChunks)
  }

  /** Together the two lists hold exactly the symmetric difference of the covered sets. */
  lemma ViewUpdateSymmetricDifference(oldView: View, newView: View)
    ensures Listed(NewViewUpdate(oldView, newView)) == SymmetricDifference(oldView, newView)
  {
    var e := NewViewUpdate(oldView, newView);
    forall c ensures (c in e.newChunks <==> Covers(newView, c) && !Covers(oldView, c))
      && (c in e.oldChunks <==> Covers(oldView, c) && !Covers(newView, c))
    {
      ViewUpdateMembership(oldView, newView, c);
    }
    ListedIsSymmetric(oldView, newView, e);
  }

  /** `ViewUpdateSymmetricDifference` for any event whose lists have the right members. */
  lemma ListedIsSymmetric(oldView: View, newView: View, e: ViewUpdateEvent)
    requires forall c :: c in e.newChunks <==> Covers(newView, c) && !Covers(oldView, c)
    requires forall c :: c in e.oldChunks <==> Covers(oldView, c) && !Covers(newView, c)
    ensures Listed(e) == SymmetricDifference(oldView, newView)
  {
    forall c ensures c in Listed(e) <==> c in SymmetricDifference(oldView, newView) {
      CoveredSetMember(oldView, c);
      CoveredSetMember(newView, c);
    }
  }

  /** A non-empty list counts its first chunk. */
  lemma HeadCounted(s: seq<ChunkPosition>)
    ensures s != [] ==> multiset(s)[s[0]] > 0
  {
  }

  /** A view update between equal views enters and leaves no chunk. */
  lemma SameViewNoChunks(v: View)
    ensures NewViewUpdate(v, v).newChunks == []
    ensures NewViewUpdate(v, v).oldChunks == []
  {
    var e := NewViewUpdate(v, v);
    HeadCounted(e.newChunks);
    HeadCounted(e.oldChunks);
  }

  /** A player moving one chunk along +x, from any centre and with any view distance `r`:
      the far column of the new view enters (`2 * r + 1` chunks; with `r == 1`, three of
      the nine), the far column of the old view leaves, and each list starts with the
      chunk in line with its view's centre. */
  lemma StepAlongX(o: View, n: View)
    requires n.center == ChunkPosition(o.center.x + 1, o.center.z) && n.radius == o.radius
    ensures forall c :: multiset(NewViewUpdate(o, n).newChunks)[c] == if c.x == o.center.x + 1 + o.radius && o.center.z - o.radius <= c.z <= o.center.z + o.radius then 1 else 0
    ensures forall c :: multiset(NewViewUpdate(o, n).oldChunks)[c] == if c.x == o.center.x - o.radius && o.center.z - o.radius <= c.z <= o.center.z + o.radius then 1 else 0
    ensures |NewViewUpdate(o, n).newChunks| == 2 * o.radius + 1
    ensures NewViewUpdate(o, n).newChunks[0] == ChunkPosition(o.center.x + 1 + o.radius, o.center.z)
    ensures |NewViewUpdate(o, n).oldChunks| == 2 * o.radius + 1
    ensures NewViewUpdate(o, n).oldChunks[0] == ChunkPosition(o.center.x - o.radius, o.center.z)
  {
    StepLists(o, n, NewViewUpdate(o, n));
  }

  /** `StepAlongX` for any event whose lists meet the contract of `NewViewUpdate`. */
  lemma StepLists(o: View, n: View, e: ViewUpdateEvent)
    requires n.center == ChunkPosition(o.center.x + 1, o.center.z) && n.radius == o.radius
    requires forall c :: multiset(e.newChunks)[c] == if Covers(n, c) && !Covers(o, c) then 1 else 0
    requires forall c :: multiset(e.oldChunks)[c] == if Covers(o, c) && !Covers(n, c) then 1 else 0
    requires SortedBy(e.newChunks, n.center) && SortedBy(e.oldChunks, o.center)
    ensures forall c :: multiset(e.newChunks)[c] == if c.x == o.center.x + 1 + o.radius && o.center.z - o.radius <= c.z <= o.center.z + o.radius then 1 else 0
    ensures forall c :: multiset(e.oldChunks)[c] == if c.x == o.center.x - o.radius && o.center.z - o.radius <= c.z <= o.center.z + o.radius then 1 else 0
    ensures |e.newChunks| == 2 * o.radius + 1 && e.newChunks[0] == ChunkPosition(o.center.x + 1 + o.radius, o.center.z)
    ensures |e.oldChunks| == 2 * o.radius + 1 && e.oldChunks[0] == ChunkPosition(o.center.x - o.radius, o.center.z)
  {
    var r := o.radius;
    forall c ensures multiset(e.newChunks)[c] == if c.x == o.center.x + 1 + r && o.center.z - r <= c.z <= o.center.z + r then 1 else 0 {
      FarColumn(o, n, c);
    }
    ColumnList(e.newChunks, n.center, o.center.x + 1 + r, r);
    forall c ensures multiset(e.oldChunks)[c] == if c.x == o.center.x - r && o.center.z - r <= c.z <= o.center.z + r then 1 else 0 {
      FarColumn(o, n, c);
    }
    ColumnList(e.oldChunks, o.center, o.center.x - r, r);
  }

  /** A sorted list holding, once each, the `2 * w + 1` chunks of column `col` centred on
      the centre's z has that many elements and starts in line with the centre. */
  lemma ColumnList(s: seq<ChunkPosition>, center: ChunkPosition, col: int, w: nat)
    requires SortedBy(s, center)
    requires forall c :: multiset(s)[c] == if c.x == col && center.z - w <= c.z <= center.z + w then 1 else 0
    ensures |s| == 2 * w + 1 && s[0] == ChunkPosition(col, center.z)
  {
    var strip := Strip(col, center.z - w, 2 * w + 1);
    assert multiset(s) == multiset(strip);
    assert |s| == |multiset(s)| == |multiset(strip)| == |strip|;
    ColumnNearest(s, center, col, w);
  }

  /** Which chunks only one of two views a step apart along x covers. */
  lemma FarColumn(o: View, n: View, c: ChunkPosition)
    requires n.center == ChunkPosition(o.center.x + 1, o.center.z) && n.radius == o.radius
    ensures Covers(n, c) && !Covers(o, c) <==>
      c.x == o.center.x + 1 + o.radius && o.center.z - o.radius <= c.z < o.center.z - o.radius + (2 * o.radius + 1)
    ensures Covers(o, c) && !Covers(n, c) <==>
      c.x == o.center.x - o.radius && o.center.z - o.radius <= c.z < o.center.z - o.radius + (2 * o.radius + 1)
  {
  }

  /** In a sorted list holding, once each, the chunks of column `col` whose z is within
      `w` of the centre's, the chunk of that column in line with the centre comes first. */
  lemma ColumnNearest(s: seq<ChunkPosition>, center: ChunkPosition, col: int, w: nat)
    requires SortedBy(s, center)
    requires forall c :: multiset(s)[c] == if c.x == col && center.z - w <= c.z <= center.z + w then 1 else 0
    ensures |s| > 0 && s[0] == ChunkPosition(col, center.z)
  {
    var c := ChunkPosition(col, center.z);
    assert c in multiset(s);
    var j :| 0 <= j < |s| && s[j] == c;
    var y := s[0];
    assert y in multiset(s);
    var dx := col - center.x;
    var dz := y.z - center.z;
    assert DistanceSquared(c, center) == dx * dx + 0 * 0;
    assert DistanceSquared(y, center) == dx * dx + dz * dz;
    assert DistanceSquared(y, center) <= DistanceSquared(c, center);
    SquareNonNegative(dz);
  }
}
