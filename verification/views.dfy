/** A player's `View`: a centre chunk and a radius, covering a square of chunks,
    together with the enumeration of its chunks and `difference`. */
module Views {
  import opened Chunks

  /** The view of a player standing in chunk `center` with view distance `radius`. */
  datatype View = View(center: ChunkPosition, radius: nat)

  /** The chunks a view covers: the square of side `2 * radius + 1` around its centre. */
  predicate Covers(v: View, c: ChunkPosition) {
    && v.center.x - v.radius <= c.x <= v.center.x + v.radius
    && v.center.z - v.radius <= c.z <= v.center.z + v.radius
  }

  /** The chunks `(x, zlo)`, ..., `(x, zlo + n - 1)`, each exactly once, in order of `z`. */
  function Strip(x: int, zlo: int, n: nat): (r: seq<ChunkPosition>)
    ensures |r| == n
    ensures forall c :: multiset(r)[c] == if c.x == x && zlo <= c.z < zlo + n then 1 else 0
    decreases n
  {
    if n == 0 then []
    else
      var rest := Strip(x, zlo + 1, n - 1);
      assert multiset([ChunkPosition(x, zlo)] + rest) == multiset{ChunkPosition(x, zlo)} + multiset(rest);
      [ChunkPosition(x, zlo)] + rest
  }

  /** The `m` by `n` block of chunks with lower corner `(xlo, zlo)`, each exactly once,
      one strip of constant `x` after the other. */
  function Block(xlo: int, m: nat, zlo: int, n: nat): (r: seq<ChunkPosition>)
    ensures |r| == m * n
    ensures forall c :: multiset(r)[c] == if xlo <= c.x < xlo + m && zlo <= c.z < zlo + n then 1 else 0
    decreases m
  {
    if m == 0 then []
    else
      var strip := Strip(xlo, zlo, n);
      var rest := Block(xlo + 1, m - 1, zlo, n);
      assert multiset(strip + rest) == multiset(strip) + multiset(rest);
      PeelRow(m, n);
      strip + rest
  }

  lemma PeelRow(m: nat, n: nat)
    requires m > 0
    ensures m * n == n + (m - 1) * n
  {
  }

  /** `View::iter`: every chunk the view covers, exactly once, and nothing else. */
  function Cells(v: View): (r: seq<ChunkPosition>)
    ensures |r| == (2 * v.radius + 1) * (2 * v.radius + 1)
    ensures forall c :: multiset(r)[c] == if Covers(v, c) then 1 else 0
  {
    var side := 2 * v.radius + 1;
    Block(v.center.x - v.radius, side, v.center.z - v.radius, side)
  }

  /** The elements of `s` that `b` does not cover, in their order in `s`. */
  function Outside(s: seq<ChunkPosition>, b: View): (r: seq<ChunkPosition>)
    ensures forall c :: multiset(r)[c] == if Covers(b, c) then 0 else multiset(s)[c]
    ensures |r| <= |s|
  {
    if |s| == 0 then []
    else
      var rest := Outside(s[1..], b);
      assert s == [s[0]] + s[1..];
      assert multiset(s) == multiset{s[0]} + multiset(s[1..]);
      if Covers(b, s[0]) then rest
      else
        assert multiset([s[0]] + rest) == multiset{s[0]} + multiset(rest);
        [s[0]] + rest
  }

  /** `a.difference(b)`: each chunk covered by `a` and not by `b`, exactly once, and nothing else. */
  function Difference(a: View, b: View): (r: seq<ChunkPosition>)
    ensures forall c :: multiset(r)[c] == if Covers(a, c) && !Covers(b, c) then 1 else 0
    ensures forall c :: c in r <==> Covers(a, c) && !Covers(b, c)
  {
    var r := Outside(Cells(a), b);
    assert forall c :: c in r <==> multiset(r)[c] > 0;
    r
  }
}
