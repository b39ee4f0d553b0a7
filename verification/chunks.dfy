/** Chunk positions on the 2-D grid of chunk columns, and the squared distance between them. */
module Chunks {

  /** A chunk column, addressed by its integer grid coordinates. */
  datatype ChunkPosition = ChunkPosition(x: int, z: int)

  /** `distance_squared_to`: the squared Euclidean distance between two chunk positions.
      It is never negative and is zero exactly at the other position itself. */
  function DistanceSquared(a: ChunkPosition, b: ChunkPosition): (d: int)
    ensures d >= 0
    ensures d == 0 <==> a == b
  {
    var dx := a.x - b.x;
    var dz := a.z - b.z;
    SquareNonNegative(dx);
    SquareNonNegative(dz);
    dx * dx + dz * dz
  }

  lemma SquareNonNegative(n: int)
    ensures n * n >= 0
    ensures n * n == 0 <==> n == 0
  {
    if n != 0 {
      if n > 0 {
        assert n * n >= n;
      } else {
        assert n * n == (-n) * (-n);
        assert (-n) * (-n) >= -n;
      }
    }
  }
}
