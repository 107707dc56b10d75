/** Integer arithmetic behind the chunk splitter: ceiling division and the geometry of a split. */
module ChunkMath {

  function Min(a: int, b: int): (r: int)
    ensures r <= a && r <= b && (r == a || r == b)
  {
    if a <= b then a else b
  }

  /** `math.ceil(a / b)`: the least q with a <= q * b. */
  function CeilDiv(a: nat, b: nat): (q: nat)
    requires b > 0
    ensures a <= q * b
    ensures (q - 1) * b < a || (a == 0 && q == 0)
  {
    (a + b - 1) / b
  }

  lemma MulMonotone(x: int, y: int, z: int)
    requires x <= y && 0 <= z
    ensures x * z <= y * z
  {
  }

  /** One more than a multiplier adds the multiplicand once. */
  lemma MulSucc(x: int, z: int)
    ensures (x + 1) * z == x * z + z
  {
  }

  /** Number of chunks for `size` bytes under a limit of `max`: one when it fits, else ceil(size / max). */
  function NumChunks(size: nat, max: nat): (n: nat)
    requires max > 0
    ensures n >= 1
  {
    if size <= max then 1 else CeilDiv(size, max)
  }

  /** Bytes per chunk: the whole buffer when it fits, else ceil(size / n). */
  function ChunkSize(size: nat, max: nat): (c: nat)
    requires max > 0
  {
    if size <= max then size else CeilDiv(size, NumChunks(size, max))
  }

  /**
   * The geometry of a split: the chunk count is the least one whose chunks of at most
   * `max` bytes cover the buffer, the chunk size respects the limit, `n` chunks of `c`
   * bytes cover the buffer, and the last chunk starts strictly inside a non-empty buffer.
   */
  lemma SplitGeometry(size: nat, max: nat)
    requires max > 0
    ensures var n, c := NumChunks(size, max), ChunkSize(size, max);
      && size <= n * max
      && (n == 1 || (n - 1) * max < size)
      && c <= max
      && size <= n * c
      && (size > 0 ==> (n - 1) * c < size)
  {
    var n, c := NumChunks(size, max), ChunkSize(size, max);
    if size > max {
      assert n >= 2;
      // c is the least multiplier of n that covers size, and max already covers it
      assert (c - 1) * n < size <= n * max;
      if c > max {
        MulMonotone(max, c - 1, n);
      }
      MulMonotone(c, max, n - 1);
    }
  }

  /**
   * Where chunk k starts and ends: it starts inside the buffer, every chunk but the
   * last ends a full chunk size later, and the last one ends at or past the buffer's end.
   */
  lemma ChunkBounds(size: nat, max: nat, k: nat)
    requires max > 0 && size > 0
    requires k < NumChunks(size, max)
    ensures var n, c := NumChunks(size, max), ChunkSize(size, max);
      && k * c < size
      && (k < n - 1 ==> k * c + c < size)
      && (k == n - 1 ==> size <= k * c + c)
  {
    var n, c := NumChunks(size, max), ChunkSize(size, max);
    SplitGeometry(size, max);
    MulMonotone(k, n - 1, c);
    MulSucc(k, c);
    if k < n - 1 {
      MulMonotone(k + 1, n - 1, c);
    } else {
      MulSucc(n - 1, c);
    }
  }
}
