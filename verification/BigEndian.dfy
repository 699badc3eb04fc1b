/** Fixed-width big-endian integers, as encoding/binary reads and writes them. */
module BigEndian {
  import opened Bytes

  /** One more than the largest integer that width bytes hold. */
  function Limit(width: nat): nat { if width == 0 then 1 else 256 * Limit(width - 1) }

  function Get(b: Bytes): nat { if |b| == 0 then 0 else 256 * Get(b[..|b| - 1]) + b[|b| - 1] }

  function Put(width: nat, v: nat): (b: Bytes)
    ensures |b| == width
  {
    if width == 0 then [] else Put(width - 1, v / 256) + [v % 256]
  }

  lemma {:induction false} GetFits(b: Bytes)
    ensures Get(b) < Limit(|b|)
  {
    if |b| > 0 { GetFits(b[..|b| - 1]); }
  }

  lemma {:induction false} GetPut(width: nat, v: nat)
    requires v < Limit(width)
    ensures Get(Put(width, v)) == v
  {
    if width > 0 {
      GetPut(width - 1, v / 256);
      assert Put(width, v)[..width - 1] == Put(width - 1, v / 256);
    }
  }

  lemma {:induction false} PutGet(b: Bytes)
    ensures Put(|b|, Get(b)) == b
  {
    if |b| > 0 { PutGet(b[..|b| - 1]); }
  }
}
