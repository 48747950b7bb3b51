/** What several modules share. */
module Common {
  datatype Option<+T> = None | Some(value: T)

  type byte = x: int | 0 <= x < 256
  type Bytes = seq<byte>

  /** Limits of the Lua runtime. */
  const MAX_INT: nat := 0x7FFF_FFFD
  const LUAI_MAXCCALLS: nat := 200
  const MINSTRTABSIZE: nat := 32

  /** No element comes twice. */
  predicate Distinct<T(==)>(s: seq<T>) {
    forall i, j :: 0 <= i < j < |s| ==> s[i] != s[j]
  }

  function Pow2(n: nat): (p: nat)
    ensures p > 0
  {
    if n == 0 then 1 else 2 * Pow2(n - 1)
  }
}
