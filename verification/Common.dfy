/** Bytes, digests and option values shared by every component. */
module Common {

  datatype Option<+T> = None | Some(value: T)

  type Byte = b: int | 0 <= b < 256

  type Bytes = seq<Byte>

  type Digest = d: Bytes | |d| == 32 witness Fill(0, 32)

  /** The all-zero digest, which the programs use to mean "no digest". */
  const ZERO: Digest := Fill(0, 32)

  type Identity = d: Bytes | |d| == 16 witness Fill(0, 16)

  const ZERO_ID: Identity := Fill(0, 16)

  const LAST_COUNTER := 0x7fff_ffff_ffff_ffff

  type Counter = n: int | 0 <= n <= LAST_COUNTER

  /** SHA-256 is never computed here: every component takes it as a parameter of this type. */
  type Hasher = Bytes -> Digest

  /** Python's bytes([b])*n. */
  function Fill(b: Byte, n: nat): (s: Bytes)
    ensures |s| == n
    ensures forall i :: 0 <= i < n ==> s[i] == b
  {
    seq(n, i => b)
  }

  function Min(a: int, b: int): int {
    if a < b then a else b
  }
}
