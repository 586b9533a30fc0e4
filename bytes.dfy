/**
 * The `Binary` newtype around an owned byte vector, with its conversions
 * (`From<Vec<u8>>`, `From<Binary> for Vec<u8>`, `From<&[u8]>`,
 * `From<&[u8; N]>`) and the views it exposes (`AsRef`, `Deref`, and the
 * single-element write made through `AsMut` / `DerefMut`).
 */
module Bytes {

  /** Rust's `u8`. */
  type u8 = x: int | 0 <= x < 0x100

  /** `pub struct Binary(pub Vec<u8>)`. */
  datatype Binary = Binary(bytes: seq<u8>)

  /** `impl From<Vec<u8>> for Binary`. */
  function FromVec(v: seq<u8>): Binary {
    Binary(v)
  }

  /** `impl From<Binary> for Vec<u8>`: hands back the wrapped vector. */
  function IntoVec(b: Binary): seq<u8> {
    b.bytes
  }

  /** `impl From<&[u8]> for Binary`: copies the slice. */
  function FromSlice(slice: seq<u8>): (b: Binary)
    ensures |b.bytes| == |slice|
    ensures forall i | 0 <= i < |slice| :: b.bytes[i] == slice[i]
  {
    Binary(slice[..])
  }

  /** `impl<const N: usize> From<&[u8; N]> for Binary`: copies the fixed-size array. */
  function FromArray(arr: array<u8>): (b: Binary)
    reads arr
    ensures |b.bytes| == arr.Length
    ensures forall i | 0 <= i < arr.Length :: b.bytes[i] == arr[i]
  {
    Binary(arr[..])
  }

  /** `as_ref` and `deref`: the wrapped bytes as a slice. */
  function AsRef(b: Binary): seq<u8> {
    b.bytes
  }

  /** `len()` reached through `Deref`. */
  function Len(b: Binary): nat {
    |AsRef(b)|
  }

  /**
   * `binary[i] = x` through `as_mut` or `DerefMut`. Indexing a slice out of
   * range panics, so the write demands `i < len`.
   */
  function SetByte(b: Binary, i: nat, x: u8): (r: Binary)
    requires i < |b.bytes|
    ensures |r.bytes| == |b.bytes|
    ensures r.bytes[i] == x
    ensures forall j | 0 <= j < |b.bytes| && j != i :: r.bytes[j] == b.bytes[j]
  {
    Binary(b.bytes[i := x])
  }

  /** Converting to `Binary` and back gives the identical vector, and the other way round. */
  lemma VecRoundTrip(v: seq<u8>, b: Binary)
    ensures IntoVec(FromVec(v)) == v
    ensures FromVec(IntoVec(b)) == b
  {
  }

  /** `as_ref`/`deref` expose exactly the bytes the value was built from, with the same length. */
  lemma AsRefExposesBytes(v: seq<u8>)
    ensures AsRef(FromVec(v)) == v
    ensures Len(FromVec(v)) == |v|
  {
  }

  /** The in-place write is observed through `as_ref` exactly at the written index. */
  lemma SetByteObserved(b: Binary, i: nat, x: u8)
    requires i < Len(b)
    ensures AsRef(SetByte(b, i, x)) == AsRef(b)[i := x]
  {
  }

  /** The in-place write of the source's test: `[1, 2, 3]` with `[0] = 99` reads `[99, 2, 3]`. */
  lemma SetByteExample()
    ensures AsRef(SetByte(FromVec([1, 2, 3]), 0, 99)) == [99, 2, 3]
    ensures AsRef(SetByte(FromVec([4, 5, 6]), 1, 88)) == [4, 88, 6]
  {
  }
}
