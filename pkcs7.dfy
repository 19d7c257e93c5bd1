/** PKCS#7 padding (section 6.3 of RFC 5652) to the 16-byte AES block, as
    `DspFile._pkcs7_pad` / `DspFile._pkcs7_unpad` implement it. */
module Pkcs7 {
  import opened Wrappers

  type byte = x: int | 0 <= x < 256

  /** `AES.block_size`. */
  const BlockSize: nat := 16

  /** `bytes([b] * n)`. */
  function Repeat(b: byte, n: nat): (r: seq<byte>)
    ensures |r| == n && forall i :: 0 <= i < n ==> r[i] == b
  {
    seq(n, _ => b)
  }

  /** Python's `data[-n:]` for `n >= 0`: `-0` is `0`, so `n == 0` gives the
      whole buffer, and a start before the beginning is clamped to it. */
  function PyTail(data: seq<byte>, n: nat): (r: seq<byte>)
    ensures n == 0 || n > |data| ==> r == data
    ensures 0 < n <= |data| ==> r == data[|data| - n..]
  {
    if n == 0 || n > |data| then data else data[|data| - n..]
  }

  /** `_pkcs7_pad`: append `p = 16 - len % 16` copies of the byte `p`. */
  function Pad(data: seq<byte>): (r: seq<byte>)
    ensures |r| % BlockSize == 0
    ensures |data| < |r| <= |data| + BlockSize
    ensures r[..|data|] == data
    ensures forall i :: |data| <= i < |r| ==> r[i] == |r| - |data|
    ensures |data| % BlockSize == 0 ==> |r| == |data| + BlockSize
  {
    var p := BlockSize - |data| % BlockSize;
    data + Repeat(p, p)
  }

  /** `_pkcs7_unpad`: read `p` from the last byte; raise unless `p <= 16` and
      `data[-p:]` equals `p` copies of `p`; return `data[:-p]`. Indexing an
      empty buffer raises `IndexError`. */
  function Unpad(data: seq<byte>): Result<seq<byte>> {
    if |data| == 0 then Err(IndexError)
    else
      var p := data[|data| - 1];
      if p > BlockSize || PyTail(data, p) != Repeat(p, p) then
        Err(ValueError("Invalid PKCS7 padding"))
      else
        Ok(data[..|data| - p])
  }

  /** The padding rule of RFC 5652 section 6.3 read as a validity test: the
      last byte `p` is between 1 and the block size, the buffer holds at least
      `p` bytes, and the last `p` bytes all equal `p`. */
  predicate WellPadded(data: seq<byte>) {
    && |data| > 0
    && 1 <= data[|data| - 1] <= BlockSize
    && data[|data| - 1] <= |data|
    && forall i :: |data| - data[|data| - 1] <= i < |data| ==> data[i] == data[|data| - 1]
  }

  /** `_pkcs7_unpad` succeeds exactly on well-padded buffers and then drops
      exactly the `p` padding bytes. It raises `IndexError` on an empty buffer
      and `ValueError` when the pad length is 0, above 16, longer than the
      buffer, or a trailing byte differs. */
  lemma UnpadAcceptsExactlyWellPadded(data: seq<byte>)
    ensures Unpad(data).Ok? <==> WellPadded(data)
    ensures Unpad(data).Ok? ==> Unpad(data).value == data[..|data| - data[|data| - 1]]
    ensures |data| == 0 ==> Unpad(data) == Err(IndexError)
    ensures |data| > 0 && !WellPadded(data) ==> Unpad(data) == Err(ValueError("Invalid PKCS7 padding"))
  {
    if |data| > 0 {
      var p := data[|data| - 1];
      if p == 0 {
        assert PyTail(data, p) != Repeat(p, p);
      } else if p > |data| {
        assert |PyTail(data, p)| != |Repeat(p, p)|;
      } else if p <= BlockSize && !WellPadded(data) {
        var i :| |data| - p <= i < |data| && data[i] != p;
        assert PyTail(data, p)[i - (|data| - p)] != Repeat(p, p)[i - (|data| - p)];
      } else if WellPadded(data) {
        assert PyTail(data, p) == Repeat(p, p);
      }
    }
  }

  /** Padding always yields a well-padded buffer whose pad length is the
      number of bytes added. */
  lemma {:induction false} PadIsWellPadded(data: seq<byte>)
    ensures WellPadded(Pad(data))
    ensures Pad(data)[|Pad(data)| - 1] == |Pad(data)| - |data|
  {
  }

  /** `_pkcs7_unpad(_pkcs7_pad(x)) == x` for every byte string, including the
      empty one and block-aligned ones. */
  lemma {:induction false} UnpadPad(data: seq<byte>)
    ensures Unpad(Pad(data)) == Ok(data)
  {
    var padded := Pad(data);
    var p := padded[|padded| - 1];
    assert p == |padded| - |data|;
    assert PyTail(padded, p) == Repeat(p, p);
    assert padded[..|padded| - p] == data;
  }
}
