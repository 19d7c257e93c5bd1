/** The transport around a document: UTF-8 text, PKCS#7 padding, AES-128 in
    CBC mode under a fixed key and IV, and standard base64. The cipher, the
    base64 codec, the UTF-8 codec and the MD5 digest are library calls; they
    enter as an `Externals` value and only the laws the codec relies on are
    required of them, as hypotheses of the lemmas that need them. */
module Transport {
  import opened Wrappers
  import opened Pkcs7

  /** `DSP_KEY` and `DSP_IV`: 16 ASCII characters each, used as bytes. */
  const DspKeyText: string := "TRoP4GWuc30k6WUp"
  const DspIvText: string := "bP3crVEO6wABzOc0"

  /** `DSP_MKEY`, the prefix of the signed text. */
  const DspMkey: string := "wwxnMmF8"

  /** `s.encode()` for ASCII text. */
  function AsciiBytes(s: string): (r: seq<byte>)
    requires forall i :: 0 <= i < |s| ==> s[i] < '\U{80}'
    ensures |r| == |s| && forall i :: 0 <= i < |s| ==> r[i] == s[i] as int
  {
    seq(|s|, i requires 0 <= i < |s| => s[i] as int)
  }

  /** The key and IV have the AES-128 key length and the AES block length. */
  lemma KeyAndIvLengths()
    ensures |AsciiBytes(DspKeyText)| == 16 && |AsciiBytes(DspIvText)| == BlockSize
  {
  }

  /** The library calls. `encrypt`/`decrypt` are AES-128-CBC under the key
      and IV above (`decrypt` raises on a length that is not a whole number
      of blocks); `md5Hex` is `hashlib.md5(s.encode()).hexdigest()`. */
  datatype Externals = Externals(
    encrypt: seq<byte> -> seq<byte>,
    decrypt: seq<byte> -> Result<seq<byte>>,
    b64Encode: seq<byte> -> seq<byte>,
    b64Decode: seq<byte> -> Result<seq<byte>>,
    utf8Encode: string -> seq<byte>,
    utf8Decode: seq<byte> -> Result<string>,
    md5Hex: string -> string)

  /** Decryption undoes encryption of whole blocks, base64 decoding undoes
      encoding, and UTF-8 decoding undoes encoding. */
  ghost predicate Inverses(x: Externals) {
    && (forall b :: |b| % BlockSize == 0 ==> x.decrypt(x.encrypt(b)) == Ok(b))
    && (forall b :: x.b64Decode(x.b64Encode(b)) == Ok(b))
    && (forall s :: x.utf8Decode(x.utf8Encode(s)) == Ok(s))
  }

  /** `encode_dsp`: pad, encrypt, base64-encode. */
  function EncodeDsp(x: Externals, plain: seq<byte>): seq<byte> {
    x.b64Encode(x.encrypt(Pad(plain)))
  }

  /** `decode_dsp`: base64-decode, decrypt, unpad; each step can raise. */
  function DecodeDsp(x: Externals, raw: seq<byte>): (r: Result<seq<byte>>)
    ensures x.b64Decode(raw).Err? ==> r == Err(x.b64Decode(raw).error)
    ensures x.b64Decode(raw).Ok? && x.decrypt(x.b64Decode(raw).value).Err?
            ==> r == Err(x.decrypt(x.b64Decode(raw).value).error)
    ensures x.b64Decode(raw).Ok? && x.decrypt(x.b64Decode(raw).value).Ok?
            ==> r == Unpad(x.decrypt(x.b64Decode(raw).value).value)
  {
    var cipherText :- x.b64Decode(raw);
    var padded :- x.decrypt(cipherText);
    Unpad(padded)
  }

  /** `decode_dsp(encode_dsp(b)) == b` for every byte string, given the
      inverse laws of the library calls: the padding is whole blocks, so
      the cipher's inverse applies, and unpadding undoes padding. */
  lemma DecodeEncode(x: Externals, plain: seq<byte>)
    requires Inverses(x)
    ensures DecodeDsp(x, EncodeDsp(x, plain)) == Ok(plain)
  {
    var padded := Pad(plain);
    assert x.b64Decode(x.b64Encode(x.encrypt(padded))) == Ok(x.encrypt(padded));
    assert x.decrypt(x.encrypt(padded)) == Ok(padded);
    UnpadPad(plain);
  }

  /** A payload whose decrypted bytes are not well padded is refused. */
  lemma BadPaddingRefused(x: Externals, raw: seq<byte>)
    requires x.b64Decode(raw).Ok? && x.decrypt(x.b64Decode(raw).value).Ok?
    requires !WellPadded(x.decrypt(x.b64Decode(raw).value).value)
    ensures DecodeDsp(x, raw).Err?
  {
    UnpadAcceptsExactlyWellPadded(x.decrypt(x.b64Decode(raw).value).value);
  }

  /** What the file holds for a text document: its UTF-8 bytes, encoded. */
  function EncodeText(x: Externals, text: string): seq<byte> {
    EncodeDsp(x, x.utf8Encode(text))
  }

  /** `decode_dsp(data).decode()`. */
  function DecodeText(x: Externals, data: seq<byte>): Result<string> {
    var plain :- DecodeDsp(x, data);
    x.utf8Decode(plain)
  }

  lemma DecodeEncodeText(x: Externals, text: string)
    requires Inverses(x)
    ensures DecodeText(x, EncodeText(x, text)) == Ok(text)
  {
    DecodeEncode(x, x.utf8Encode(text));
  }
}
