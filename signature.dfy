/** `calc_signature`: MD5 over a fixed concatenation of document fields,
    of which the hex characters 7 to 22 are kept. The text is built with
    `+`, so a field that reads as `None` raises `TypeError`. */
module Signature {
  import opened Wrappers
  import opened Calendar
  import opened CodeTypes
  import opened Transport
  import DjiDocument

  predicate IsLowerHex(c: char) {
    ('0' <= c <= '9') || ('a' <= c <= 'f')
  }

  /** What `hexdigest()` returns: 32 lowercase hex characters. */
  ghost predicate HexDigest(md5Hex: string -> string) {
    forall s :: |md5Hex(s)| == 32 && forall i :: 0 <= i < 32 ==> IsLowerHex(md5Hex(s)[i])
  }

  /** The four optional texts the signed text needs. */
  predicate Signable(d: DjiDocument.Dji) {
    d.attribute.title.Some? && d.attribute.creator.Some?
    && d.code.pythonCode.Some? && d.code.scratchDescription.Some?
  }

  /** The signed text: the key, the creation date as `%Y/%m/%d`, title,
      creator, firmware version, guid, Python code, Scratch description and
      the lower-cased member name of the code type. */
  function SignedText(d: DjiDocument.Dji): (r: Result<string>)
    ensures r.Ok? <==> Signable(d)
    ensures r.Err? ==> r.error == TypeError
    ensures r.Ok? ==> |r.value| >= |DspMkey| + 10 + |LowerName(d.attribute.codeType)|
                      && r.value[..|DspMkey|] == DspMkey
                      && r.value[|DspMkey|..|DspMkey| + 10] == FormatDate(d.attribute.creationDate)
                      && r.value[|r.value| - |LowerName(d.attribute.codeType)|..] == LowerName(d.attribute.codeType)
  {
    var a, c := d.attribute, d.code;
    if !Signable(d) then Err(TypeError)
    else
      FormatDateFields(a.creationDate);
      var head := DspMkey + FormatDate(a.creationDate);
      var body := head + a.title.value + a.creator.value + a.fvd.value + a.guid
                  + c.pythonCode.value + c.scratchDescription.value;
      var s := body + LowerName(a.codeType);
      assert s[..|DspMkey|] == head[..|DspMkey|] && s[|DspMkey|..|DspMkey| + 10] == head[|DspMkey|..];
      Ok(s)
  }

  /** `calc_signature`. */
  function CalcSignature(md5Hex: string -> string, d: DjiDocument.Dji): (r: Result<string>)
    requires HexDigest(md5Hex)
    ensures r.Ok? <==> Signable(d)
    ensures r.Err? ==> r.error == TypeError
    ensures r.Ok? ==> |r.value| == 16 && forall i :: 0 <= i < 16 ==> IsLowerHex(r.value[i])
    ensures r.Ok? ==> r.value == md5Hex(SignedText(d).value)[7..23]
  {
    var text :- SignedText(d);
    var digest := md5Hex(text);
    Ok(digest[7..23])
  }

  /** The document with its `sign` field set. */
  function Signed(d: DjiDocument.Dji, sign: string): DjiDocument.Dji {
    d.(attribute := d.attribute.(sign := Some(sign)))
  }

  // ---------------------------------------------------------------------
  // Properties

  /** The signature does not depend on the sign itself, the modification
      time or the app versions, so signing twice gives the same sign. */
  lemma IgnoresUnsignedFields(md5Hex: string -> string, d: DjiDocument.Dji, sign: Option<string>,
                              modifyTime: DateTime, appMin: Option<string>, appMax: Option<string>)
    requires HexDigest(md5Hex)
    ensures var e := d.(attribute := d.attribute.(sign := sign, modifyTime := modifyTime,
                                                   appMinVersion := appMin, appMaxVersion := appMax));
            CalcSignature(md5Hex, e) == CalcSignature(md5Hex, d)
  {
    var e := d.(attribute := d.attribute.(sign := sign, modifyTime := modifyTime,
                                          appMinVersion := appMin, appMaxVersion := appMax));
    assert SignedText(e) == SignedText(d);
  }

  lemma SigningIsStable(md5Hex: string -> string, d: DjiDocument.Dji, sign: string)
    requires HexDigest(md5Hex)
    ensures CalcSignature(md5Hex, Signed(d, sign)) == CalcSignature(md5Hex, d)
  {
    IgnoresUnsignedFields(md5Hex, d, Some(sign), d.attribute.modifyTime,
                          d.attribute.appMinVersion, d.attribute.appMaxVersion);
    assert Signed(d, sign) == d.(attribute := d.attribute.(sign := Some(sign), modifyTime := d.attribute.modifyTime,
                                                           appMinVersion := d.attribute.appMinVersion,
                                                           appMaxVersion := d.attribute.appMaxVersion));
  }

  /** The two code types sign differently: the text ends with the member
      name, and the names have different lengths. */
  lemma CodeTypeSigned(d: DjiDocument.Dji)
    requires Signable(d)
    ensures SignedText(d.(attribute := d.attribute.(codeType := PythonCode)))
            != SignedText(d.(attribute := d.attribute.(codeType := ScratchCode)))
  {
    var p := d.(attribute := d.attribute.(codeType := PythonCode));
    var s := d.(attribute := d.attribute.(codeType := ScratchCode));
    assert |SignedText(s).value| == |SignedText(p).value| + 1;
  }
}
