/** `DspFile` of the current package: a document and the name it is saved
    under, with the operations that create, edit, sign, save and load it.
    `datetime.now()`, `uuid4()` and the library calls of the transport are
    parameters; reading and writing files is left to the caller, so `save`
    returns the name and the bytes it would write and `load` takes the bytes
    it would read and the file's base name. */
module DspFiles {
  import opened Wrappers
  import opened PyText
  import opened Calendar
  import opened FirmwareVersion
  import opened CodeTypes
  import opened Xml
  import opened Transport
  import opened Pkcs7
  import opened Signature
  import opened DjiDocument
  import FileName
  import DspAttribute
  import DspCode
  import XmlRoundTrip

  /** The checks at the start of `new_with_python_code`: the creator, then
      the title, must be non-blank once stripped. */
  function CheckNames(creator: string, title: string): (r: Result<(string, string)>)
    ensures r.Ok? <==> Strip(creator) != "" && Strip(title) != ""
    ensures Strip(creator) == "" ==> r == Err(ValueError("Creator cannot be empty"))
    ensures Strip(creator) != "" && Strip(title) == "" ==> r == Err(ValueError("Title cannot be empty"))
    ensures r.Ok? ==> r.value == (Strip(creator), Strip(title))
  {
    if Strip(creator) == "" then Err(ValueError("Creator cannot be empty"))
    else if Strip(title) == "" then Err(ValueError("Title cannot be empty"))
    else Ok((Strip(creator), Strip(title)))
  }

  /** The document `new_with_python_code` builds from checked names. */
  function NewDocument(creator: string, title: string, python: string,
                       creationNow: DateTime, modifyNow: DateTime, guid: string): Dji {
    Dji(DspAttribute.Attribute(creationNow, Some(""), modifyNow, guid, Some(creator), DefaultFvd(),
                               Some(title), PythonCode, Some(""), Some("")),
        DspCode.Code(Some(python), Some("")))
  }

  /** `get_dsp_data` on a document: sign it, write it, encode it. */
  function DspData(x: Externals, d: Dji): (r: Result<seq<byte>>)
    requires HexDigest(x.md5Hex)
    ensures r.Ok? <==> Signable(d)
    ensures r.Err? ==> r.error == TypeError
    ensures r.Ok? ==> r.value == EncodeText(x, GetXmlString(Current, Signed(d, CalcSignature(x.md5Hex, d).value)))
  {
    var sign :- CalcSignature(x.md5Hex, d);
    Ok(EncodeText(x, GetXmlString(Current, Signed(d, sign))))
  }

  /** The default name `save` writes under: `f"{file_name}_{guid}.dsp"`. */
  function DefaultSaveName(fileName: string, guid: string): string {
    fileName + "_" + guid + ".dsp"
  }

  /** `load` after the file is read: decode, parse, and take the title from
      the base name. */
  function Loaded(x: Externals, data: seq<byte>, baseName: string,
                  creationNow: DateTime, modifyNow: DateTime, freshGuid: string): (r: Result<(Dji, string)>)
    ensures r.Ok? ==> DecodeText(x, data).Ok?
                      && FromXmlString(DecodeText(x, data).value, creationNow, modifyNow, freshGuid) == Ok(r.value.0)
                      && FileName.GetFileName(baseName) == Ok(r.value.1)
    ensures DecodeText(x, data).Err? ==> r == Err(DecodeText(x, data).error)
  {
    var text :- DecodeText(x, data);
    var dji :- FromXmlString(text, creationNow, modifyNow, freshGuid);
    var name :- FileName.GetFileName(baseName);
    Ok((dji, name))
  }

  class DspFile {
    var dji: Dji
    var fileName: string

    constructor (dji: Dji, fileName: string)
      ensures this.dji == dji && this.fileName == fileName
    {
      this.dji := dji;
      this.fileName := fileName;
    }

    /** `new_with_python_code`: strip and check the creator, then the title;
        build the document with a fresh guid; a non-empty `file_name` is
        replaced by the stripped title. */
    static method NewWithPythonCode(creator: string, title: string, python: string, fileName: string,
                                    creationNow: DateTime, modifyNow: DateTime, guid: string)
      returns (r: Result<DspFile>)
      ensures r.Ok? <==> CheckNames(creator, title).Ok?
      ensures r.Err? ==> r.error == CheckNames(creator, title).error
      ensures r.Ok? ==> fresh(r.value)
                        && r.value.dji == NewDocument(Strip(creator), Strip(title), python, creationNow, modifyNow, guid)
                        && r.value.fileName == (if fileName != "" then Strip(title) else "")
    {
      var c := Strip(creator);
      if c == "" {
        return Err(ValueError("Creator cannot be empty"));
      }
      var t := Strip(title);
      if t == "" {
        return Err(ValueError("Title cannot be empty"));
      }
      var dji := NewDocument(c, t, python, creationNow, modifyNow, guid);
      var name := fileName;
      if name != "" {
        name := t;
      }
      var f := new DspFile(dji, name);
      return Ok(f);
    }

    /** `new`: `new_with_python_code` with empty code. */
    static method New(creator: string, title: string, fileName: string,
                      creationNow: DateTime, modifyNow: DateTime, guid: string)
      returns (r: Result<DspFile>)
      ensures r.Ok? <==> CheckNames(creator, title).Ok?
      ensures r.Err? ==> r.error == CheckNames(creator, title).error
      ensures r.Ok? ==> fresh(r.value)
                        && r.value.dji == NewDocument(Strip(creator), Strip(title), "", creationNow, modifyNow, guid)
                        && r.value.fileName == (if fileName != "" then Strip(title) else "")
    {
      r := NewWithPythonCode(creator, title, "", fileName, creationNow, modifyNow, guid);
    }

    /** `load`. */
    static method Load(x: Externals, data: seq<byte>, baseName: string,
                       creationNow: DateTime, modifyNow: DateTime, freshGuid: string)
      returns (r: Result<DspFile>)
      ensures r.Ok? <==> Loaded(x, data, baseName, creationNow, modifyNow, freshGuid).Ok?
      ensures r.Err? ==> r.error == Loaded(x, data, baseName, creationNow, modifyNow, freshGuid).error
      ensures r.Ok? ==> fresh(r.value)
                        && (r.value.dji, r.value.fileName) == Loaded(x, data, baseName, creationNow, modifyNow, freshGuid).value
    {
      var text := DecodeText(x, data);
      if text.Err? {
        return Err(text.error);
      }
      var dji := FromXmlString(text.value, creationNow, modifyNow, freshGuid);
      if dji.Err? {
        return Err(dji.error);
      }
      var name := FileName.GetFileName(baseName);
      if name.Err? {
        return Err(name.error);
      }
      var f := new DspFile(dji.value, name.value);
      return Ok(f);
    }

    /** `get_python_code`. */
    function GetPythonCode(): Option<string>
      reads this
    {
      dji.code.pythonCode
    }

    /** `set_python_code`: store the code stripped. */
    method SetPythonCode(python: string)
      modifies this
      ensures dji == old(dji).(code := old(dji).code.(pythonCode := Some(Strip(python))))
      ensures fileName == old(fileName)
      ensures GetPythonCode() == Some(Strip(python))
    {
      dji := dji.(code := dji.code.(pythonCode := Some(Strip(python))));
    }

    /** `compute_signature`: only `sign` changes; when a needed text is
        `None` the call raises and nothing changes. */
    method ComputeSignature(md5Hex: string -> string) returns (raised: Option<Error>)
      requires HexDigest(md5Hex)
      modifies this
      ensures CalcSignature(md5Hex, old(dji)).Ok?
              ==> raised.None? && dji == Signed(old(dji), CalcSignature(md5Hex, old(dji)).value)
      ensures CalcSignature(md5Hex, old(dji)).Err? ==> raised == Some(TypeError) && dji == old(dji)
      ensures fileName == old(fileName)
    {
      var sign := CalcSignature(md5Hex, dji);
      if sign.Err? {
        return Some(sign.error);
      }
      dji := dji.(attribute := dji.attribute.(sign := Some(sign.value)));
      return None;
    }

    /** `get_dsp_data`: sign, then write and encode. */
    method GetDspData(x: Externals) returns (r: Result<seq<byte>>)
      requires HexDigest(x.md5Hex)
      modifies this
      ensures r == DspData(x, old(dji))
      ensures dji == if r.Ok? then Signed(old(dji), CalcSignature(x.md5Hex, old(dji)).value) else old(dji)
      ensures fileName == old(fileName)
    {
      var raised := ComputeSignature(x.md5Hex);
      if raised.Some? {
        return Err(raised.value);
      }
      var xml := GetXmlString(Current, dji);
      return Ok(EncodeText(x, xml));
    }

    /** `save`: optionally stamp the modification time, produce the data
        (which signs the document), and pick the name: the given one, or
        the default built from the file name and the guid. */
    method Save(x: Externals, name: string, changeModifyTime: bool, now: DateTime)
      returns (r: Result<(string, seq<byte>)>)
      requires HexDigest(x.md5Hex)
      modifies this
      ensures var stamped := if changeModifyTime then old(dji).(attribute := old(dji).attribute.(modifyTime := now))
                             else old(dji);
              && (r.Ok? <==> Signable(old(dji)))
              && (r.Err? ==> r.error == TypeError && dji == stamped)
              && (r.Ok? ==> dji == Signed(stamped, CalcSignature(x.md5Hex, stamped).value)
                            && r.value.1 == DspData(x, stamped).value)
      ensures r.Ok? ==> r.value.0 == if name != "" then name else DefaultSaveName(old(fileName), old(dji).attribute.guid)
      ensures fileName == old(fileName)
    {
      if changeModifyTime {
        dji := dji.(attribute := dji.attribute.(modifyTime := now));
      }
      var data := GetDspData(x);
      if data.Err? {
        return Err(data.error);
      }
      var target := name;
      if target == "" {
        target := fileName + "_" + dji.attribute.guid + ".dsp";
      }
      return Ok((target, data.value));
    }
  }

  // ---------------------------------------------------------------------
  // Properties

  /** A new document can be signed, and signing it does not touch the code. */
  lemma NewDocumentSignable(x: Externals, creator: string, title: string, python: string,
                            creationNow: DateTime, modifyNow: DateTime, guid: string)
    requires HexDigest(x.md5Hex)
    ensures DspData(x, NewDocument(creator, title, python, creationNow, modifyNow, guid)).Ok?
  {
  }

  lemma HexPrintable(sign: string)
    requires forall i :: 0 <= i < |sign| ==> IsLowerHex(sign[i])
    ensures DspAttribute.Printable(sign)
  {
  }

  /** Signing keeps the free texts plain: the sign is lowercase hex. */
  lemma SignedPlain(d: Dji, sign: string)
    requires DspAttribute.PlainFields(d.attribute)
    requires forall i :: 0 <= i < |sign| ==> IsLowerHex(sign[i])
    ensures DspAttribute.PlainFields(Signed(d, sign).attribute)
  {
    HexPrintable(sign);
    DspAttribute.PrintablePlain(sign);
  }

  /** Loading what `get_dsp_data` produced: the signed document comes back
      as `from_xml_string` of its text reads it, and the name as
      `get_file_name` reads the base name. */
  lemma LoadSaved(x: Externals, d: Dji, baseName: string, p1: int, p2: int, p3: int,
                  creationNow: DateTime, modifyNow: DateTime, freshGuid: string)
    requires Inverses(x) && HexDigest(x.md5Hex) && Signable(d)
    requires d.attribute.fvd == NewFvd(p1, p2, p3) && DspAttribute.PlainFields(d.attribute)
    requires XmlRoundTrip.CdataSafe(Current, d.code.pythonCode) && XmlRoundTrip.CdataSafe(Current, d.code.scratchDescription)
    requires FileName.GetFileName(baseName).Ok?
    ensures var signed := Signed(d, CalcSignature(x.md5Hex, d).value);
            Loaded(x, DspData(x, d).value, baseName, creationNow, modifyNow, freshGuid)
            == Ok((Dji(Reread(signed.attribute, freshGuid),
                       DspCode.Code(DspCode.Stored(Current, d.code.pythonCode),
                                    DspCode.Stored(Current, d.code.scratchDescription))),
                   FileName.GetFileName(baseName).value))
  {
    var sign := CalcSignature(x.md5Hex, d).value;
    var signed := Signed(d, sign);
    SignedPlain(d, sign);
    DecodeEncodeText(x, GetXmlString(Current, signed));
    DocumentRoundTrip(Current, signed, p1, p2, p3, creationNow, modifyNow, freshGuid);
  }

  /** The code that went in comes back, when it is plain and non-empty. */
  lemma LoadSavedCode(x: Externals, d: Dji, baseName: string, python: string, scratch: string,
                      p1: int, p2: int, p3: int, creationNow: DateTime, modifyNow: DateTime, freshGuid: string)
    requires Inverses(x) && HexDigest(x.md5Hex) && Signable(d)
    requires d.attribute.fvd == NewFvd(p1, p2, p3) && DspAttribute.PlainFields(d.attribute)
    requires d.code == DspCode.Code(Some(python), Some(scratch))
    requires DspCode.PlainText(python) && DspCode.PlainText(scratch) && python != "" && scratch != ""
    requires FileName.GetFileName(baseName).Ok?
    ensures Loaded(x, DspData(x, d).value, baseName, creationNow, modifyNow, freshGuid).Ok?
    ensures Loaded(x, DspData(x, d).value, baseName, creationNow, modifyNow, freshGuid).value.0.code == d.code
  {
    DspCode.StoredCurrent(python);
    DspCode.StoredCurrent(scratch);
    LoadSaved(x, d, baseName, p1, p2, p3, creationNow, modifyNow, freshGuid);
  }

  /** A document saved with an empty Scratch description (as every new
      document is) loads with that field as `None`, and so can no longer
      be signed: saving it again raises `TypeError`. */
  lemma EmptyDescriptionBlocksResave(x: Externals, d: Dji, baseName: string, p1: int, p2: int, p3: int,
                                     creationNow: DateTime, modifyNow: DateTime, freshGuid: string)
    requires Inverses(x) && HexDigest(x.md5Hex) && Signable(d)
    requires d.attribute.fvd == NewFvd(p1, p2, p3) && DspAttribute.PlainFields(d.attribute)
    requires XmlRoundTrip.CdataSafe(Current, d.code.pythonCode) && d.code.scratchDescription == Some("")
    requires FileName.GetFileName(baseName).Ok?
    ensures Loaded(x, DspData(x, d).value, baseName, creationNow, modifyNow, freshGuid).Ok?
    ensures var loaded := Loaded(x, DspData(x, d).value, baseName, creationNow, modifyNow, freshGuid).value.0;
            loaded.code.scratchDescription.None? && DspData(x, loaded) == Err(TypeError)
  {
    DspCode.StoredCurrent("");
    LoadSaved(x, d, baseName, p1, p2, p3, creationNow, modifyNow, freshGuid);
    var signed := Signed(d, CalcSignature(x.md5Hex, d).value);
    var loaded := Dji(Reread(signed.attribute, freshGuid),
                      DspCode.Code(DspCode.Stored(Current, d.code.pythonCode), None));
    assert Loaded(x, DspData(x, d).value, baseName, creationNow, modifyNow, freshGuid).value.0 == loaded;
    assert !Signable(loaded);
  }
}
