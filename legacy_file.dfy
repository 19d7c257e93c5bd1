/** `DspFile` of the older package. Padding, the transport and the
    signature are the same code as in the current package (`Pkcs7`,
    `Transport`, `Signature`); what differs is modelled here: the inverted
    name check of `new_with_python_code`, the guid trimming of `load`, a
    `save` that always stamps the modification time and always uses the
    default name, and the CDATA writer with the extra `[`. */
module LegacyDspFiles {
  import opened Wrappers
  import opened PyText
  import opened Calendar
  import opened Xml
  import opened Transport
  import opened Pkcs7
  import opened Signature
  import DjiDocument
  import LegacyDocument
  import DspFiles

  /** The checks of the older `new_with_python_code` as written: each test
      raises when the stripped text is non-blank. */
  function LegacyCheckNames(creator: string, title: string): (r: Result<(string, string)>)
    ensures r.Ok? <==> Strip(creator) == "" && Strip(title) == ""
    ensures Strip(creator) != "" ==> r == Err(ValueError("Creator cannot be empty"))
    ensures Strip(creator) == "" && Strip(title) != "" ==> r == Err(ValueError("Title cannot be empty"))
    ensures r.Ok? ==> r.value == ("", "")
  {
    if Strip(creator) != "" then Err(ValueError("Creator cannot be empty"))
    else if Strip(title) != "" then Err(ValueError("Title cannot be empty"))
    else Ok((Strip(creator), Strip(title)))
  }

  /** The name `load` keeps: when the lower-cased stem ends with the guid,
      cut at the last occurrence of the guid and drop one trailing "_". */
  function TrimmedName(stem: string, guid: string): string {
    if EndsWith(Lower(stem), guid) then
      var cut := stem[..RFind(Lower(stem), guid)];
      if EndsWith(cut, "_") then cut[..|cut| - 1] else cut
    else stem
  }

  /** `load` after the file is read, as written: the document reader never
      succeeds, so neither does this. */
  function Loaded(x: Externals, data: seq<byte>, stem: string,
                  creationNow: DateTime, modifyNow: DateTime, freshGuid: string): Result<(DjiDocument.Dji, string)> {
    var text :- DecodeText(x, data);
    var dji :- LegacyDocument.FromXmlString(text, creationNow, modifyNow, freshGuid);
    Ok((dji, TrimmedName(stem, dji.attribute.guid)))
  }

  class LegacyDspFile {
    var dji: DjiDocument.Dji
    var fileName: string

    constructor (dji: DjiDocument.Dji, fileName: string)
      ensures this.dji == dji && this.fileName == fileName
    {
      this.dji := dji;
      this.fileName := fileName;
    }

    /** `new_with_python_code` as written. */
    static method NewWithPythonCode(creator: string, title: string, python: string, fileName: string,
                                    creationNow: DateTime, modifyNow: DateTime, guid: string)
      returns (r: Result<LegacyDspFile>)
      ensures r.Ok? <==> LegacyCheckNames(creator, title).Ok?
      ensures r.Err? ==> r.error == LegacyCheckNames(creator, title).error
      ensures r.Ok? ==> fresh(r.value)
                        && r.value.dji == DspFiles.NewDocument("", "", python, creationNow, modifyNow, guid)
                        && r.value.fileName == ""
    {
      var c := Strip(creator);
      if c != "" {
        return Err(ValueError("Creator cannot be empty"));
      }
      var t := Strip(title);
      if t != "" {
        return Err(ValueError("Title cannot be empty"));
      }
      var dji := DspFiles.NewDocument(c, t, python, creationNow, modifyNow, guid);
      // Python's `if file_name: file_name = title`: the name becomes the
      // title, which the check above leaves empty.
      var name := fileName;
      if name != "" {
        name := t;
      }
      var f := new LegacyDspFile(dji, name);
      return Ok(f);
    }

    /** `new`: `new_with_python_code` with empty code. */
    static method New(creator: string, title: string, fileName: string,
                      creationNow: DateTime, modifyNow: DateTime, guid: string)
      returns (r: Result<LegacyDspFile>)
      ensures r.Ok? <==> LegacyCheckNames(creator, title).Ok?
      ensures r.Err? ==> r.error == LegacyCheckNames(creator, title).error
      ensures r.Ok? ==> fresh(r.value)
                        && r.value.dji == DspFiles.NewDocument("", "", "", creationNow, modifyNow, guid)
                        && r.value.fileName == ""
    {
      r := NewWithPythonCode(creator, title, "", fileName, creationNow, modifyNow, guid);
    }

    /** The trimming steps of `load`, on the stem of the path. */
    static method TrimGuidSuffix(stem: string, guid: string) returns (name: string)
      ensures name == TrimmedName(stem, guid)
    {
      name := stem;
      if EndsWith(Lower(name), guid) {
        name := name[..RFind(Lower(name), guid)];
        if EndsWith(name, "_") {
          name := name[..|name| - 1];
        }
      }
    }

    /** `python_code`. */
    function PythonCode(): Option<string>
      reads this
    {
      dji.code.pythonCode
    }

    /** `set_python_code`: store the code stripped. */
    method SetPythonCode(python: string)
      modifies this
      ensures dji == old(dji).(code := old(dji).code.(pythonCode := Some(Strip(python))))
      ensures fileName == old(fileName)
      ensures PythonCode() == Some(Strip(python))
    {
      dji := dji.(code := dji.code.(pythonCode := Some(Strip(python))));
    }

    /** `compute_signature`: only `sign` changes, or the call raises. */
    method ComputeSignature(md5Hex: string -> string) returns (raised: Option<Error>)
      requires HexDigest(md5Hex)
      modifies this
      ensures CalcSignature(md5Hex, old(dji)).Ok?
              ==> raised.None? && dji == Signed(old(dji), CalcSignature(md5Hex, old(dji)).value)
      ensures CalcSignature(md5Hex, old(dji)).Err? ==> raised == Some(TypeError) && dji == old(dji)
      ensures fileName == old(fileName)
    {
      var sign := CalcSignature(md5Hex, dji);
      if sign.Err? {
        return Some(sign.error);
      }
      dji := dji.(attribute := dji.attribute.(sign := Some(sign.value)));
      return None;
    }

    /** `save`: always stamp the modification time, sign, write with the
        older CDATA writer, and name the file `f"{file_name}_{guid}.dsp"`. */
    method Save(x: Externals, now: DateTime) returns (r: Result<(string, seq<byte>)>)
      requires HexDigest(x.md5Hex)
      modifies this
      ensures var stamped := old(dji).(attribute := old(dji).attribute.(modifyTime := now));
              && (r.Ok? <==> Signable(old(dji)))
              && (r.Err? ==> r.error == TypeError && dji == stamped)
              && (r.Ok? ==> dji == Signed(stamped, CalcSignature(x.md5Hex, stamped).value)
                            && r.value.1 == EncodeText(x, DjiDocument.GetXmlString(Legacy, dji)))
      ensures r.Ok? ==> r.value.0 == DspFiles.DefaultSaveName(old(fileName), old(dji).attribute.guid)
      ensures fileName == old(fileName)
    {
      dji := dji.(attribute := dji.attribute.(modifyTime := now));
      var raised := ComputeSignature(x.md5Hex);
      if raised.Some? {
        return Err(raised.value);
      }
      var xml := DjiDocument.GetXmlString(Legacy, dji);
      var data := EncodeText(x, xml);
      return Ok((fileName + "_" + dji.attribute.guid + ".dsp", data));
    }
  }

  // ---------------------------------------------------------------------
  // Properties

  /** The check is inverted: the names the current package accepts are
      rejected (on the creator), and the only names accepted are blank. */
  lemma RejectsNamedDocuments(creator: string, title: string)
    ensures DspFiles.CheckNames(creator, title).Ok?
            ==> LegacyCheckNames(creator, title) == Err(ValueError("Creator cannot be empty"))
    ensures LegacyCheckNames(creator, title).Ok? ==> DspFiles.CheckNames(creator, title).Err?
  {
  }

  /** The defaults of the signature, "Anonymous" and "Untitled", are
      rejected. */
  lemma DefaultsRejected(creator: string, title: string)
    requires creator == "Anonymous" && title == "Untitled"
    ensures LegacyCheckNames(creator, title) == Err(ValueError("Creator cannot be empty"))
  {
    assert creator[0] == 'A';
    CreatorNotBlank(creator, title);
  }

  /** A creator that starts with a non-space character is rejected, whatever
      the title. */
  lemma CreatorNotBlank(s: string, title: string)
    requires |s| > 0 && !IsSpace(s[0])
    ensures LegacyCheckNames(s, title) == Err(ValueError("Creator cannot be empty"))
  {
    StripEmptyIff(s);
  }

  /** Loading never succeeds, because the document reader never does. */
  lemma LoadNeverSucceeds(x: Externals, data: seq<byte>, stem: string,
                          creationNow: DateTime, modifyNow: DateTime, freshGuid: string)
    ensures Loaded(x, data, stem, creationNow, modifyNow, freshGuid).Err?
  {
    if DecodeText(x, data).Ok? {
      LegacyDocument.NeverReads(DecodeText(x, data).value, creationNow, modifyNow, freshGuid);
    }
  }

  /** The trimming undoes the default save name: a stem `title + "_" + guid`
      with a guid that lower-casing leaves alone gives the title back. */
  lemma TrimRecoversTitle(title: string, guid: string)
    requires Lower(guid) == guid
    ensures TrimmedName(title + "_" + guid, guid) == title
  {
    var stem := title + "_" + guid;
    assert Lower(stem)[|stem| - |guid|..] == Lower(guid);
    RFindOfSuffix(Lower(stem), guid);
    assert stem[..|stem| - |guid|] == title + "_";
    assert (title + "_")[..|title|] == title;
  }

  /** A stem that does not end with the guid (ignoring case) is kept. */
  lemma UnrelatedStemKept(stem: string, guid: string)
    requires !EndsWith(Lower(stem), guid)
    ensures TrimmedName(stem, guid) == stem
  {
  }

  /** The guid is cut at its last occurrence, so text before an earlier copy
      of the guid stays. */
  lemma CutAtLastOccurrence(stem: string, guid: string)
    requires EndsWith(Lower(stem), guid)
    ensures var cut := stem[..RFind(Lower(stem), guid)];
            TrimmedName(stem, guid) == if EndsWith(cut, "_") then cut[..|cut| - 1] else cut
    ensures RFind(Lower(stem), guid) == |stem| - |guid|
  {
    RFindOfSuffix(Lower(stem), guid);
  }

  /** With an empty guid every stem "ends with" it, so only one trailing
      underscore is dropped. */
  lemma EmptyGuidDropsUnderscore(stem: string)
    ensures TrimmedName(stem, "") == if EndsWith(stem, "_") then stem[..|stem| - 1] else stem
  {
    assert Lower(stem)[|stem|..] == "";
    RFindOfSuffix(Lower(stem), "");
    assert stem[..|stem|] == stem;
  }
}
