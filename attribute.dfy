/** The `attribute` part of a document: ten fields written as ten child
    elements in a fixed order, and read back by tag with defaults for the
    fields that are missing or empty. */
module DspAttribute {
  import opened Wrappers
  import opened Calendar
  import opened FirmwareVersion
  import opened CodeTypes
  import opened Xml
  import XmlReader
  import XmlRoundTrip

  /** Fields read with `findtext` can be `None` after loading a document
      that lacks the element, so those are optional. */
  datatype Attribute = Attribute(
    creationDate: DateTime,
    sign: Option<string>,
    modifyTime: DateTime,
    guid: string,
    creator: Option<string>,
    fvd: Fvd,
    title: Option<string>,
    codeType: CodeType,
    appMinVersion: Option<string>,
    appMaxVersion: Option<string>)

  /** `Attribute(creation_date, sign, modify_time, guid)` with the
      constructor's defaults for the other six fields. */
  function NewAttribute(creationDate: DateTime, sign: string, modifyTime: DateTime, guid: string): (a: Attribute)
    ensures a.creationDate == creationDate && a.sign == Some(sign) && a.modifyTime == modifyTime && a.guid == guid
    ensures a.creator == Some("Anonymous") && a.title == Some("Untitled")
    ensures a.fvd.value == "00.00.0000" && a.codeType == PythonCode
    ensures a.appMinVersion == Some("") && a.appMaxVersion == Some("")
  {
    Attribute(creationDate, Some(sign), modifyTime, guid, Some("Anonymous"), DefaultFvd(),
              Some("Untitled"), PythonCode, Some(""), Some(""))
  }

  /** The child tags in the order they are written. */
  const FieldTags: seq<string> := [
    "creation_date", "sign", "modify_time", "guid", "creator",
    "firmware_version_dependency", "title", "code_type", "app_min_version", "app_max_version"]

  function Leaf(tag: string, text: Option<string>): Element {
    Element(tag, text, [])
  }

  /** The texts written for the ten fields, in order. */
  function FieldTexts(a: Attribute): seq<Option<string>> {
    [Some(FormatDate(a.creationDate)), a.sign, Some(FormatModifyTime(a.modifyTime)), Some(a.guid),
     a.creator, Some(a.fvd.value), a.title, Some(Tag(a.codeType)), a.appMinVersion, a.appMaxVersion]
  }

  /** The element `get_xml_element` builds. */
  function ToXml(a: Attribute): Element {
    FieldElement(FieldTexts(a))
  }

  /** An `attribute` element holding the ten field elements with the given
      texts. */
  function FieldElement(texts: seq<Option<string>>): Element
    requires |texts| == 10
  {
    Element("attribute", None, seq(10, i requires 0 <= i < 10 => Leaf(FieldTags[i], texts[i])))
  }

  /** `get_xml_element`: an `attribute` element to which the ten field
      elements are appended one by one, each with its text set. */
  method BuildXml(a: Attribute) returns (e: Element)
    ensures e == ToXml(a)
    ensures e.tag == "attribute" && e.text.None? && |e.children| == 10
    ensures forall i :: 0 <= i < 10 ==> e.children[i] == Leaf(FieldTags[i], FieldTexts(a)[i])
  {
    e := Element("attribute", None, []);
    e := e.(children := e.children + [Leaf("creation_date", Some(FormatDate(a.creationDate)))]);
    e := e.(children := e.children + [Leaf("sign", a.sign)]);
    e := e.(children := e.children + [Leaf("modify_time", Some(FormatModifyTime(a.modifyTime)))]);
    e := e.(children := e.children + [Leaf("guid", Some(a.guid))]);
    e := e.(children := e.children + [Leaf("creator", a.creator)]);
    e := e.(children := e.children + [Leaf("firmware_version_dependency", Some(a.fvd.value))]);
    e := e.(children := e.children + [Leaf("title", a.title)]);
    e := e.(children := e.children + [Leaf("code_type", Some(Tag(a.codeType)))]);
    e := e.(children := e.children + [Leaf("app_min_version", a.appMinVersion)]);
    e := e.(children := e.children + [Leaf("app_max_version", a.appMaxVersion)]);
    assert e.children == ToXml(a).children;
  }

  /** A `findtext` result Python treats as true: present and non-empty. */
  predicate Given(o: Option<string>) {
    o.Some? && o.value != ""
  }

  /** The `findtext` results for the ten field tags, in order. */
  function ReadTexts(e: Element): (ts: seq<Option<string>>)
    ensures |ts| == 10
  {
    seq(10, i requires 0 <= i < 10 => FindText(e, FieldTags[i]))
  }

  /** `Attribute.from_xml_element`, with `datetime.now()` (called once for
      each date field) and the fresh guid passed in. */
  function FromXml(e: Element, creationNow: DateTime, modifyNow: DateTime, freshGuid: string): Result<Attribute> {
    FromTexts(ReadTexts(e), creationNow, modifyNow, freshGuid)
  }

  /** The constructor call of `from_xml_element` on the ten `findtext`
      results. The arguments are evaluated in order, so the first field that
      fails to parse decides the error. */
  function FromTexts(ts: seq<Option<string>>, creationNow: DateTime, modifyNow: DateTime, freshGuid: string): Result<Attribute>
    requires |ts| == 10
  {
    var created :- if Given(ts[0]) then ParseDate(ts[0].value) else Ok(creationNow);
    var modified :- if Given(ts[2]) then ParseModifyTime(ts[2].value) else Ok(modifyNow);
    var guid := if Given(ts[3]) then ts[3].value else freshGuid;
    var fvd :- if Given(ts[5]) then FromString(ts[5].value) else Ok(DefaultFvd());
    var codeType :- if Given(ts[7]) then FromTag(ts[7].value) else Ok(PythonCode);
    Ok(Attribute(created, ts[1], modified, guid, ts[4], fvd, ts[6], codeType, ts[8], ts[9]))
  }

  // ---------------------------------------------------------------------
  // Properties

  /** The ten children carry the ten field tags, in order, once each. */
  lemma ChildOrder(a: Attribute)
    ensures |ToXml(a).children| == 10
    ensures forall i :: 0 <= i < 10 ==> ToXml(a).children[i].tag == FieldTags[i]
    ensures forall i, j :: 0 <= i < j < 10 ==> ToXml(a).children[i].tag != ToXml(a).children[j].tag
  {
    FieldTagsDistinct();
  }

  /** `findtext` on the built element gives each field's text, with `None`
      read as "". */
  lemma FindTexts(a: Attribute)
    ensures forall i :: 0 <= i < 10 ==> ReadTexts(ToXml(a))[i] == ReadAs(FieldTexts(a)[i])
  {
    ReadTextsOfLeaves(FieldTexts(a));
  }

  /** What a field holding `o` reads back as through `findtext`. */
  function ReadAs(o: Option<string>): Option<string> {
    Some(o.GetOr(""))
  }

  /** `from_xml_element(get_xml_element(a))` at tree level: the same fields,
      except that the creation date loses its time of day, the modification
      time its microseconds, an empty guid is replaced, and a `None` text
      comes back as "". The firmware version must be one the constructor
      produces for the text to parse back to it. */
  lemma TreeRoundTrip(a: Attribute, p1: int, p2: int, p3: int,
                      creationNow: DateTime, modifyNow: DateTime, freshGuid: string)
    requires a.fvd == NewFvd(p1, p2, p3)
    ensures FromXml(ToXml(a), creationNow, modifyNow, freshGuid)
            == Ok(Attribute(StartOfDay(a.creationDate), ReadAs(a.sign), WholeSeconds(a.modifyTime),
                            if a.guid == "" then freshGuid else a.guid, ReadAs(a.creator), a.fvd,
                            ReadAs(a.title), a.codeType, ReadAs(a.appMinVersion), ReadAs(a.appMaxVersion)))
  {
    var ts := ReadTexts(ToXml(a));
    FindTexts(a);
    TextsRoundTrip(a, ts, p1, p2, p3, creationNow, modifyNow, freshGuid);
  }

  lemma TextsRoundTrip(a: Attribute, ts: seq<Option<string>>, p1: int, p2: int, p3: int,
                       creationNow: DateTime, modifyNow: DateTime, freshGuid: string)
    requires a.fvd == NewFvd(p1, p2, p3)
    requires |ts| == 10 && forall i :: 0 <= i < 10 ==> ts[i] == ReadAs(FieldTexts(a)[i])
    ensures FromTexts(ts, creationNow, modifyNow, freshGuid)
            == Ok(Attribute(StartOfDay(a.creationDate), ReadAs(a.sign), WholeSeconds(a.modifyTime),
                            if a.guid == "" then freshGuid else a.guid, ReadAs(a.creator), a.fvd,
                            ReadAs(a.title), a.codeType, ReadAs(a.appMinVersion), ReadAs(a.appMaxVersion)))
  {
    assert ts[0] == Some(FormatDate(a.creationDate)) && ts[2] == Some(FormatModifyTime(a.modifyTime));
    assert ts[3] == Some(a.guid) && ts[5] == Some(a.fvd.value) && ts[7] == Some(Tag(a.codeType));
    assert ts[1] == ReadAs(a.sign) && ts[4] == ReadAs(a.creator) && ts[6] == ReadAs(a.title);
    assert ts[8] == ReadAs(a.appMinVersion) && ts[9] == ReadAs(a.appMaxVersion);
    DateFieldReads(a.creationDate);
    ModifyFieldReads(a.modifyTime);
    FvdFieldReads(p1, p2, p3);
    TagBijection(a.codeType, a.codeType);
    FromTextsOk(ts, creationNow, modifyNow, freshGuid, StartOfDay(a.creationDate), WholeSeconds(a.modifyTime),
                a.fvd, a.codeType);
  }

  /** The written creation date is non-empty and parses to its day. */
  lemma DateFieldReads(d: DateTime)
    ensures FormatDate(d) != "" && ParseDate(FormatDate(d)) == Ok(StartOfDay(d))
  {
    ParseFormatDate(d);
    FormatDateFields(d);
  }

  /** The written modification time is non-empty and parses to its whole
      seconds. */
  lemma ModifyFieldReads(d: DateTime)
    ensures FormatModifyTime(d) != "" && ParseModifyTime(FormatModifyTime(d)) == Ok(WholeSeconds(d))
  {
    ParseFormatModifyTime(d);
    FormatModifyTimeFields(d);
  }

  /** The written firmware version is non-empty and parses back. */
  lemma FvdFieldReads(p1: int, p2: int, p3: int)
    ensures NewFvd(p1, p2, p3).value != "" && FromString(NewFvd(p1, p2, p3).value) == Ok(NewFvd(p1, p2, p3))
  {
    FromStringOfValue(p1, p2, p3);
    assert NewFvd(p1, p2, p3).value[|Field(p1, 2)|] == '.';
  }

  /** `FromTexts` when every parsed field parses. */
  lemma FromTextsOk(ts: seq<Option<string>>, creationNow: DateTime, modifyNow: DateTime, freshGuid: string,
                    created: DateTime, modified: DateTime, fvd: Fvd, codeType: CodeType)
    requires |ts| == 10 && Given(ts[0]) && Given(ts[2]) && Given(ts[5]) && Given(ts[7])
    requires ParseDate(ts[0].value) == Ok(created) && ParseModifyTime(ts[2].value) == Ok(modified)
    requires FromString(ts[5].value) == Ok(fvd) && FromTag(ts[7].value) == Ok(codeType)
    ensures FromTexts(ts, creationNow, modifyNow, freshGuid)
            == Ok(Attribute(created, ts[1], modified, if Given(ts[3]) then ts[3].value else freshGuid,
                            ts[4], fvd, ts[6], codeType, ts[8], ts[9]))
  {
  }

  /** An element without children reads as all defaults: `now` for both
      dates, the fresh guid, the default firmware version, Python code, and
      `None` for the five fields read verbatim. */
  lemma MissingFieldsDefault(tag: string, creationNow: DateTime, modifyNow: DateTime, freshGuid: string)
    ensures FromXml(Element(tag, None, []), creationNow, modifyNow, freshGuid)
            == Ok(Attribute(creationNow, None, modifyNow, freshGuid, None, DefaultFvd(), None, PythonCode, None, None))
  {
  }

  /** Ten empty field elements read as the same defaults, except that the
      five fields read verbatim are "" rather than `None`. */
  lemma EmptyFieldsDefault(creationNow: DateTime, modifyNow: DateTime, freshGuid: string)
    ensures var e := Element("attribute", None, seq(10, i requires 0 <= i < 10 => Leaf(FieldTags[i], None)));
            FromXml(e, creationNow, modifyNow, freshGuid)
            == Ok(Attribute(creationNow, Some(""), modifyNow, freshGuid, Some(""), DefaultFvd(), Some(""),
                            PythonCode, Some(""), Some("")))
  {
    var e := Element("attribute", None, seq(10, i requires 0 <= i < 10 => Leaf(FieldTags[i], None)));
    forall i | 0 <= i < 10 ensures ReadTexts(e)[i] == Some("") {
      FindFirst(e.children, FieldTags[i], i);
    }
  }

  /** A document is only accepted when its code type text is empty, missing,
      or one of the two tags. */
  lemma CodeTypeMustBeKnown(e: Element, creationNow: DateTime, modifyNow: DateTime, freshGuid: string)
    requires FromXml(e, creationNow, modifyNow, freshGuid).Ok?
    ensures var t := FindText(e, "code_type");
            !Given(t) || t.value == "python" || t.value == "scratch"
    ensures var t := FindText(e, "code_type");
            FromXml(e, creationNow, modifyNow, freshGuid).value.codeType == if Given(t) then FromTag(t.value).value else PythonCode
  {
    var ts := ReadTexts(e);
    assert ts[7] == FindText(e, "code_type") by { assert FieldTags[7] == "code_type"; }
    CodeTypeOfTexts(ts, creationNow, modifyNow, freshGuid);
  }

  lemma CodeTypeOfTexts(ts: seq<Option<string>>, creationNow: DateTime, modifyNow: DateTime, freshGuid: string)
    requires |ts| == 10 && FromTexts(ts, creationNow, modifyNow, freshGuid).Ok?
    ensures !Given(ts[7]) || FromTag(ts[7].value).Ok?
    ensures FromTexts(ts, creationNow, modifyNow, freshGuid).value.codeType
            == if Given(ts[7]) then FromTag(ts[7].value).value else PythonCode
  {
  }

  // ---------------------------------------------------------------------
  // Through the document text

  /** A text that is written and read back unchanged: XML characters only,
      and no carriage return for the reader to normalise. */
  predicate Plain(t: string) {
    XmlReader.XmlChars(t) && '\r' !in t
  }

  /** Printable ASCII, as every generated field text is. */
  predicate Printable(t: string) {
    forall i :: 0 <= i < |t| ==> ' ' <= t[i] <= '~'
  }

  lemma PrintablePlain(t: string)
    requires Printable(t)
    ensures Plain(t)
  {
    forall i | 0 <= i < |t| ensures XmlReader.XmlChar(t[i]) && t[i] != '\r' {
    }
  }

  lemma PrintableConcat(a: string, b: string)
    requires Printable(a) && Printable(b)
    ensures Printable(a + b)
  {
    forall i | 0 <= i < |a + b| ensures ' ' <= (a + b)[i] <= '~' {
      if i >= |a| { assert (a + b)[i] == b[i - |a|]; }
    }
  }

  lemma DigitsPrintable(t: string)
    requires Decimal.AllDigits(t)
    ensures Printable(t)
  {
  }

  /** The written date, modification time and code type are printable. */
  lemma GeneratedTextsPrintable(a: Attribute)
    ensures Printable(FormatDate(a.creationDate))
    ensures Printable(FormatModifyTime(a.modifyTime))
    ensures Printable(Tag(a.codeType))
  {
    DateTextPrintable(a.creationDate);
    ModifyTextPrintable(a.modifyTime);
    TagPrintable(a.codeType);
  }

  lemma DateTextPrintable(d: DateTime)
    ensures Printable(FormatDate(d))
  {
    DatePrintable(FixedWidth(d.year, 4), FixedWidth(d.month, 2), FixedWidth(d.day, 2));
  }

  lemma ModifyTextPrintable(m: DateTime)
    ensures Printable(FormatModifyTime(m))
  {
    ModifyTimePrintable(FixedWidth(m.month, 2), FixedWidth(m.day, 2), FixedWidth(m.year, 4),
                        FixedWidth(Hour12(m.hour), 2), FixedWidth(m.minute, 2), FixedWidth(m.second, 2),
                        Meridiem(m.hour));
  }

  lemma TagPrintable(c: CodeType)
    ensures Printable(Tag(c))
  {
  }

  lemma DatePrintable(y: string, m: string, d: string)
    requires Decimal.AllDigits(y) && Decimal.AllDigits(m) && Decimal.AllDigits(d)
    ensures Printable(y + "/" + m + "/" + d)
  {
    var t := y;
    t := Then(t, "/");
    t := ThenDigits(t, m);
    t := Then(t, "/");
    t := ThenDigits(t, d);
  }

  lemma ModifyTimePrintable(mo: string, da: string, yr: string, hr: string, mi: string, se: string, p: string)
    requires Decimal.AllDigits(mo) && Decimal.AllDigits(da) && Decimal.AllDigits(yr)
    requires Decimal.AllDigits(hr) && Decimal.AllDigits(mi) && Decimal.AllDigits(se) && Printable(p)
    ensures Printable(mo + "/" + da + "/" + yr + " " + hr + ":" + mi + ":" + se + " " + p)
  {
    var t := mo;
    t := Then(t, "/");
    t := ThenDigits(t, da);
    t := Then(t, "/");
    t := ThenDigits(t, yr);
    t := Then(t, " ");
    t := ThenDigits(t, hr);
    t := Then(t, ":");
    t := ThenDigits(t, mi);
    t := Then(t, ":");
    t := ThenDigits(t, se);
    t := Then(t, " ");
    t := Then(t, p);
  }

  lemma Then(a: string, b: string) returns (t: string)
    requires Printable(a) && Printable(b)
    ensures t == a + b && Printable(t)
  {
    PrintableConcat(a, b);
    t := a + b;
  }

  lemma ThenDigits(a: string, b: string) returns (t: string)
    requires Printable(a) && Decimal.AllDigits(b)
    ensures t == a + b && Printable(t)
  {
    t := Then(a, b);
  }

  /** A constructed firmware version is printable. */
  lemma FvdPrintable(p1: int, p2: int, p3: int)
    ensures Printable(NewFvd(p1, p2, p3).value)
  {
    ValueChars(p1, p2, p3);
  }

  /** The fields a caller supplies as free text are plain. */
  predicate PlainFields(a: Attribute) {
    Plain(a.sign.GetOr("")) && Plain(a.guid) && Plain(a.creator.GetOr("")) && Plain(a.fvd.value)
    && Plain(a.title.GetOr("")) && Plain(a.appMinVersion.GetOr("")) && Plain(a.appMaxVersion.GetOr(""))
  }

  lemma FieldTextsPlain(a: Attribute)
    requires PlainFields(a)
    ensures forall i :: 0 <= i < 10 ==> Plain(FieldTexts(a)[i].GetOr(""))
  {
    GeneratedTextsPrintable(a);
    PrintablePlain(FormatDate(a.creationDate));
    PrintablePlain(FormatModifyTime(a.modifyTime));
    PrintablePlain(Tag(a.codeType));
  }

  lemma FieldTagsValid()
    ensures forall i :: 0 <= i < 10 ==> XmlReader.ValidName(FieldTags[i]) && FieldTags[i] != CdataHead
  {
    forall i | 0 <= i < 10 ensures XmlReader.ValidName(FieldTags[i]) && FieldTags[i] != CdataHead {
      SnakeName(FieldTags[i]);
    }
  }

  /** A lower-case name with underscores is a valid tag, and not the
      marker of a CDATA section. */
  lemma SnakeName(n: string)
    requires |n| >= 1 && forall i :: 0 <= i < |n| ==> 'a' <= n[i] <= 'z' || n[i] == '_'
    ensures XmlReader.ValidName(n) && n != CdataHead
  {
    assert CdataHead[0] == '!';
  }

  /** Reading back the written `attribute` element: each field element keeps
      its text, an empty one comes back as `None`. */
  lemma ReadBackAttribute(style: CdataStyle, a: Attribute)
    requires PlainFields(a)
    ensures XmlRoundTrip.Safe(style, ToXml(a))
    ensures XmlRoundTrip.ReadBack(style, ToXml(a)) == FieldElement(Reread(FieldTexts(a)))
  {
    FieldTextsPlain(a);
    ReadBackFieldLeaves(style, FieldTexts(a));
  }

  /** A field text as the reader rebuilds it: an empty or missing text
      becomes `None`. */
  function Reread(texts: seq<Option<string>>): (r: seq<Option<string>>)
    requires |texts| == 10
    ensures |r| == 10
  {
    seq(10, i requires 0 <= i < 10 => XmlRoundTrip.NonEmpty(texts[i].GetOr("")))
  }

  /** The same, for any ten plain field texts. */
  lemma ReadBackFieldLeaves(style: CdataStyle, texts: seq<Option<string>>)
    requires |texts| == 10 && forall i :: 0 <= i < 10 ==> Plain(texts[i].GetOr(""))
    ensures XmlRoundTrip.Safe(style, FieldElement(texts))
    ensures XmlRoundTrip.ReadBack(style, FieldElement(texts)) == FieldElement(Reread(texts))
  {
    var e := FieldElement(texts);
    FieldTagsValid();
    assert forall i :: 0 <= i < 10 ==> !IsCdata(e.children[i]);
    XmlRoundTrip.SafeLeaves(style, e.children);
    var kids := XmlRoundTrip.ReadBackKids(style, e.children);
    XmlRoundTrip.ReadBackLeaves(style, e.children);
    var back := FieldElement(Reread(texts));
    forall i | 0 <= i < 10 ensures kids[i] == back.children[i] {
      assert XmlReader.Normalize(texts[i].GetOr("")) == texts[i].GetOr("");
    }
    assert kids == back.children;
    XmlRoundTrip.AccTextWithoutCdata(style, e.children, XmlReader.Normalize(""), true);
  }

  /** `findtext` on ten field elements in order gives their texts. */
  lemma ReadTextsOfLeaves(texts: seq<Option<string>>)
    requires |texts| == 10
    ensures forall i :: 0 <= i < 10 ==> ReadTexts(FieldElement(texts))[i] == ReadAs(texts[i])
  {
    var e := FieldElement(texts);
    forall i | 0 <= i < 10 ensures ReadTexts(e)[i] == ReadAs(texts[i]) {
      FieldTagsDistinct();
      FindFirst(e.children, FieldTags[i], i);
    }
  }

  lemma FieldTagsDistinct()
    ensures forall i, j :: 0 <= i < j < 10 ==> FieldTags[i] != FieldTags[j]
  {
  }

  /** The fields read from the element as the reader rebuilds it are those
      read from the element as written, so the tree-level round trip also
      holds through the document text. */
  lemma ReadBackSameFields(style: CdataStyle, a: Attribute, creationNow: DateTime, modifyNow: DateTime, freshGuid: string)
    requires PlainFields(a)
    ensures XmlRoundTrip.Safe(style, ToXml(a))
    ensures FromXml(XmlRoundTrip.ReadBack(style, ToXml(a)), creationNow, modifyNow, freshGuid)
            == FromXml(ToXml(a), creationNow, modifyNow, freshGuid)
  {
    FieldTextsPlain(a);
    SameFieldTexts(style, FieldTexts(a));
  }

  /** `findtext` reads the same ten texts before and after the round trip. */
  lemma SameFieldTexts(style: CdataStyle, texts: seq<Option<string>>)
    requires |texts| == 10 && forall i :: 0 <= i < 10 ==> Plain(texts[i].GetOr(""))
    ensures XmlRoundTrip.Safe(style, FieldElement(texts))
    ensures ReadTexts(XmlRoundTrip.ReadBack(style, FieldElement(texts))) == ReadTexts(FieldElement(texts))
  {
    ReadBackFieldLeaves(style, texts);
    var back := Reread(texts);
    ReadTextsOfLeaves(back);
    ReadTextsOfLeaves(texts);
    var before, after := ReadTexts(FieldElement(texts)), ReadTexts(FieldElement(back));
    forall i | 0 <= i < 10 ensures after[i] == before[i] {
      assert ReadAs(back[i]) == ReadAs(texts[i]);
    }
    assert after == before;
  }
}
