/** The whole document: a `dji` root holding the `attribute` part and the
    `code` part, its text form, and reading both back. */
module DjiDocument {
  import opened Wrappers
  import opened Calendar
  import opened Xml
  import XmlReader
  import XmlRoundTrip
  import FirmwareVersion
  import DspAttribute
  import DspCode

  datatype Dji = Dji(attribute: DspAttribute.Attribute, code: DspCode.Code)

  /** The element `get_xml_element` builds. */
  function ToXml(d: Dji): Element {
    Element("dji", None, [DspAttribute.ToXml(d.attribute), DspCode.ToXml(d.code)])
  }

  /** `get_xml_element`: a fresh `dji` element to which the attribute part
      and then the code part are appended. */
  method BuildXml(d: Dji) returns (e: Element)
    ensures e == ToXml(d)
    ensures e.tag == "dji" && e.text.None? && |e.children| == 2
    ensures e.children[0].tag == "attribute" && e.children[1].tag == "code"
  {
    e := Element("dji", None, []);
    var attribute := DspAttribute.BuildXml(d.attribute);
    e := e.(children := e.children + [attribute]);
    var code := DspCode.BuildXml(d.code);
    e := e.(children := e.children + [code]);
  }

  /** `get_xml_string`: the tree written with the hook of the package's
      CDATA writer. `short_empty_elements=False` is the only form `Serialize`
      writes, so an empty element is `<t></t>`. */
  function GetXmlString(style: CdataStyle, d: Dji): string {
    Serialize(style, ToXml(d))
  }

  /** `from_xml_element`: each part is looked up by tag. A missing part
      hands `None` to the part's reader, whose first method call raises
      `AttributeError`; the attribute part is read first. */
  function FromXml(e: Element, creationNow: DateTime, modifyNow: DateTime, freshGuid: string): (r: Result<Dji>)
    ensures Find(e, "attribute").None? ==> r == Err(AttributeError)
    ensures Find(e, "attribute").Some? && Find(e, "code").None?
            ==> r.Err? && (DspAttribute.FromXml(Find(e, "attribute").value, creationNow, modifyNow, freshGuid).Ok?
                           ==> r.error == AttributeError)
    ensures r.Ok? ==> Find(e, "attribute").Some? && Find(e, "code").Some?
                      && DspAttribute.FromXml(Find(e, "attribute").value, creationNow, modifyNow, freshGuid)
                         == Ok(r.value.attribute)
                      && DspCode.FromXml(Find(e, "code").value) == Ok(r.value.code)
  {
    match Find(e, "attribute")
    case None => Err(AttributeError)
    case Some(ae) =>
      var attribute :- DspAttribute.FromXml(ae, creationNow, modifyNow, freshGuid);
      match Find(e, "code")
      case None => Err(AttributeError)
      case Some(ce) =>
        var code :- DspCode.FromXml(ce);
        Ok(Dji(attribute, code))
  }

  /** `from_xml_string`: parse the text, then read the tree. */
  function FromXmlString(s: string, creationNow: DateTime, modifyNow: DateTime, freshGuid: string): (r: Result<Dji>)
    ensures XmlReader.ParseDocument(s).Err? ==> r == Err(ParseError)
    ensures XmlReader.ParseDocument(s).Ok? ==> r == FromXml(XmlReader.ParseDocument(s).value, creationNow, modifyNow, freshGuid)
  {
    var e :- XmlReader.ParseDocument(s);
    FromXml(e, creationNow, modifyNow, freshGuid)
  }

  // ---------------------------------------------------------------------
  // Properties

  /** The text is the root's tags around the two parts' texts, attribute
      first, with nothing in between. */
  lemma XmlStringShape(style: CdataStyle, d: Dji)
    ensures GetXmlString(style, d)
            == "<dji>" + (Serialize(style, DspAttribute.ToXml(d.attribute))
                          + (Serialize(style, DspCode.ToXml(d.code)) + "</dji>"))
  {
    RootShape(style, DspAttribute.ToXml(d.attribute), DspCode.ToXml(d.code));
  }

  lemma RootShape(style: CdataStyle, a: Element, c: Element)
    ensures Serialize(style, Element("dji", None, [a, c]))
            == "<dji>" + (Serialize(style, a) + (Serialize(style, c) + "</dji>"))
  {
    assert "dji"[0] != CdataHead[0];
    TwoChildren(style, "dji", a, c);
    assert "<" + "dji" + ">" == "<dji>" && "</" + "dji" + ">" == "</dji>";
  }

  lemma TwoChildren(style: CdataStyle, t: string, a: Element, c: Element)
    requires t != CdataHead
    ensures Serialize(style, Element(t, None, [a, c]))
            == "<" + t + ">" + (Serialize(style, a) + (Serialize(style, c) + ("</" + t + ">")))
  {
    var sa, sc := Serialize(style, a), Serialize(style, c);
    SerializePair(style, a, c);
    assert Escape("") == "";
    assert Serialize(style, Element(t, None, [a, c]))
           == "<" + t + ">" + ("" + (SerializeAll(style, [a, c]) + ("</" + t + ">")));
    Regroup("<" + t + ">", sa, sc, "</" + t + ">");
  }

  lemma SerializePair(style: CdataStyle, a: Element, c: Element)
    ensures SerializeAll(style, [a, c]) == Serialize(style, a) + Serialize(style, c)
  {
    assert [a, c][1..] == [c] && [c][1..] == [];
    assert SerializeAll(style, [c]) == Serialize(style, c) + SerializeAll(style, []);
  }

  lemma Regroup(p: string, x: string, y: string, q: string)
    ensures p + ("" + ((x + y) + q)) == p + (x + (y + q))
  {
  }

  /** The parts are found by tag, so swapping them (with any other children
      after them) changes nothing. */
  lemma OrderIndependent(x: Element, y: Element, a: Element, c: Element, rest: seq<Element>,
                         creationNow: DateTime, modifyNow: DateTime, freshGuid: string)
    requires a.tag == "attribute" && c.tag == "code"
    ensures FromXml(Element(x.tag, x.text, [a, c] + rest), creationNow, modifyNow, freshGuid)
            == FromXml(Element(y.tag, y.text, [c, a] + rest), creationNow, modifyNow, freshGuid)
  {
    FindFirst([a, c] + rest, "attribute", 0);
    FindFirst([a, c] + rest, "code", 1);
    FindFirst([c, a] + rest, "attribute", 1);
    FindFirst([c, a] + rest, "code", 0);
    SamePartsSameRead(Element(x.tag, x.text, [a, c] + rest), Element(y.tag, y.text, [c, a] + rest),
                      creationNow, modifyNow, freshGuid);
  }

  /** The reader sees a document only through the two parts it finds. */
  lemma SamePartsSameRead(e: Element, f: Element, creationNow: DateTime, modifyNow: DateTime, freshGuid: string)
    requires Find(e, "attribute") == Find(f, "attribute") && Find(e, "code") == Find(f, "code")
    ensures FromXml(e, creationNow, modifyNow, freshGuid) == FromXml(f, creationNow, modifyNow, freshGuid)
  {
  }

  /** A root whose two children are the parts, attribute first, reads as
      the two parts read. */
  lemma ReadParts(ra: Element, rc: Element, a: DspAttribute.Attribute, c: DspCode.Code,
                  creationNow: DateTime, modifyNow: DateTime, freshGuid: string)
    requires ra.tag == "attribute" && rc.tag == "code"
    requires DspAttribute.FromXml(ra, creationNow, modifyNow, freshGuid) == Ok(a) && DspCode.FromXml(rc) == Ok(c)
    ensures FromXml(Element("dji", None, [ra, rc]), creationNow, modifyNow, freshGuid) == Ok(Dji(a, c))
  {
    FindsParts(ra, rc);
  }

  lemma FindsParts(ra: Element, rc: Element)
    requires ra.tag == "attribute" && rc.tag == "code"
    ensures Find(Element("dji", None, [ra, rc]), "attribute") == Some(ra)
    ensures Find(Element("dji", None, [ra, rc]), "code") == Some(rc)
  {
    var e := Element("dji", None, [ra, rc]);
    FindFirst(e.children, "attribute", 0);
    assert ra.tag[0] != "code"[0];
    FindFirst(e.children, "code", 1);
    assert Find(e, "attribute") == FindFrom(e.children, "attribute", 0);
    assert Find(e, "code") == FindFrom(e.children, "code", 0);
  }

  /** What a written attribute part reads back as: the creation date loses
      its time of day, the modification time its microseconds, an empty
      guid is replaced, and a `None` text comes back as "". */
  function Reread(a: DspAttribute.Attribute, freshGuid: string): DspAttribute.Attribute {
    DspAttribute.Attribute(
      StartOfDay(a.creationDate), DspAttribute.ReadAs(a.sign), WholeSeconds(a.modifyTime),
      if a.guid == "" then freshGuid else a.guid, DspAttribute.ReadAs(a.creator), a.fvd,
      DspAttribute.ReadAs(a.title), a.codeType, DspAttribute.ReadAs(a.appMinVersion),
      DspAttribute.ReadAs(a.appMaxVersion))
  }

  /** At tree level `from_xml_element(get_xml_element(d))` is the two parts'
      own round trips; the code texts sit in CDATA children, so the code
      fields read `None`. */
  lemma TreeRoundTrip(d: Dji, p1: int, p2: int, p3: int,
                      creationNow: DateTime, modifyNow: DateTime, freshGuid: string)
    requires d.attribute.fvd == FirmwareVersion.NewFvd(p1, p2, p3)
    ensures FromXml(ToXml(d), creationNow, modifyNow, freshGuid)
            == Ok(Dji(Reread(d.attribute, freshGuid), DspCode.Code(None, None)))
  {
    var e := ToXml(d);
    FindFirst(e.children, "attribute", 0);
    FindFirst(e.children, "code", 1);
    DspAttribute.TreeRoundTrip(d.attribute, p1, p2, p3, creationNow, modifyNow, freshGuid);
    DspCode.TreeLevelReadIsEmpty(d.code);
  }

  /** The tree the reader rebuilds from the written document. */
  lemma ReadBackDji(style: CdataStyle, d: Dji)
    ensures XmlRoundTrip.ReadBack(style, ToXml(d))
            == Element("dji", None, [XmlRoundTrip.ReadBack(style, DspAttribute.ToXml(d.attribute)),
                                     XmlRoundTrip.ReadBack(style, DspCode.ToXml(d.code))])
  {
    var a, c := DspAttribute.ToXml(d.attribute), DspCode.ToXml(d.code);
    XmlRoundTrip.AccTextWithoutCdata(style, [a, c], XmlReader.Normalize(""), true);
    assert [a, c][1..] == [c] && [c][1..] == [];
    assert XmlRoundTrip.ReadBackKids(style, [a, c])
           == [XmlRoundTrip.ReadBack(style, a)] + ([XmlRoundTrip.ReadBack(style, c)] + XmlRoundTrip.ReadBackKids(style, []));
  }

  /** The writer's output is accepted when the attribute's free texts are
      plain and the code fields fit in CDATA sections. */
  lemma SafeDji(style: CdataStyle, d: Dji)
    requires DspAttribute.PlainFields(d.attribute)
    requires XmlRoundTrip.CdataSafe(style, d.code.pythonCode) && XmlRoundTrip.CdataSafe(style, d.code.scratchDescription)
    ensures XmlRoundTrip.Safe(style, ToXml(d))
  {
    var a, c := DspAttribute.ToXml(d.attribute), DspCode.ToXml(d.code);
    DspAttribute.ReadBackAttribute(style, d.attribute);
    DspCode.CodeSafeIff(style, d.code);
    assert [a, c][1..] == [c] && [c][1..] == [];
    assert XmlRoundTrip.SafeAll(style, [a, c]);
    assert XmlReader.ValidName("dji") && XmlReader.XmlChars("");
  }

  /** `from_xml_string(get_xml_string(d))`: the attribute part comes back as
      at tree level, and each code field as its CDATA section reads. */
  lemma DocumentRoundTrip(style: CdataStyle, d: Dji, p1: int, p2: int, p3: int,
                          creationNow: DateTime, modifyNow: DateTime, freshGuid: string)
    requires d.attribute.fvd == FirmwareVersion.NewFvd(p1, p2, p3) && DspAttribute.PlainFields(d.attribute)
    requires XmlRoundTrip.CdataSafe(style, d.code.pythonCode) && XmlRoundTrip.CdataSafe(style, d.code.scratchDescription)
    ensures FromXmlString(GetXmlString(style, d), creationNow, modifyNow, freshGuid)
            == Ok(Dji(Reread(d.attribute, freshGuid),
                      DspCode.Code(DspCode.Stored(style, d.code.pythonCode), DspCode.Stored(style, d.code.scratchDescription))))
  {
    SafeDji(style, d);
    XmlRoundTrip.ReadWritten(style, ToXml(d));
    ReadBackDji(style, d);
    var ra := XmlRoundTrip.ReadBack(style, DspAttribute.ToXml(d.attribute));
    var rc := XmlRoundTrip.ReadBack(style, DspCode.ToXml(d.code));
    DspAttribute.ReadBackSameFields(style, d.attribute, creationNow, modifyNow, freshGuid);
    DspAttribute.TreeRoundTrip(d.attribute, p1, p2, p3, creationNow, modifyNow, freshGuid);
    DspCode.ReadBackFields(style, d.code);
    ReadParts(ra, rc, Reread(d.attribute, freshGuid),
              DspCode.Code(DspCode.Stored(style, d.code.pythonCode), DspCode.Stored(style, d.code.scratchDescription)),
              creationNow, modifyNow, freshGuid);
  }

  /** With the current hook, non-empty plain code texts come back exactly. */
  lemma CurrentDocumentRoundTrip(d: Dji, python: string, scratch: string, p1: int, p2: int, p3: int,
                                 creationNow: DateTime, modifyNow: DateTime, freshGuid: string)
    requires d.attribute.fvd == FirmwareVersion.NewFvd(p1, p2, p3) && DspAttribute.PlainFields(d.attribute)
    requires d.code == DspCode.Code(Some(python), Some(scratch))
    requires DspCode.PlainText(python) && DspCode.PlainText(scratch) && python != "" && scratch != ""
    ensures FromXmlString(GetXmlString(Current, d), creationNow, modifyNow, freshGuid)
            == Ok(Dji(Reread(d.attribute, freshGuid), d.code))
  {
    DspCode.StoredCurrent(python);
    DspCode.StoredCurrent(scratch);
    DocumentRoundTrip(Current, d, p1, p2, p3, creationNow, modifyNow, freshGuid);
  }
}

/** The older package's `Dji.from_xml_element`. It calls
    `Code.from_xml_element`, but that package's `Code` class has no such
    method (the reader there is the module function
    `get_code_from_xml_element`), so the lookup raises once the attribute
    part has been read. */
module LegacyDocument {
  import opened Wrappers
  import opened Calendar
  import opened Xml
  import XmlReader
  import DspAttribute
  import DjiDocument

  function FromXml(e: Element, creationNow: DateTime, modifyNow: DateTime, freshGuid: string): (r: Result<DjiDocument.Dji>)
    ensures r.Err?
  {
    match Find(e, "attribute")
    case None => Err(AttributeError)
    case Some(ae) =>
      var attribute :- DspAttribute.FromXml(ae, creationNow, modifyNow, freshGuid);
      Err(AttributeError)
  }

  function FromXmlString(s: string, creationNow: DateTime, modifyNow: DateTime, freshGuid: string): Result<DjiDocument.Dji> {
    var e :- XmlReader.ParseDocument(s);
    FromXml(e, creationNow, modifyNow, freshGuid)
  }

  /** No document is ever read, not even one the package wrote itself; the
      reader the call was evidently meant for is `DjiDocument.FromXml`, which
      reads the package's own output back (`DjiDocument.DocumentRoundTrip`). */
  lemma NeverReads(s: string, creationNow: DateTime, modifyNow: DateTime, freshGuid: string)
    ensures FromXmlString(s, creationNow, modifyNow, freshGuid).Err?
    ensures XmlReader.ParseDocument(s).Ok? && Find(XmlReader.ParseDocument(s).value, "attribute").Some?
            && DspAttribute.FromXml(Find(XmlReader.ParseDocument(s).value, "attribute").value,
                                    creationNow, modifyNow, freshGuid).Ok?
            ==> FromXmlString(s, creationNow, modifyNow, freshGuid) == Err(AttributeError)
  {
  }
}
