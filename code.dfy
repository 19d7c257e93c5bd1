/** The `code` part of a document: the program text and the Scratch
    description, each written inside a CDATA section. */
module DspCode {
  import opened Wrappers
  import opened Xml
  import opened XmlReader
  import opened XmlRoundTrip

  /** A loaded document can hold `None` in either field (an element without
      text), so both are optional. */
  datatype Code = Code(pythonCode: Option<string>, scratchDescription: Option<string>)

  /** `Code()`: both fields default to "". */
  function NewCode(): (c: Code)
    ensures c.pythonCode == Some("") && c.scratchDescription == Some("")
  {
    Code(Some(""), Some(""))
  }

  /** The element `get_xml_element` builds. */
  function ToXml(c: Code): Element {
    Element("code", None, [
      Element("python_code", None, [Cdata(c.pythonCode)]),
      Element("scratch_description", None, [Cdata(c.scratchDescription)])
    ])
  }

  /** `get_xml_element`: a `code` element, then a `python_code` and a
      `scratch_description` child appended in that order, each given one
      CDATA child holding the field. */
  method BuildXml(c: Code) returns (e: Element)
    ensures e == ToXml(c)
    ensures e.tag == "code" && |e.children| == 2
    ensures e.children[0].tag == "python_code" && e.children[0].children == [Cdata(c.pythonCode)]
    ensures e.children[1].tag == "scratch_description" && e.children[1].children == [Cdata(c.scratchDescription)]
  {
    e := Element("code", None, []);
    var python := Element("python_code", None, []);
    python := python.(children := python.children + [Cdata(c.pythonCode)]);
    e := e.(children := e.children + [python]);
    var scratch := Element("scratch_description", None, []);
    scratch := scratch.(children := scratch.children + [Cdata(c.scratchDescription)]);
    e := e.(children := e.children + [scratch]);
    assert python.children == [Cdata(c.pythonCode)];
    assert scratch.children == [Cdata(c.scratchDescription)];
    assert e.children == [python, scratch];
  }

  /** `Code.from_xml_element`: the `.text` of the first `python_code` and
      `scratch_description` children; a missing child is `None`, whose
      `.text` raises AttributeError. */
  function FromXml(e: Element): (r: Result<Code>)
    ensures r.Err? <==> Find(e, "python_code").None? || Find(e, "scratch_description").None?
    ensures r.Err? ==> r.error == AttributeError
    ensures r.Ok? ==> r.value == Code(Find(e, "python_code").value.text, Find(e, "scratch_description").value.text)
  {
    match Find(e, "python_code")
    case None => Err(AttributeError)
    case Some(p) =>
      match Find(e, "scratch_description")
      case None => Err(AttributeError)
      case Some(s) => Ok(Code(p.text, s.text))
  }

  /** Read straight off the built tree, without writing and parsing it, both
      fields are `None`: their text sits in CDATA children, not in `.text`. */
  lemma TreeLevelReadIsEmpty(c: Code)
    ensures FromXml(ToXml(c)) == Ok(Code(None, None))
  {
    var e := ToXml(c);
    ReadPair("code", None, e.children[0], e.children[1]);
    assert e == Element("code", None, [e.children[0], e.children[1]]);
  }

  /** What a field reads back as after writing with `style` and parsing. */
  function Stored(style: CdataStyle, o: Option<string>): Option<string> {
    NonEmpty(Normalize(CdataContent(style, o)))
  }

  /** An element holding one CDATA child reads back as an element whose
      text is the stored field. */
  lemma ReadBackField(style: CdataStyle, tag: string, o: Option<string>)
    requires tag != CdataHead
    ensures ReadBack(style, Element(tag, None, [Cdata(o)])) == Element(tag, Stored(style, o), [])
  {
    var e := Element(tag, None, [Cdata(o)]);
    var cs := [Cdata(o)];
    assert cs[1..] == [];
    assert IsCdata(cs[0]) && cs[0].text == o;
    assert Normalize("") == "";
    assert AccText(style, cs, "", true) == AccText(style, [], "" + Normalize(CdataContent(style, o)), true);
    assert "" + Normalize(CdataContent(style, o)) == Normalize(CdataContent(style, o));
    assert ReadBackKids(style, cs) == [] + ReadBackKids(style, []) == [];
    assert ReadBack(style, e) == Element(tag, NonEmpty(AccText(style, cs, "", true)), ReadBackKids(style, cs));
  }

  lemma FieldSafeIff(style: CdataStyle, tag: string, o: Option<string>)
    requires ValidName(tag)
    ensures Safe(style, Element(tag, None, [Cdata(o)])) <==> CdataSafe(style, o)
  {
    var cs := [Cdata(o)];
    assert cs[1..] == [];
    assert tag != CdataHead by { assert CdataHead[0] == '!'; }
    assert XmlChars(None.GetOr(""));
    assert SafeAll(style, cs) == (CdataSafe(style, o) && SafeAll(style, []));
  }

  /** The tree the reader rebuilds from a written `code` element. */
  lemma ReadBackCode(style: CdataStyle, c: Code)
    ensures ReadBack(style, ToXml(c)) == Element("code", None, [
              Element("python_code", Stored(style, c.pythonCode), []),
              Element("scratch_description", Stored(style, c.scratchDescription), [])])
  {
    var p := Element("python_code", None, [Cdata(c.pythonCode)]);
    var s := Element("scratch_description", None, [Cdata(c.scratchDescription)]);
    ReadBackField(style, "python_code", c.pythonCode);
    ReadBackField(style, "scratch_description", c.scratchDescription);
    assert [p, s][1..] == [s] && [s][1..] == [];
    assert ReadBackKids(style, [s]) == [ReadBack(style, s)] + ReadBackKids(style, []);
    assert ReadBackKids(style, [p, s]) == [ReadBack(style, p)] + ReadBackKids(style, [s]);
    assert AccText(style, [p, s], Normalize(""), true) == AccText(style, [s], "", false) == "";
  }

  /** The written `code` element is readable exactly when both fields are. */
  lemma CodeSafeIff(style: CdataStyle, c: Code)
    ensures Safe(style, ToXml(c)) <==> CdataSafe(style, c.pythonCode) && CdataSafe(style, c.scratchDescription)
  {
    var p := Element("python_code", None, [Cdata(c.pythonCode)]);
    var s := Element("scratch_description", None, [Cdata(c.scratchDescription)]);
    assert ValidName("code") && ValidName("python_code") && ValidName("scratch_description");
    FieldSafeIff(style, "python_code", c.pythonCode);
    FieldSafeIff(style, "scratch_description", c.scratchDescription);
    assert "code" != CdataHead;
    SafePair(style, "code", p, s);
  }

  /** An element with two element children is safe exactly when both are. */
  lemma SafePair(style: CdataStyle, t: string, p: Element, s: Element)
    requires ValidName(t) && t != CdataHead && !IsCdata(p) && !IsCdata(s)
    ensures Safe(style, Element(t, None, [p, s])) <==> Safe(style, p) && Safe(style, s)
  {
    assert [p, s][1..] == [s] && [s][1..] == [];
    assert SafeAll(style, [p, s]) == (Safe(style, p) && Safe(style, s) && SafeAll(style, []));
    assert XmlChars(None.GetOr(""));
  }

  /** `from_xml_element` on the rebuilt tree reads what the CDATA sections
      stored. */
  lemma ReadBackFields(style: CdataStyle, c: Code)
    ensures FromXml(ReadBack(style, ToXml(c))) == Ok(Code(Stored(style, c.pythonCode), Stored(style, c.scratchDescription)))
  {
    ReadBackCode(style, c);
    ReadPair("code", None, Element("python_code", Stored(style, c.pythonCode), []),
             Element("scratch_description", Stored(style, c.scratchDescription), []));
  }

  /** The two fields are read from the children with their tags. */
  lemma ReadPair(t: string, text: Option<string>, p: Element, s: Element)
    requires p.tag == "python_code" && s.tag == "scratch_description"
    ensures FromXml(Element(t, text, [p, s])) == Ok(Code(p.text, s.text))
  {
    var cs := [p, s];
    FindFirst(cs, "python_code", 0);
    FindFirst(cs, "scratch_description", 1);
    assert Find(Element(t, text, cs), "python_code") == Find(Element("", None, cs), "python_code");
    assert Find(Element(t, text, cs), "scratch_description") == Find(Element("", None, cs), "scratch_description");
  }

  /** Writing a `code` element and reading it back gives each field as
      the reader sees its CDATA section: for the current hook the text as
      written with line ends normalised, an empty field as `None` and a
      `None` field as the word "None". */
  lemma DocumentRoundTrip(style: CdataStyle, c: Code)
    requires CdataSafe(style, c.pythonCode) && CdataSafe(style, c.scratchDescription)
    ensures ParseDocument(Serialize(style, ToXml(c))).Ok?
    ensures FromXml(ParseDocument(Serialize(style, ToXml(c))).value)
            == Ok(Code(Stored(style, c.pythonCode), Stored(style, c.scratchDescription)))
  {
    CodeSafeIff(style, c);
    ReadWritten(style, ToXml(c));
    ReadBackFields(style, c);
  }

  /** A text is stored safely when it is made of XML characters, has no
      "]]>" and no carriage return. */
  predicate PlainText(t: string) {
    XmlChars(t) && !Contains(t, CdataClose) && '\r' !in t
  }

  /** With the current hook a plain non-empty text comes back unchanged, and
      "" comes back as `None`. */
  lemma StoredCurrent(t: string)
    requires PlainText(t)
    ensures CdataSafe(Current, Some(t))
    ensures Stored(Current, Some(t)) == if t == "" then None else Some(t)
  {
  }

  /** Saving and loading the code of a document with the current hook keeps
      non-empty plain texts exactly. */
  lemma CurrentRoundTrip(python: string, scratch: string)
    requires PlainText(python) && PlainText(scratch) && python != "" && scratch != ""
    ensures var c := Code(Some(python), Some(scratch));
            ParseDocument(Serialize(Current, ToXml(c))).Ok?
            && FromXml(ParseDocument(Serialize(Current, ToXml(c))).value) == Ok(c)
  {
    StoredCurrent(python);
    StoredCurrent(scratch);
    DocumentRoundTrip(Current, Code(Some(python), Some(scratch)));
  }

  /** A text containing "]]>" makes the written document unreadable as
      written: the CDATA section the reader sees ends early. */
  lemma TerminatorBreaksSection(t: string, more: string)
    requires Contains(t, CdataClose) && Lex(more).Some?
    ensures Lex(CdataText(Current, Some(t)) + more) != Prepend(Section(t), Lex(more))
  {
    CdataTextShape(Current, Some(t));
    SectionReadsBackIff(t, more);
  }
}
