/** The ElementTree subset the codec uses: elements with a tag, an optional
    text and ordered children (no attributes, no tails), the lookups
    `find`/`findtext`, and the writer `ET.tostring(..., encoding="unicode",
    short_empty_elements=False)` with the codec's CDATA hook installed. */
module Xml {
  import opened Wrappers

  datatype Element = Element(tag: string, text: Option<string>, children: seq<Element>)

  /** The tag that marks an element as a CDATA section for the hooked writer. */
  const CdataHead: string := "![CDATA["

  /** `CDATA(text)`: a marker element whose text the hook writes verbatim. */
  function Cdata(text: Option<string>): (e: Element)
    ensures e.tag == CdataHead && e.text == text && e.children == []
  {
    Element(CdataHead, text, [])
  }

  predicate IsCdata(e: Element) {
    e.tag == CdataHead
  }

  // ---------------------------------------------------------------------
  // Lookups

  /** `e.find(tag)`: the first child with that tag. */
  function Find(e: Element, tag: string): (r: Option<Element>)
    ensures r.Some? ==> exists i :: 0 <= i < |e.children| && e.children[i] == r.value && r.value.tag == tag
    ensures r.None? <==> forall i :: 0 <= i < |e.children| ==> e.children[i].tag != tag
  {
    FindFrom(e.children, tag, 0)
  }

  function FindFrom(cs: seq<Element>, tag: string, i: nat): (r: Option<Element>)
    requires i <= |cs|
    ensures r.Some? ==> exists j :: i <= j < |cs| && cs[j] == r.value && r.value.tag == tag
                          && forall k :: i <= k < j ==> cs[k].tag != tag
    ensures r.None? <==> forall j :: i <= j < |cs| ==> cs[j].tag != tag
    decreases |cs| - i
  {
    if i == |cs| then None
    else if cs[i].tag == tag then Some(cs[i])
    else FindFrom(cs, tag, i + 1)
  }

  /** The first child with that tag is the one `find` returns, whatever the
      children after it are: lookups do not depend on later siblings. */
  lemma {:induction false} FindFirst(cs: seq<Element>, tag: string, j: nat)
    requires j < |cs| && cs[j].tag == tag
    requires forall k :: 0 <= k < j ==> cs[k].tag != tag
    ensures Find(Element("", None, cs), tag) == Some(cs[j])
  {
    FindFromFirst(cs, tag, 0, j);
  }

  lemma {:induction false} FindFromFirst(cs: seq<Element>, tag: string, i: nat, j: nat)
    requires i <= j < |cs| && cs[j].tag == tag
    requires forall k :: i <= k < j ==> cs[k].tag != tag
    ensures FindFrom(cs, tag, i) == Some(cs[j])
    decreases j - i
  {
    if i < j {
      FindFromFirst(cs, tag, i + 1, j);
    }
  }

  /** `e.findtext(tag)`: `None` when there is no such child, otherwise its
      text, with a missing text read as "". */
  function FindText(e: Element, tag: string): (r: Option<string>)
    ensures r.None? <==> Find(e, tag).None?
    ensures r.Some? ==> r.value == Find(e, tag).value.text.GetOr("")
  {
    match Find(e, tag)
    case None => None
    case Some(c) => Some(c.text.GetOr(""))
  }

  // ---------------------------------------------------------------------
  // Writer

  /** ElementTree's character escaping for text: `&`, `<` and `>`. */
  function EscapeChar(c: char): string {
    if c == '&' then "&amp;" else if c == '<' then "&lt;" else if c == '>' then "&gt;" else [c]
  }

  function Escape(t: string): (r: string)
    ensures '<' !in r && '>' !in r
    ensures (forall i :: 0 <= i < |t| ==> t[i] !in "&<>") ==> r == t
  {
    if t == [] then [] else EscapeChar(t[0]) + Escape(t[1..])
  }

  /** The two CDATA hooks: the current one writes `<![CDATA[`, the older one
      one `[` more. */
  datatype CdataStyle = Current | Legacy

  function CdataOpen(style: CdataStyle): string {
    match style
    case Current => "<" + CdataHead
    case Legacy => "<" + CdataHead + "["
  }

  const CdataClose: string := "]]>"

  /** An f-string field: a text as is, `None` as the word "None". */
  function PyStr(o: Option<string>): string {
    match o
    case Some(t) => t
    case None => "None"
  }

  /** The hook's output for a CDATA marker element. */
  function CdataText(style: CdataStyle, text: Option<string>): string {
    CdataOpen(style) + PyStr(text) + CdataClose
  }

  /** The serialisation of `e`: a CDATA marker goes to the hook; any other
      element to ElementTree's writer, which writes start tag, escaped text
      (nothing for `None` or ""), children and end tag, and never the short
      form `<t />`. */
  function Serialize(style: CdataStyle, e: Element): string
    decreases e, 1
  {
    if IsCdata(e) then CdataText(style, e.text)
    else "<" + e.tag + ">" + (Escape(e.text.GetOr("")) + (SerializeAll(style, e.children) + ("</" + e.tag + ">")))
  }

  function SerializeAll(style: CdataStyle, cs: seq<Element>): string
    decreases cs, 0
  {
    if cs == [] then [] else Serialize(style, cs[0]) + SerializeAll(style, cs[1..])
  }

  predicate NoCdata(e: Element)
    decreases e, 1
  {
    !IsCdata(e) && NoCdataIn(e.children)
  }

  predicate NoCdataIn(cs: seq<Element>)
    decreases cs, 0
  {
    forall i :: 0 <= i < |cs| ==> NoCdata(cs[i])
  }

  /** The hook leaves every other element to ElementTree: a tree without
      CDATA markers is written the same way under either hook. */
  lemma {:induction false} DelegatesUnchanged(e: Element)
    requires NoCdata(e)
    ensures Serialize(Current, e) == Serialize(Legacy, e)
    decreases e, 1
  {
    DelegatesUnchangedAll(e.children);
  }

  lemma {:induction false} DelegatesUnchangedAll(cs: seq<Element>)
    requires NoCdataIn(cs)
    ensures SerializeAll(Current, cs) == SerializeAll(Legacy, cs)
    decreases cs, 0
  {
    if cs != [] {
      DelegatesUnchanged(cs[0]);
      DelegatesUnchangedAll(cs[1..]);
    }
  }

  /** `short_empty_elements=False`: an element with no text and no children
      is written as a start tag directly followed by its end tag. */
  lemma EmptyElementLongForm(style: CdataStyle, tag: string, text: Option<string>)
    requires tag != CdataHead && (text.None? || text == Some(""))
    ensures Serialize(style, Element(tag, text, [])) == "<" + tag + "></" + tag + ">"
  {
    assert SerializeAll(style, []) == [];
  }
}
