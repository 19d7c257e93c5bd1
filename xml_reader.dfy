/** Reading a serialised tree back, as `ET.fromstring` does for the documents
    the codec writes: a lexer for tags, character data and CDATA sections, and
    a parser that rebuilds elements. Character data and CDATA both become
    element text, with the line-end normalisation of section 2.11 of XML 1.0;
    text after a child element (a tail) is not kept. */
module XmlReader {
  import opened Wrappers
  import opened Xml
  import PyText

  datatype Token = Open(name: string) | Close(name: string) | Chars(raw: string) | Section(content: string)

  // ---------------------------------------------------------------------
  // Characters and names

  /** The `Char` production of XML 1.0 (section 2.2). */
  predicate XmlChar(c: char) {
    c == '\t' || c == '\n' || c == '\r'
    || ('\U{20}' <= c <= '\U{D7FF}') || ('\U{E000}' <= c <= '\U{FFFD}') || ('\U{10000}' <= c <= '\U{10FFFF}')
  }

  predicate XmlChars(t: string) {
    forall i :: 0 <= i < |t| ==> XmlChar(t[i])
  }

  predicate NameStartChar(c: char) {
    ('a' <= c <= 'z') || ('A' <= c <= 'Z') || c == '_'
  }

  predicate NameChar(c: char) {
    NameStartChar(c) || ('0' <= c <= '9') || c == '-' || c == '.'
  }

  /** Tag names: the ASCII part of the `Name` production. */
  predicate ValidName(n: string) {
    |n| >= 1 && NameStartChar(n[0]) && forall i :: 0 <= i < |n| ==> NameChar(n[i])
  }

  predicate StartsWith(s: string, p: string) {
    |p| <= |s| && s[..|p|] == p
  }

  predicate Contains(t: string, sub: string) {
    exists j :: 0 <= j <= |t| && PyText.OccursAt(t, sub, j)
  }

  /** The first index of `c` in `s`, or `|s|`. */
  function FirstIndex(s: string, c: char): (k: nat)
    ensures k <= |s|
    ensures forall i :: 0 <= i < k ==> s[i] != c
    ensures k < |s| ==> s[k] == c
  {
    if s == [] then 0 else if s[0] == c then 0 else 1 + FirstIndex(s[1..], c)
  }

  /** The first index at or after `from` where `sub` occurs, or -1. */
  function FirstOccurrence(s: string, sub: string, from: nat): (r: int)
    ensures r == -1 || (from <= r && PyText.OccursAt(s, sub, r))
    ensures forall j :: from <= j && (r == -1 || j < r) ==> !PyText.OccursAt(s, sub, j)
    decreases |s| + 1 - from
  {
    if from + |sub| > |s| then -1
    else if PyText.OccursAt(s, sub, from) then from
    else FirstOccurrence(s, sub, from + 1)
  }

  // ---------------------------------------------------------------------
  // Lexer

  function Prepend(t: Token, o: Option<seq<Token>>): Option<seq<Token>> {
    match o
    case None => None
    case Some(ts) => Some([t] + ts)
  }

  function AppendTo(ts: seq<Token>, o: Option<seq<Token>>): Option<seq<Token>> {
    match o
    case None => None
    case Some(us) => Some(ts + us)
  }

  const SectionOpen: string := "<" + CdataHead

  /** Splits a document into start tags, end tags, character data and CDATA
      sections; `None` when it is not made of these. */
  function Lex(s: string): Option<seq<Token>>
    decreases |s|
  {
    if s == [] then Some([])
    else if s[0] != '<' then
      var k := FirstIndex(s, '<');
      Prepend(Chars(s[..k]), Lex(s[k..]))
    else if StartsWith(s, SectionOpen) then
      var j := FirstOccurrence(s, CdataClose, |SectionOpen|);
      if j < 0 then None else Prepend(Section(s[|SectionOpen|..j]), Lex(s[j + 3..]))
    else
      var j := FirstIndex(s, '>');
      if j == |s| then None
      else if |s| >= 2 && s[1] == '/' then
        if ValidName(s[2..j]) then Prepend(Close(s[2..j]), Lex(s[j + 1..])) else None
      else if ValidName(s[1..j]) then Prepend(Open(s[1..j]), Lex(s[j + 1..]))
      else None
  }

  // ---------------------------------------------------------------------
  // Character data

  /** Line ends as an XML processor passes them on: `\r\n` and a lone `\r`
      both become `\n`. */
  function Normalize(t: string): (r: string)
    ensures '\r' !in r
    ensures '\r' !in t ==> r == t
  {
    if t == [] then []
    else if t[0] == '\r' then
      if |t| >= 2 && t[1] == '\n' then "\n" + Normalize(t[2..]) else "\n" + Normalize(t[1..])
    else [t[0]] + Normalize(t[1..])
  }

  function PrependChar(c: char, o: Option<string>): Option<string> {
    match o
    case None => None
    case Some(t) => Some([c] + t)
  }

  /** Replaces the five predefined entity references (section 4.6 of
      XML 1.0); any other `&` makes the text unreadable. */
  function Unescape(raw: string): Option<string>
    decreases |raw|
  {
    if raw == [] then Some([])
    else if raw[0] != '&' then PrependChar(raw[0], Unescape(raw[1..]))
    else if StartsWith(raw, "&amp;") then PrependChar('&', Unescape(raw[5..]))
    else if StartsWith(raw, "&lt;") then PrependChar('<', Unescape(raw[4..]))
    else if StartsWith(raw, "&gt;") then PrependChar('>', Unescape(raw[4..]))
    else if StartsWith(raw, "&quot;") then PrependChar('"', Unescape(raw[6..]))
    else if StartsWith(raw, "&apos;") then PrependChar('\'', Unescape(raw[6..]))
    else None
  }

  /** The text a run of character data contributes. */
  function CharData(raw: string): Option<string> {
    if Contains(raw, CdataClose) then None
    else match Unescape(raw)
      case None => None
      case Some(t) => if XmlChars(t) then Some(Normalize(t)) else None
  }

  /** The text a CDATA section contributes. */
  function SectionData(content: string): Option<string> {
    if XmlChars(content) then Some(Normalize(content)) else None
  }

  // ---------------------------------------------------------------------
  // Parser

  /** One element: its start tag, content and matching end tag. */
  function ParseElement(ts: seq<Token>): (r: Option<(Element, seq<Token>)>)
    ensures r.Some? ==> |r.value.1| < |ts|
    decreases |ts|, 0
  {
    if ts == [] || !ts[0].Open? then None
    else ParseContent(ts[1..], ts[0].name, [], [])
  }

  /** The content of an element named `name`, with the text and children
      read so far. Character data counts as text only before the first child
      element. */
  function ParseContent(ts: seq<Token>, name: string, text: string, kids: seq<Element>): (r: Option<(Element, seq<Token>)>)
    ensures r.Some? ==> |r.value.1| < |ts|
    decreases |ts|, 1
  {
    if ts == [] then None
    else match ts[0]
      case Close(n) =>
        if n == name then Some((Element(name, if text == [] then None else Some(text), kids), ts[1..])) else None
      case Chars(raw) =>
        (match CharData(raw)
         case None => None
         case Some(d) => ParseContent(ts[1..], name, if kids == [] then text + d else text, kids))
      case Section(c) =>
        (match SectionData(c)
         case None => None
         case Some(d) => ParseContent(ts[1..], name, if kids == [] then text + d else text, kids))
      case Open(_) =>
        (match ParseElement(ts)
         case None => None
         case Some(p) => ParseContent(p.1, name, text, kids + [p.0]))
  }

  /** `ET.fromstring(s)`: the one root element that makes up the document. */
  function ParseDocument(s: string): Result<Element> {
    match Lex(s)
    case None => Err(ParseError)
    case Some(ts) =>
      match ParseElement(ts)
      case None => Err(ParseError)
      case Some(p) => if p.1 == [] then Ok(p.0) else Err(ParseError)
  }
}
