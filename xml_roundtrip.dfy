/** What reading a written tree gives back: the tokens the writer emits, the
    tree the reader rebuilds from them, and the theorem tying the two. */
module XmlRoundTrip {
  import opened Wrappers
  import opened Xml
  import opened XmlReader
  import PyText

  /** The text inside the section a CDATA hook writes. */
  function CdataContent(style: CdataStyle, text: Option<string>): string {
    match style
    case Current => PyStr(text)
    case Legacy => "[" + PyStr(text)
  }

  lemma CdataTextShape(style: CdataStyle, text: Option<string>)
    ensures CdataText(style, text) == SectionOpen + CdataContent(style, text) + CdataClose
  {
  }

  /** A CDATA section reads back as written when its text is made of XML
      characters and does not contain the section terminator. */
  predicate CdataSafe(style: CdataStyle, text: Option<string>) {
    XmlChars(CdataContent(style, text)) && !Contains(CdataContent(style, text), CdataClose)
  }

  /** A tree whose serialisation the reader accepts: valid tag names, texts of
      XML characters, CDATA sections that close where they were meant to. */
  predicate Safe(style: CdataStyle, e: Element)
    decreases e, 1
  {
    !IsCdata(e) && ValidName(e.tag) && XmlChars(e.text.GetOr("")) && SafeAll(style, e.children)
  }

  predicate SafeAll(style: CdataStyle, cs: seq<Element>)
    decreases cs, 0
  {
    cs != [] ==>
      (if IsCdata(cs[0]) then CdataSafe(style, cs[0].text) else Safe(style, cs[0]))
      && SafeAll(style, cs[1..])
  }

  function TextTokens(text: Option<string>): seq<Token> {
    if text.GetOr("") == [] then [] else [Chars(Escape(text.GetOr("")))]
  }

  /** The tokens the writer's output consists of. */
  function Tokens(style: CdataStyle, e: Element): seq<Token>
    decreases e, 1
  {
    if IsCdata(e) then [Section(CdataContent(style, e.text))]
    else [Open(e.tag)] + TextTokens(e.text) + TokensAll(style, e.children) + [Close(e.tag)]
  }

  function TokensAll(style: CdataStyle, cs: seq<Element>): seq<Token>
    decreases cs, 0
  {
    if cs == [] then [] else Tokens(style, cs[0]) + TokensAll(style, cs[1..])
  }

  function NonEmpty(t: string): Option<string> {
    if t == [] then None else Some(t)
  }

  /** The text gathered from CDATA children while no child element has been
      seen (`open`). */
  function AccText(style: CdataStyle, cs: seq<Element>, text: string, open: bool): string {
    if cs == [] then text
    else if IsCdata(cs[0]) then
      AccText(style, cs[1..], if open then text + Normalize(CdataContent(style, cs[0].text)) else text, open)
    else AccText(style, cs[1..], text, false)
  }

  /** The tree the reader rebuilds from a written one: CDATA sections become
      part of the text, an empty text becomes `None`, line ends are
      normalised, and only element children remain. */
  function ReadBack(style: CdataStyle, e: Element): Element
    requires !IsCdata(e)
    decreases e, 1
  {
    Element(e.tag, NonEmpty(AccText(style, e.children, Normalize(e.text.GetOr("")), true)),
            ReadBackKids(style, e.children))
  }

  function ReadBackKids(style: CdataStyle, cs: seq<Element>): seq<Element>
    decreases cs, 0
  {
    if cs == [] then []
    else (if IsCdata(cs[0]) then [] else [ReadBack(style, cs[0])]) + ReadBackKids(style, cs[1..])
  }

  // ---------------------------------------------------------------------
  // Lexing what the writer wrote

  lemma AppendToAssoc(a: seq<Token>, b: seq<Token>, o: Option<seq<Token>>)
    ensures AppendTo(a, AppendTo(b, o)) == AppendTo(a + b, o)
  {
    match o {
      case None =>
      case Some(us) => assert a + (b + us) == (a + b) + us;
    }
  }

  lemma LexOpen(tag: string, more: string)
    requires ValidName(tag)
    ensures Lex("<" + tag + ">" + more) == Prepend(Open(tag), Lex(more))
  {
    var s := "<" + tag + ">" + more;
    var j := |tag| + 1;
    assert s[1] == tag[0];
    assert !StartsWith(s, SectionOpen) by { assert SectionOpen[1] == '!'; }
    forall i | 0 <= i < j ensures s[i] != '>' {
      if i > 0 { assert s[i] == tag[i - 1]; }
    }
    assert s[0] == '<' && s[j] == '>';
    assert FirstIndex(s, '>') == j;
    assert s[1..j] == tag;
    assert s[j + 1..] == more;
  }

  lemma LexClose(tag: string, more: string)
    requires ValidName(tag)
    ensures Lex("</" + tag + ">" + more) == Prepend(Close(tag), Lex(more))
  {
    var s := "</" + tag + ">" + more;
    var j := |tag| + 2;
    assert !StartsWith(s, SectionOpen) by { assert SectionOpen[1] == '!'; }
    forall i | 0 <= i < j ensures s[i] != '>' {
      if i > 1 { assert s[i] == tag[i - 2]; }
    }
    assert s[0] == '<' && s[1] == '/' && s[j] == '>';
    assert FirstIndex(s, '>') == j;
    assert s[2..j] == tag;
    assert s[j + 1..] == more;
  }

  lemma LexChars(raw: string, more: string)
    requires raw != [] && '<' !in raw
    requires more == [] || more[0] == '<'
    ensures Lex(raw + more) == Prepend(Chars(raw), Lex(more))
  {
    var s := raw + more;
    assert s[0] == raw[0];
    assert forall i :: 0 <= i < |raw| ==> s[i] == raw[i];
    if more != [] {
      assert s[|raw|] == '<';
    }
    assert FirstIndex(s, '<') == |raw|;
    assert s[..|raw|] == raw && s[|raw|..] == more;
  }

  /** The section terminator after a text without one is the first one. */
  lemma SectionEnd(content: string, more: string)
    requires !Contains(content, CdataClose)
    ensures FirstOccurrence(SectionOpen + content + CdataClose + more, CdataClose, |SectionOpen|)
            == |SectionOpen| + |content|
  {
    var s := SectionOpen + content + CdataClose + more;
    var n := |SectionOpen|;
    var e := n + |content|;
    assert PyText.OccursAt(s, CdataClose, e) by { assert s[e..e + 3] == CdataClose; }
    forall j | n <= j < e ensures !PyText.OccursAt(s, CdataClose, j) {
      if j + 3 <= e {
        assert s[j..j + 3] == content[j - n..j - n + 3];
        assert !PyText.OccursAt(content, CdataClose, j - n);
      } else {
        assert s[j + 2] == ']';
        assert s[j..j + 3][2] == s[j + 2];
      }
    }
  }

  lemma LexSection(content: string, more: string)
    requires !Contains(content, CdataClose)
    ensures Lex(SectionOpen + content + CdataClose + more) == Prepend(Section(content), Lex(more))
  {
    var s := SectionOpen + content + CdataClose + more;
    var n := |SectionOpen|;
    SectionEnd(content, more);
    assert s[0] == '<';
    assert StartsWith(s, SectionOpen) by { assert s[..n] == SectionOpen; }
    assert s[n..n + |content|] == content;
    assert s[n + |content| + 3..] == more;
  }

  /** How the lexer reads a CDATA section at the start of `s`. */
  lemma LexAtSection(s: string)
    requires StartsWith(s, SectionOpen)
    ensures var j := FirstOccurrence(s, CdataClose, |SectionOpen|);
            Lex(s) == if j < 0 then None else Prepend(Section(s[|SectionOpen|..j]), Lex(s[j + 3..]))
  {
    assert s[0] == SectionOpen[0];
  }

  /** A CDATA section comes back as the text that was written exactly when
      that text does not contain "]]>". */
  lemma {:induction false} SectionReadsBackIff(content: string, more: string)
    requires Lex(more).Some?
    ensures Lex(SectionOpen + content + CdataClose + more) == Prepend(Section(content), Lex(more))
            <==> !Contains(content, CdataClose)
  {
    if Contains(content, CdataClose) {
      var s := SectionOpen + content + CdataClose + more;
      var n := |SectionOpen|;
      var k :| 0 <= k <= |content| && PyText.OccursAt(content, CdataClose, k);
      assert s[n + k..n + k + 3] == content[k..k + 3];
      assert PyText.OccursAt(s, CdataClose, n + k);
      assert s[..n] == SectionOpen;
      var j := FirstOccurrence(s, CdataClose, n);
      assert n <= j <= n + k;
      LexAtSection(s);
      var l := Lex(s);
      if l.Some? {
        assert l.value[0] == Section(s[n..j]);
        assert |s[n..j]| < |content|;
      }
    } else {
      LexSection(content, more);
    }
  }

  lemma SerializeStartsWithLt(style: CdataStyle, e: Element)
    ensures |Serialize(style, e)| > 0 && Serialize(style, e)[0] == '<'
  {
  }

  lemma SerializeAllThenLt(style: CdataStyle, cs: seq<Element>, more: string)
    requires |more| > 0 && more[0] == '<'
    ensures var s := SerializeAll(style, cs) + more; |s| > 0 && s[0] == '<'
  {
    if cs != [] {
      SerializeStartsWithLt(style, cs[0]);
      assert (SerializeAll(style, cs) + more)[0] == Serialize(style, cs[0])[0];
    }
  }

  /** The lexing of an element's parts, given that of its children. */
  lemma TokenAssoc(a: seq<Token>, b: seq<Token>, c: seq<Token>, d: seq<Token>)
    ensures a + b + c + d == a + (b + (c + d))
  {
  }

  lemma LexElementParts(tag: string, t: string, kids: string, kidTokens: seq<Token>, more: string)
    requires ValidName(tag)
    requires Lex(kids + ("</" + tag + ">" + more)) == AppendTo(kidTokens, Lex("</" + tag + ">" + more))
    requires var m := kids + ("</" + tag + ">" + more); |m| > 0 && m[0] == '<'
    ensures Lex("<" + tag + ">" + (Escape(t) + (kids + ("</" + tag + ">" + more))))
            == AppendTo([Open(tag)] + (TextTokens(Some(t)) + (kidTokens + [Close(tag)])), Lex(more))
  {
    var tail := "</" + tag + ">" + more;
    var mid := kids + tail;
    var l := Lex(more);
    var ts := kidTokens + [Close(tag)];
    var inner := TextTokens(Some(t)) + ts;
    LexClose(tag, more);
    AppendToAssoc(kidTokens, [Close(tag)], l);
    LexText(t, mid, ts, l);
    LexOpen(tag, Escape(t) + mid);
    AppendToAssoc([Open(tag)], inner, l);
  }

  lemma LexText(t: string, mid: string, ts: seq<Token>, l: Option<seq<Token>>)
    requires Lex(mid) == AppendTo(ts, l)
    requires |mid| > 0 && mid[0] == '<'
    ensures Lex(Escape(t) + mid) == AppendTo(TextTokens(Some(t)) + ts, l)
  {
    if t == [] {
      assert Escape(t) + mid == mid;
      assert TextTokens(Some(t)) + ts == ts;
    } else {
      assert Escape(t) != [] by { assert Escape(t) == EscapeChar(t[0]) + Escape(t[1..]); }
      LexChars(Escape(t), mid);
      AppendToAssoc([Chars(Escape(t))], ts, l);
    }
  }

  lemma Assoc(a: string, b: string, c: string)
    ensures (a + b) + c == a + (b + c)
  {
  }

  lemma SerializeShape(style: CdataStyle, e: Element, more: string)
    requires !IsCdata(e)
    ensures Serialize(style, e) + more
            == "<" + e.tag + ">" + (Escape(e.text.GetOr("")) + (SerializeAll(style, e.children) + ("</" + e.tag + ">" + more)))
  {
    var x, t, k, c := "<" + e.tag + ">", Escape(e.text.GetOr("")), SerializeAll(style, e.children), "</" + e.tag + ">";
    Assoc(x, t + (k + c), more);
    Assoc(t, k + c, more);
    Assoc(k, c, more);
  }

  /** What the writer emits for a safe element lexes into its tokens,
      whatever follows it. */
  lemma {:induction false} LexSerialized(style: CdataStyle, e: Element, more: string)
    requires if IsCdata(e) then CdataSafe(style, e.text) else Safe(style, e)
    ensures Lex(Serialize(style, e) + more) == AppendTo(Tokens(style, e), Lex(more))
    decreases e, 1
  {
    if IsCdata(e) {
      CdataTextShape(style, e.text);
      LexSection(CdataContent(style, e.text), more);
    } else {
      var t := e.text.GetOr("");
      var tail := "</" + e.tag + ">" + more;
      var kids := SerializeAll(style, e.children);
      LexSerializedAll(style, e.children, tail);
      SerializeAllThenLt(style, e.children, tail);
      LexElementParts(e.tag, t, kids, TokensAll(style, e.children), more);
      assert TextTokens(Some(t)) == TextTokens(e.text);
      TokenAssoc([Open(e.tag)], TextTokens(e.text), TokensAll(style, e.children), [Close(e.tag)]);
      SerializeShape(style, e, more);
    }
  }

  lemma {:induction false} LexSerializedAll(style: CdataStyle, cs: seq<Element>, more: string)
    requires SafeAll(style, cs)
    ensures Lex(SerializeAll(style, cs) + more) == AppendTo(TokensAll(style, cs), Lex(more))
    decreases cs, 0
  {
    if cs == [] {
      assert SerializeAll(style, cs) + more == more;
      match Lex(more) {
        case None =>
        case Some(us) => assert [] + us == us;
      }
    } else {
      var rest := SerializeAll(style, cs[1..]) + more;
      LexSerializedAll(style, cs[1..], more);
      LexSerialized(style, cs[0], rest);
      AppendToAssoc(Tokens(style, cs[0]), TokensAll(style, cs[1..]), Lex(more));
      Assoc(Serialize(style, cs[0]), SerializeAll(style, cs[1..]), more);
    }
  }

  // ---------------------------------------------------------------------
  // Parsing the tokens

  lemma UnescapeChar(c: char, rest: string)
    ensures Unescape(EscapeChar(c) + rest) == PrependChar(c, Unescape(rest))
  {
    var s := EscapeChar(c) + rest;
    if c == '&' {
      assert s[..5] == "&amp;" && s[5..] == rest;
    } else if c == '<' {
      assert s[1] == 'l';
      assert s[..4] == "&lt;" && s[4..] == rest;
    } else if c == '>' {
      assert s[1] == 'g';
      assert s[..4] == "&gt;" && s[4..] == rest;
    } else {
      assert s[0] == c && s[1..] == rest;
    }
  }

  /** Unescaping undoes ElementTree's escaping. */
  lemma {:induction false} UnescapeEscape(t: string)
    ensures Unescape(Escape(t)) == Some(t)
  {
    if t != [] {
      UnescapeEscape(t[1..]);
      UnescapeChar(t[0], Escape(t[1..]));
      assert [t[0]] + t[1..] == t;
    }
  }

  lemma CharDataOfEscape(t: string)
    requires XmlChars(t)
    ensures CharData(Escape(t)) == Some(Normalize(t))
  {
    var r := Escape(t);
    forall j | 0 <= j <= |r| ensures !PyText.OccursAt(r, CdataClose, j) {
      if j + 3 <= |r| {
        assert r[j..j + 3][2] == r[j + 2];
      }
    }
    UnescapeEscape(t);
  }

  lemma {:induction false} ParseTokens(style: CdataStyle, e: Element, rest: seq<Token>)
    requires Safe(style, e)
    ensures ParseElement(Tokens(style, e) + rest) == Some((ReadBack(style, e), rest))
    decreases e, 2
  {
    var t := e.text.GetOr("");
    var closing := [Close(e.tag)] + rest;
    var body := TokensAll(style, e.children) + closing;
    assert Tokens(style, e) + rest == [Open(e.tag)] + (TextTokens(e.text) + body);
    ParseOpen(e.tag, TextTokens(e.text) + body);
    ParseText(t, e.text, body, e.tag);
    ParseTokensAll(style, e.children, closing, e.tag, Normalize(t), [], true);
    ParseClose(e.tag, rest, AccText(style, e.children, Normalize(t), true), ReadBackKids(style, e.children));
  }

  lemma ParseOpen(tag: string, ts: seq<Token>)
    ensures ParseElement([Open(tag)] + ts) == ParseContent(ts, tag, [], [])
  {
    assert ([Open(tag)] + ts)[1..] == ts;
  }

  /** The text before the first child is read back normalised. */
  lemma ParseText(t: string, text: Option<string>, body: seq<Token>, tag: string)
    requires t == text.GetOr("") && XmlChars(t)
    ensures ParseContent(TextTokens(text) + body, tag, [], []) == ParseContent(body, tag, Normalize(t), [])
  {
    if t != [] {
      CharDataOfEscape(t);
      assert (TextTokens(text) + body)[0] == Chars(Escape(t));
      assert (TextTokens(text) + body)[1..] == body;
      assert [] + Normalize(t) == Normalize(t);
    } else {
      assert TextTokens(text) + body == body;
    }
  }

  lemma ParseClose(tag: string, rest: seq<Token>, text: string, kids: seq<Element>)
    ensures ParseContent([Close(tag)] + rest, tag, text, [] + kids)
            == Some((Element(tag, NonEmpty(text), kids), rest))
  {
    assert ([Close(tag)] + rest)[1..] == rest;
    assert [] + kids == kids;
  }

  lemma ParseContentSection(content: string, after: seq<Token>, name: string, text: string, kids: seq<Element>)
    requires XmlChars(content)
    ensures ParseContent([Section(content)] + after, name, text, kids)
            == ParseContent(after, name, if kids == [] then text + Normalize(content) else text, kids)
  {
    assert ([Section(content)] + after)[1..] == after;
  }

  lemma ParseContentChild(ts: seq<Token>, child: Element, after: seq<Token>, name: string, text: string, kids: seq<Element>)
    requires ts != [] && ts[0].Open?
    requires ParseElement(ts) == Some((child, after))
    ensures ParseContent(ts, name, text, kids) == ParseContent(after, name, text, kids + [child])
  {
  }

  lemma {:induction false} ParseTokensAll(style: CdataStyle, cs: seq<Element>, tail: seq<Token>,
                                          name: string, text: string, kids: seq<Element>, open: bool)
    requires SafeAll(style, cs)
    requires open <==> kids == []
    ensures ParseContent(TokensAll(style, cs) + tail, name, text, kids)
            == ParseContent(tail, name, AccText(style, cs, text, open), kids + ReadBackKids(style, cs))
    decreases cs, 1
  {
    if cs == [] {
      assert TokensAll(style, cs) + tail == tail;
      assert kids + [] == kids;
    } else if IsCdata(cs[0]) {
      ParseSectionFirst(style, cs, tail, name, text, kids, open);
    } else {
      ParseChildFirst(style, cs, tail, name, text, kids, open);
    }
  }

  lemma {:induction false} ParseSectionFirst(style: CdataStyle, cs: seq<Element>, tail: seq<Token>,
                                             name: string, text: string, kids: seq<Element>, open: bool)
    requires cs != [] && IsCdata(cs[0]) && SafeAll(style, cs)
    requires open <==> kids == []
    ensures ParseContent(TokensAll(style, cs) + tail, name, text, kids)
            == ParseContent(tail, name, AccText(style, cs, text, open), kids + ReadBackKids(style, cs))
    decreases cs, 0
  {
    var content := CdataContent(style, cs[0].text);
    var after := TokensAll(style, cs[1..]) + tail;
    TokensFirst(style, cs, tail);
    assert Tokens(style, cs[0]) == [Section(content)];
    assert XmlChars(content) && SafeAll(style, cs[1..]);
    ParseContentSection(content, after, name, text, kids);
    var text' := if kids == [] then text + Normalize(content) else text;
    ParseTokensAll(style, cs[1..], tail, name, text', kids, open);
    assert AccText(style, cs, text, open) == AccText(style, cs[1..], text', open);
    assert ReadBackKids(style, cs) == [] + ReadBackKids(style, cs[1..]) == ReadBackKids(style, cs[1..]);
  }

  lemma TokensFirst(style: CdataStyle, cs: seq<Element>, tail: seq<Token>)
    requires cs != []
    ensures TokensAll(style, cs) + tail == Tokens(style, cs[0]) + (TokensAll(style, cs[1..]) + tail)
  {
    SeqAssoc(Tokens(style, cs[0]), TokensAll(style, cs[1..]), tail);
  }

  lemma SeqAssoc(a: seq<Token>, b: seq<Token>, c: seq<Token>)
    ensures (a + b) + c == a + (b + c)
  {
  }

  lemma KidsAssoc(kids: seq<Element>, c: Element, more: seq<Element>)
    ensures kids + ([c] + more) == (kids + [c]) + more
  {
  }

  lemma {:induction false} ParseChildFirst(style: CdataStyle, cs: seq<Element>, tail: seq<Token>,
                                           name: string, text: string, kids: seq<Element>, open: bool)
    requires cs != [] && !IsCdata(cs[0]) && SafeAll(style, cs)
    requires open <==> kids == []
    ensures ParseContent(TokensAll(style, cs) + tail, name, text, kids)
            == ParseContent(tail, name, AccText(style, cs, text, open), kids + ReadBackKids(style, cs))
    decreases cs, 0
  {
    var c := cs[0];
    var after := TokensAll(style, cs[1..]) + tail;
    var ts := Tokens(style, c) + after;
    TokensFirst(style, cs, tail);
    ParseTokens(style, c, after);
    assert ts[0] == Open(c.tag);
    ParseContentChild(ts, ReadBack(style, c), after, name, text, kids);
    var kids' := kids + [ReadBack(style, c)];
    ParseTokensAll(style, cs[1..], tail, name, text, kids', false);
    assert AccText(style, cs, text, open) == AccText(style, cs[1..], text, false);
    KidsAssoc(kids, ReadBack(style, c), ReadBackKids(style, cs[1..]));
    assert ReadBackKids(style, cs) == [ReadBack(style, c)] + ReadBackKids(style, cs[1..]);
  }

  /** Reading back a written tree rebuilds `ReadBack` of it: for every safe
      tree, `ET.fromstring(ET.tostring(e))` is the tree with its CDATA merged
      into text, empty texts as `None` and line ends normalised. */
  lemma ReadWritten(style: CdataStyle, e: Element)
    requires Safe(style, e)
    ensures ParseDocument(Serialize(style, e)) == Ok(ReadBack(style, e))
  {
    LexSerialized(style, e, []);
    assert Serialize(style, e) + [] == Serialize(style, e);
    assert Tokens(style, e) + [] == Tokens(style, e);
    ParseTokens(style, e, []);
  }

  // ---------------------------------------------------------------------
  // Elements whose children are all leaves

  /** Text runs only grow at CDATA children, so without them the text read
      is the element's own. */
  lemma {:induction false} AccTextWithoutCdata(style: CdataStyle, cs: seq<Element>, t: string, open: bool)
    requires forall i :: 0 <= i < |cs| ==> !IsCdata(cs[i])
    ensures AccText(style, cs, t, open) == t
  {
    if cs != [] {
      AccTextWithoutCdata(style, cs[1..], t, false);
    }
  }

  /** A flat list of leaves reads back leaf by leaf, each with its text
      normalised and an empty text as `None`. */
  lemma {:induction false} ReadBackLeaves(style: CdataStyle, cs: seq<Element>)
    requires forall i :: 0 <= i < |cs| ==> !IsCdata(cs[i]) && cs[i].children == []
    ensures |ReadBackKids(style, cs)| == |cs|
    ensures forall i :: 0 <= i < |cs| ==>
              ReadBackKids(style, cs)[i] == Element(cs[i].tag, NonEmpty(Normalize(cs[i].text.GetOr(""))), [])
  {
    if cs != [] {
      ReadBackLeaves(style, cs[1..]);
      var c := cs[0];
      assert ReadBack(style, c) == Element(c.tag, NonEmpty(Normalize(c.text.GetOr(""))), []);
      assert ReadBackKids(style, cs) == [ReadBack(style, c)] + ReadBackKids(style, cs[1..]);
    }
  }

  /** Leaves with valid names and texts of XML characters are safe to write. */
  lemma {:induction false} SafeLeaves(style: CdataStyle, cs: seq<Element>)
    requires forall i :: 0 <= i < |cs| ==>
               !IsCdata(cs[i]) && cs[i].children == [] && ValidName(cs[i].tag) && XmlChars(cs[i].text.GetOr(""))
    ensures SafeAll(style, cs)
  {
    if cs != [] {
      SafeLeaves(style, cs[1..]);
      assert SafeAll(style, cs[0].children);
    }
  }
}
