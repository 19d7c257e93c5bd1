/** The older copy's `code` part. Its `Code` class, `get_xml_element` and
    `get_code_from_xml_element` are the same as the current ones
    (`DspCode.Code`, `DspCode.ToXml`, `DspCode.FromXml`); only its CDATA hook
    differs, writing one `[` more after the section opener. */
module LegacyCode {
  import opened Wrappers
  import opened Xml
  import opened XmlReader
  import opened XmlRoundTrip
  import opened DspCode
  import PyText

  /** The older hook's section holds the text with a `[` in front. */
  lemma LegacyCdataText(o: Option<string>)
    ensures CdataText(Legacy, o) == "<![CDATA[[" + PyStr(o) + "]]>"
    ensures CdataText(Legacy, o) == SectionOpen + ("[" + PyStr(o)) + CdataClose
  {
  }

  lemma BracketTerminatorIff(t: string)
    ensures Contains("[" + t, CdataClose) <==> Contains(t, CdataClose)
  {
    var b := "[" + t;
    if Contains(b, CdataClose) {
      var j :| 0 <= j <= |b| && PyText.OccursAt(b, CdataClose, j);
      assert b[j..j + 3][0] == b[j];
      assert b[j..j + 3] == t[j - 1..j + 2];
      assert PyText.OccursAt(t, CdataClose, j - 1);
    }
    if Contains(t, CdataClose) {
      var j :| 0 <= j <= |t| && PyText.OccursAt(t, CdataClose, j);
      assert b[j + 1..j + 4] == t[j..j + 3];
      assert PyText.OccursAt(b, CdataClose, j + 1);
    }
  }

  lemma BracketCharsIff(t: string)
    ensures XmlChars("[" + t) <==> XmlChars(t)
  {
    var b := "[" + t;
    if XmlChars(t) {
      forall i | 0 <= i < |b| ensures XmlChar(b[i]) {
        if i > 0 { assert b[i] == t[i - 1]; }
      }
    }
    if XmlChars(b) {
      forall i | 0 <= i < |t| ensures XmlChar(t[i]) {
        assert t[i] == b[i + 1];
      }
    }
  }

  /** The older hook can write a text exactly when the current one can. */
  lemma LegacySafeIff(o: Option<string>)
    ensures CdataSafe(Legacy, o) <==> CdataSafe(Current, o)
  {
    BracketTerminatorIff(PyStr(o));
    BracketCharsIff(PyStr(o));
  }

  /** With the older hook every field comes back with a `[` in front: a
      plain text `t` is read back as "[" + t, never as `t`. */
  lemma StoredLegacy(t: string)
    requires PlainText(t)
    ensures CdataSafe(Legacy, Some(t))
    ensures Stored(Legacy, Some(t)) == Some("[" + t)
    ensures Stored(Legacy, Some(t)) != Some(t)
  {
    LegacySafeIff(Some(t));
    var b := "[" + t;
    assert '\r' !in b by { assert forall i :: 1 <= i < |b| ==> b[i] == t[i - 1]; }
  }

  /** Writing the code of a document with the older hook and reading it
      back with `get_code_from_xml_element` puts a `[` in front of both
      fields. */
  lemma LegacyRoundTripAddsBracket(python: string, scratch: string)
    requires PlainText(python) && PlainText(scratch)
    ensures var c := Code(Some(python), Some(scratch));
            ParseDocument(Serialize(Legacy, ToXml(c))).Ok?
            && FromXml(ParseDocument(Serialize(Legacy, ToXml(c))).value)
               == Ok(Code(Some("[" + python), Some("[" + scratch)))
  {
    StoredLegacy(python);
    StoredLegacy(scratch);
    DocumentRoundTrip(Legacy, Code(Some(python), Some(scratch)));
  }
}
