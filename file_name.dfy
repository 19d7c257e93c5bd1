/** `get_file_name`: the title recovered from a generated file name with
    the pattern `^(?P<file_name>.*?)([_-](\d{14}|[a-zA-Z0-9]{32}))*(([_\-\.]raw)?\.(dsp|py|xml))?$`.
    The lazy group takes the shortest prefix after which the rest of the
    pattern can match; the rest is decided here by a recursive predicate
    that follows the pattern's alternatives. */
module FileName {
  import opened Wrappers
  import opened Decimal

  /** `[_-]`, the separator before a timestamp or an id. */
  predicate GroupSep(c: char) {
    c == '_' || c == '-'
  }

  predicate IsAlnum(c: char) {
    ('a' <= c <= 'z') || ('A' <= c <= 'Z') || ('0' <= c <= '9')
  }

  predicate AllAlnum(s: string) {
    forall i :: 0 <= i < |s| ==> IsAlnum(s[i])
  }

  /** `\.(dsp|py|xml)`. */
  predicate Extension(s: string) {
    s == ".dsp" || s == ".py" || s == ".xml"
  }

  /** `(([_\-\.]raw)?\.(dsp|py|xml))?`: nothing, an extension, or a raw
      marker and an extension. */
  predicate OptExtension(s: string) {
    s == []
    || Extension(s)
    || (|s| >= 4 && (GroupSep(s[0]) || s[0] == '.') && s[1..4] == "raw" && Extension(s[4..]))
  }

  /** `[_-]\d{14}`: a separator and a timestamp. */
  predicate TimestampAt(s: string) {
    |s| >= 15 && GroupSep(s[0]) && AllDigits(s[1..15])
  }

  /** `[_-][a-zA-Z0-9]{32}`: a separator and an id. */
  predicate IdAt(s: string) {
    |s| >= 33 && GroupSep(s[0]) && AllAlnum(s[1..33])
  }

  /** `s` matches `([_-](\d{14}|[a-zA-Z0-9]{32}))*(([_\-\.]raw)?\.(dsp|py|xml))?`
      as a whole. */
  predicate Suffix(s: string)
    decreases |s|
  {
    OptExtension(s)
    || (TimestampAt(s) && Suffix(s[15..]))
    || (IdAt(s) && Suffix(s[33..]))
  }

  /** The rest of the pattern after the lazy group, with `$` matching at
      the end or before a final line break. */
  predicate Tail(s: string) {
    Suffix(s) || (|s| >= 1 && s[|s| - 1] == '\n' && Suffix(s[..|s| - 1]))
  }

  /** `.` in the lazy group does not match a line break. */
  predicate CutAllowed(s: string, k: nat) {
    k <= |s| && '\n' !in s[..k] && Tail(s[k..])
  }

  /** The lazy group tries the lengths `k`, `k + 1`, … in turn, and gives
      up at a line break. */
  function FirstCut(s: string, k: nat): (r: Option<nat>)
    requires k <= |s| + 1
    ensures r.Some? ==> k <= r.value <= |s| && Tail(s[r.value..])
    decreases |s| + 1 - k
  {
    if k > |s| then None
    else if Tail(s[k..]) then Some(k)
    else if s[k] == '\n' then None
    else FirstCut(s, k + 1)
  }

  /** The cut found is allowed and no earlier length is. */
  lemma {:induction false} FirstCutFound(s: string, k: nat)
    requires k <= |s| + 1
    requires '\n' !in s[..if k <= |s| then k else |s|]
    ensures FirstCut(s, k).Some? ==> CutAllowed(s, FirstCut(s, k).value)
    ensures FirstCut(s, k).Some? ==> forall j :: k <= j < FirstCut(s, k).value ==> !Tail(s[j..])
    decreases |s| + 1 - k
  {
    if k <= |s| && !Tail(s[k..]) && s[k] != '\n' {
      assert s[..k + 1] == s[..k] + [s[k]];
      FirstCutFound(s, k + 1);
    }
  }

  /** When no cut is found, no length up to the first line break is
      allowed. */
  lemma {:induction false} FirstCutNone(s: string, k: nat)
    requires k <= |s| + 1
    ensures FirstCut(s, k).None? ==> forall j :: k <= j <= |s| && '\n' !in s[..j] ==> !Tail(s[j..])
    decreases |s| + 1 - k
  {
    if k <= |s| && !Tail(s[k..]) {
      if s[k] == '\n' {
        BreakBlocksLonger(s, k);
      } else {
        FirstCutNone(s, k + 1);
      }
    }
  }

  /** A line break at `k` is in every prefix longer than `k`. */
  lemma BreakBlocksLonger(s: string, k: nat)
    requires k < |s| && s[k] == '\n'
    ensures forall j :: k < j <= |s| ==> '\n' in s[..j]
  {
    forall j | k < j <= |s| ensures '\n' in s[..j] {
      assert s[..j][k] == '\n';
    }
  }

  /** `FILE_NAME_COMPILE.match(name).group("file_name")`. When the pattern
      does not match, `match` returns `None` and `.group` raises. */
  function GetFileName(s: string): (r: Result<string>)
    ensures r.Ok? ==> |r.value| <= |s| && r.value == s[..|r.value|] && CutAllowed(s, |r.value|)
    ensures r.Ok? ==> forall j :: 0 <= j < |r.value| ==> !Tail(s[j..])
    ensures r.Err? ==> r.error == AttributeError && forall j :: 0 <= j <= |s| ==> !CutAllowed(s, j)
  {
    assert s[..0] == [];
    FirstCutFound(s, 0);
    FirstCutNone(s, 0);
    match FirstCut(s, 0)
    case Some(k) => Ok(s[..k])
    case None => Err(AttributeError)
  }

  // ---------------------------------------------------------------------
  // Properties

  /** The result is the shortest allowed prefix: any prefix the pattern
      could have chosen is at least as long. */
  lemma Shortest(s: string, k: nat)
    requires CutAllowed(s, k)
    ensures GetFileName(s).Ok? && |GetFileName(s).value| <= k
  {
  }

  /** A name without line breaks always matches: at worst the whole name is
      the title. */
  lemma AlwaysMatches(s: string)
    requires '\n' !in s
    ensures GetFileName(s).Ok?
  {
    assert s[..|s|] == s && s[|s|..] == [];
    Shortest(s, |s|);
  }

  /** A line break before the last character makes the match fail. */
  lemma InnerLineBreakFails(s: string, i: nat)
    requires i < |s| - 1 && s[i] == '\n' && '\n' !in s[..i]
    requires forall j :: 0 <= j <= i ==> !Tail(s[j..])
    ensures GetFileName(s) == Err(AttributeError)
  {
    forall j | i < j <= |s| ensures '\n' in s[..j] {
      assert s[..j][i] == '\n';
    }
  }

  /** A suffix the pattern accepts is never empty-headed text: it starts
      with a separator, a dot, or is the final line break. */
  lemma SuffixStart(s: string)
    requires Suffix(s) && s != []
    ensures GroupSep(s[0]) || s[0] == '.'
  {
  }

  lemma TailStart(s: string)
    requires Tail(s) && s != []
    ensures GroupSep(s[0]) || s[0] == '.' || s == "\n"
  {
    if !Suffix(s) && |s| > 1 {
      SuffixStart(s[..|s| - 1]);
    }
  }

  /** Appending timestamp or id groups to a suffix keeps it one. */
  lemma PrependTimestamp(stamp: string, s: string)
    requires |stamp| == 14 && AllDigits(stamp) && Suffix(s)
    ensures Suffix("_" + stamp + s)
  {
    var t := "_" + stamp + s;
    assert t[1..15] == stamp && t[15..] == s;
  }

  lemma PrependId(id: string, s: string)
    requires |id| == 32 && AllAlnum(id) && Suffix(s)
    ensures Suffix("_" + id + s)
  {
    var t := "_" + id + s;
    assert t[1..33] == id && t[33..] == s;
  }

  /** Saving under `f"{title}_{guid}.dsp"` and loading recovers the title,
      when the title has no line break, does not itself end in something
      the pattern strips, and the guid is 32 alphanumerics. */
  lemma SavedNameGivesTitle(title: string, guid: string)
    requires '\n' !in title && |guid| == 32 && AllAlnum(guid)
    requires forall j :: 0 <= j < |title| ==> !Tail(title[j..] + "_" + guid + ".dsp")
    ensures GetFileName(title + "_" + guid + ".dsp") == Ok(title)
  {
    var rest := "_" + guid + ".dsp";
    IdTail(guid, ".dsp");
    forall j | 0 <= j < |title| ensures !Tail(title[j..] + rest) {
      assert title[j..] + rest == title[j..] + "_" + guid + ".dsp";
    }
    KeptTitle(title, rest);
    assert title + rest == title + "_" + guid + ".dsp";
  }

  /** A title without line breaks, followed by a rest the pattern accepts,
      comes back when no later start of the title is accepted. */
  lemma KeptTitle(title: string, rest: string)
    requires '\n' !in title && Tail(rest)
    requires forall j :: 0 <= j < |title| ==> !Tail(title[j..] + rest)
    ensures GetFileName(title + rest) == Ok(title)
  {
    var s := title + rest;
    assert s[..|title|] == title && s[|title|..] == rest;
    forall j | 0 <= j < |title| ensures !Tail(s[j..]) {
      assert s[j..] == title[j..] + rest;
    }
    Shortest(s, |title|);
  }

  /** `_` followed by an id and an optional extension is accepted. */
  lemma IdTail(id: string, ext: string)
    requires |id| == 32 && AllAlnum(id) && OptExtension(ext)
    ensures Tail("_" + id + ext)
  {
    assert Suffix(ext);
    PrependId(id, ext);
  }

  /** `_` followed by a timestamp and an optional extension is accepted. */
  lemma StampTail(stamp: string, ext: string)
    requires |stamp| == 14 && AllDigits(stamp) && OptExtension(ext)
    ensures Tail("_" + stamp + ext)
  {
    assert Suffix(ext);
    PrependTimestamp(stamp, ext);
  }

  /** A name made only of letters and digits before the generated part
      gives back exactly that part: no shorter cut is possible because an
      accepted rest starts with a separator or a dot. */
  lemma AlnumTitle(title: string, rest: string)
    requires AllAlnum(title) && Tail(rest)
    ensures GetFileName(title + rest) == Ok(title)
  {
    var s := title + rest;
    assert s[..|title|] == title && s[|title|..] == rest;
    forall j | 0 <= j < |title| ensures !Tail(s[j..]) {
      assert s[j..][0] == title[j];
      if Tail(s[j..]) { TailStart(s[j..]); }
    }
    forall i | 0 <= i < |title| ensures title[i] != '\n' {
      assert IsAlnum(title[i]);
    }
    Shortest(s, |title|);
  }

  /** Examples: "MyProject_20240115103000.dsp" gives "MyProject", and
      "proj_20240101120000_raw.xml" gives "proj". */
  lemma TimestampExample(title: string, stamp: string)
    requires title == "MyProject" && stamp == "20240115103000"
    ensures GetFileName(title + "_" + stamp + ".dsp") == Ok(title)
  {
    StampExample(title, stamp, ".dsp");
  }

  lemma RawExample(title: string, stamp: string)
    requires title == "proj" && stamp == "20240101120000"
    ensures GetFileName(title + "_" + stamp + "_raw.xml") == Ok(title)
  {
    StampExample(title, stamp, "_raw.xml");
  }

  /** A 32-character id and an optional extension are stripped. */
  lemma IdStripped(title: string, id: string, ext: string)
    requires AllAlnum(title) && |id| == 32 && AllAlnum(id) && OptExtension(ext)
    ensures GetFileName(title + "_" + id + ext) == Ok(title)
  {
    IdTail(id, ext);
    AlnumTitle(title, "_" + id + ext);
    assert title + ("_" + id + ext) == title + "_" + id + ext;
  }

  lemma StampExample(title: string, stamp: string, ext: string)
    requires AllAlnum(title) && |stamp| == 14 && AllDigits(stamp) && OptExtension(ext)
    ensures GetFileName(title + "_" + stamp + ext) == Ok(title)
  {
    StampTail(stamp, ext);
    AlnumTitle(title, "_" + stamp + ext);
    assert title + ("_" + stamp + ext) == title + "_" + stamp + ext;
  }

  /** An underscore that starts no timestamp, id or raw marker stays in the
      title, and a bare extension is stripped. */
  lemma PlainNameExample(s: string)
    requires s == "plain_name.py"
    ensures GetFileName(s) == Ok("plain_name")
  {
    assert Tail(s[10..]) by { assert s[10..] == ".py"; }
    assert s[..10] == "plain_name" && '\n' !in s[..10];
    forall j | 0 <= j < 10 ensures !Tail(s[j..]) {
      if j == 5 {
        assert s[5..] == "_name.py";
        assert !Suffix(s[5..]);
      } else if Tail(s[j..]) {
        TailStart(s[j..]);
      }
    }
    Shortest(s, 10);
  }

  /** A name without dots or line breaks in which no separator starts a
      timestamp or an id comes back whole. */
  lemma NoGroupsKept(s: string)
    requires '\n' !in s && '.' !in s
    requires forall i :: 0 <= i < |s| ==> !TimestampAt(s[i..]) && !IdAt(s[i..])
    ensures GetFileName(s) == Ok(s)
  {
    assert s[..|s|] == s && s[|s|..] == [];
    forall j | 0 <= j < |s| ensures !Tail(s[j..]) {
      var t := s[j..];
      assert t[|t| - 1] == s[|s| - 1];
      ExtensionHasDot(t);
      assert '.' !in t;
    }
    Shortest(s, |s|);
  }

  /** Every extension the pattern strips contains a dot. */
  lemma ExtensionHasDot(t: string)
    ensures t != [] && OptExtension(t) ==> '.' in t
  {
    if t != [] && OptExtension(t) && !Extension(t) {
      assert t[4..][0] == t[4];
    }
  }

  /** "no_match_here" comes back whole. */
  lemma NoMatchExample(s: string)
    requires s == "no_match_here"
    ensures GetFileName(s) == Ok(s)
  {
    forall i | 0 <= i < |s| ensures !TimestampAt(s[i..]) && !IdAt(s[i..]) {
      assert |s[i..]| < 15;
    }
    NoGroupsKept(s);
  }
}
