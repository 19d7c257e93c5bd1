/** The Python `str` operations the codec relies on: `strip`, `lower`,
    `endswith` and `rfind`. */
module PyText {

  /** Python's `str.isspace` for one character: the Unicode whitespace set. */
  predicate IsSpace(c: char) {
    || c == ' ' || ('\t' <= c <= '\r') || ('\U{1c}' <= c <= '\U{1f}')
    || c == '\U{85}' || c == '\U{a0}' || c == '\U{1680}'
    || ('\U{2000}' <= c <= '\U{200a}') || c == '\U{2028}' || c == '\U{2029}'
    || c == '\U{202f}' || c == '\U{205f}' || c == '\U{3000}'
  }

  predicate AllSpace(s: string) {
    forall i :: 0 <= i < |s| ==> IsSpace(s[i])
  }

  /** `s.lstrip()`: the suffix left after removing leading whitespace. */
  function StripLeft(s: string): (r: string)
    ensures |r| <= |s| && r == s[|s| - |r|..]
    ensures AllSpace(s[..|s| - |r|])
    ensures r != [] ==> !IsSpace(r[0])
  {
    if s != [] && IsSpace(s[0]) then
      var r := StripLeft(s[1..]);
      LeftSpaceGrows(s, |r|);
      r
    else s
  }

  lemma LeftSpaceGrows(s: string, n: nat)
    requires 1 <= |s| && n <= |s| - 1 && IsSpace(s[0]) && AllSpace(s[1..][..|s| - 1 - n])
    ensures AllSpace(s[..|s| - n]) && s[1..][|s| - 1 - n..] == s[|s| - n..]
  {
    forall i | 0 <= i < |s| - n ensures IsSpace(s[i]) {
      if i > 0 { assert s[i] == s[1..][..|s| - 1 - n][i - 1]; }
    }
  }

  /** `s.rstrip()`: the prefix left after removing trailing whitespace. */
  function StripRight(s: string): (r: string)
    ensures |r| <= |s| && r == s[..|r|]
    ensures AllSpace(s[|r|..])
    ensures r != [] ==> !IsSpace(r[|r| - 1])
  {
    if s != [] && IsSpace(s[|s| - 1]) then
      var r := StripRight(s[..|s| - 1]);
      RightSpaceGrows(s, |r|);
      r
    else s
  }

  lemma RightSpaceGrows(s: string, k: nat)
    requires k < |s| && IsSpace(s[|s| - 1]) && AllSpace(s[..|s| - 1][k..])
    ensures AllSpace(s[k..])
  {
    forall i | k <= i < |s| - 1 ensures IsSpace(s[i]) {
      assert s[i] == s[..|s| - 1][k..][i - k];
    }
  }

  /** `s.strip()`. */
  function Strip(s: string): string {
    StripRight(StripLeft(s))
  }

  /** How many leading whitespace characters `strip` removes. */
  function StripOffset(s: string): (k: nat)
    ensures k <= |s|
  {
    |s| - |StripLeft(s)|
  }

  /** `r` is the piece of `s` at offset `k`, with only whitespace around it,
      and it neither starts nor ends with whitespace. */
  predicate TrimmedAt(s: string, k: nat, r: string) {
    && k + |r| <= |s| && r == s[k..k + |r|]
    && AllSpace(s[..k]) && AllSpace(s[k + |r|..])
    && (r != [] ==> !IsSpace(r[0]) && !IsSpace(r[|r| - 1]))
  }

  /** `strip` keeps a contiguous piece of its input, starting after the
      leading whitespace, and cuts only whitespace around it; what is left
      neither starts nor ends with whitespace. Spelled out, the two
      arguments are `StripOffset(s)` and `Strip(s)`. */
  lemma StripShape(s: string)
    ensures TrimmedAt(s, |s| - |StripLeft(s)|, StripRight(StripLeft(s)))
  {
    TrimmedPiece(s, StripLeft(s), StripRight(StripLeft(s)));
  }

  /** A suffix `l` of `s` after whitespace, and a prefix `r` of `l` before
      whitespace, form a piece of `s` with whitespace on both sides. */
  lemma TrimmedPiece(s: string, l: string, r: string)
    requires |l| <= |s| && l == s[|s| - |l|..] && AllSpace(s[..|s| - |l|])
    requires l != [] ==> !IsSpace(l[0])
    requires |r| <= |l| && r == l[..|r|] && AllSpace(l[|r|..])
    requires r != [] ==> !IsSpace(r[|r| - 1])
    ensures TrimmedAt(s, |s| - |l|, r)
  {
    var k := |s| - |l|;
    SliceOfSlice(s, k, |r|);
    if r != [] {
      assert r[0] == l[0];
    }
  }

  lemma SliceOfSlice(s: string, k: nat, n: nat)
    requires k + n <= |s|
    ensures s[k..][..n] == s[k..k + n]
    ensures s[k..][n..] == s[k + n..]
  {
  }

  /** `not s.strip()` holds exactly when every character of `s` is whitespace. */
  lemma StripEmptyIff(s: string)
    ensures Strip(s) == [] <==> AllSpace(s)
  {
    var l := StripLeft(s);
    if Strip(s) == [] {
      assert AllSpace(l);
      assert l == [];
      assert s[..|s|] == s;
    } else {
      StripShape(s);
      var k := |s| - |l|;
      assert s[k] == Strip(s)[0];
    }
  }

  /** `strip` is idempotent. */
  lemma StripIdempotent(s: string)
    ensures Strip(Strip(s)) == Strip(s)
  {
    var r := Strip(s);
    StripShape(s);
    if r != [] {
      assert StripLeft(r) == r;
      assert StripRight(r) == r;
    }
  }

  /** `c.lower()` for ASCII letters; other characters are kept. */
  function LowerChar(c: char): char {
    if 'A' <= c <= 'Z' then (c as int + 32) as char else c
  }

  /** `s.lower()`, restricted to ASCII case mapping. */
  function Lower(s: string): (r: string)
    ensures |r| == |s|
    ensures forall i :: 0 <= i < |s| ==> r[i] == LowerChar(s[i])
  {
    seq(|s|, i requires 0 <= i < |s| => LowerChar(s[i]))
  }

  /** `s.endswith(suffix)`. */
  predicate EndsWith(s: string, suffix: string) {
    |suffix| <= |s| && s[|s| - |suffix|..] == suffix
  }

  /** `sub` occurs in `s` starting at index `j`. */
  predicate OccursAt(s: string, sub: string, j: int) {
    0 <= j <= |s| - |sub| && s[j..j + |sub|] == sub
  }

  /** `s.rfind(sub)`: the highest index at which `sub` occurs in `s`, or -1. */
  function RFind(s: string, sub: string): (r: int)
    ensures r == -1 || OccursAt(s, sub, r)
    ensures forall j :: r < j ==> !OccursAt(s, sub, j)
  {
    RFindFrom(s, sub, |s| - |sub|)
  }

  function RFindFrom(s: string, sub: string, i: int): (r: int)
    requires forall j :: i < j ==> !OccursAt(s, sub, j)
    ensures r == -1 || OccursAt(s, sub, r)
    ensures forall j :: r < j ==> !OccursAt(s, sub, j)
    decreases i + 1
  {
    if i < 0 then -1
    else if OccursAt(s, sub, i) then i
    else RFindFrom(s, sub, i - 1)
  }

  /** When `s` ends with `sub`, `rfind` finds exactly that trailing occurrence. */
  lemma RFindOfSuffix(s: string, sub: string)
    requires EndsWith(s, sub)
    ensures RFind(s, sub) == |s| - |sub|
  {
  }
}
