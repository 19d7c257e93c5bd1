/** `FirmwareVersionDependency`: three integers rendered as one string, each
    left-aligned and filled with '0' on the right to widths 2, 2 and 4
    (`f"{part1:0<2d}.{part2:0<2d}.{part3:0<4d}"`), and the dot-split parser
    `get_fvd_from_string`. */
module FirmwareVersion {
  import opened Wrappers
  import opened Decimal
  import PyText

  /** The object keeps only the rendered string. */
  datatype Fvd = Fvd(value: string)

  /** `str(n)` for any integer: a '-' sign before the digits of `|n|`. */
  function IntText(n: int): string {
    if n < 0 then "-" + Digits(-n) else Digits(n)
  }

  /** The `0<w` format spec: left-align in width `w`, filling with '0' on the
      right; longer text is kept whole. */
  function LeftAlign(s: string, w: nat): (r: string)
    ensures |r| == if |s| < w then w else |s|
    ensures r[..|s|] == s
    ensures forall i :: |s| <= i < |r| ==> r[i] == '0'
  {
    if |s| < w then s + Zeros(w - |s|) else s
  }

  /** The part at `FirmwareVersionDependency.__init__`. */
  function Field(n: int, w: nat): string {
    LeftAlign(IntText(n), w)
  }

  /** `FirmwareVersionDependency(part1, part2, part3)`. */
  function NewFvd(p1: int, p2: int, p3: int): Fvd {
    Fvd(Field(p1, 2) + "." + Field(p2, 2) + "." + Field(p3, 4))
  }

  /** `FirmwareVersionDependency()`: all parts 0. */
  function DefaultFvd(): (f: Fvd)
    ensures f.value == "00.00.0000"
  {
    NewFvd(0, 0, 0)
  }

  /** `s.split(".")`. */
  function Split(s: string): (r: seq<string>)
    ensures |r| >= 1
    ensures forall k :: 0 <= k < |r| ==> '.' !in r[k]
  {
    if s == [] then [""]
    else
      var rest := Split(s[1..]);
      if s[0] == '.' then [""] + rest
      else [[s[0]] + rest[0]] + rest[1..]
  }

  /** The digits of a base-10 literal `int()` accepts: ASCII digits, with
      single underscores allowed between two digits. */
  predicate Grouped(b: string) {
    && b != [] && IsDigit(b[0]) && IsDigit(b[|b| - 1])
    && (forall i :: 0 <= i < |b| ==> IsDigit(b[i]) || b[i] == '_')
    && (forall i :: 0 <= i < |b| ==> !DoubleAt(b, i))
  }

  /** Two underscores in a row start at index `i`. */
  predicate DoubleAt(b: string, i: int) {
    0 <= i < |b| - 1 && b[i] == '_' && b[i + 1] == '_'
  }

  /** The digits of a grouped literal, underscores removed. */
  function Ungrouped(b: string): (r: string)
    requires forall i :: 0 <= i < |b| ==> IsDigit(b[i]) || b[i] == '_'
    ensures AllDigits(r)
    ensures AllDigits(b) ==> r == b
  {
    if b == [] then []
    else
      var rest := Ungrouped(b[1..]);
      if b[0] == '_' then rest else [b[0]] + rest
  }

  /** `int(t)` in base 10: whitespace around the text is dropped, one
      character at a time, and the rest must be a literal. */
  function ParseInt(t: string): (r: Result<int>)
    ensures r.Err? ==> r.error.ValueError?
  {
    if t != [] && PyText.IsSpace(t[0]) then ParseInt(t[1..])
    else if t != [] && PyText.IsSpace(t[|t| - 1]) then ParseInt(t[..|t| - 1])
    else ParseLiteral(t)
  }

  /** An optional sign and ASCII decimal digits with single underscores
      between them. */
  function ParseLiteral(s: string): (r: Result<int>)
    ensures r.Err? ==> r.error.ValueError?
  {
    var body := if s != [] && (s[0] == '-' || s[0] == '+') then s[1..] else s;
    if !Grouped(body) then Err(LibraryValueError)
    else
      var v := DigitsValue(Ungrouped(body)) as int;
      if s[0] == '-' then Ok(-v) else Ok(v)
  }

  /** `int()` reads the text `str.strip` leaves. */
  lemma {:induction false} ParseStripped(t: string)
    ensures ParseInt(t) == ParseLiteral(PyText.Strip(t))
    decreases |t|
  {
    if t != [] && PyText.IsSpace(t[0]) {
      ParseStripped(t[1..]);
    } else if t != [] && PyText.IsSpace(t[|t| - 1]) {
      var u := t[..|t| - 1];
      ParseStripped(u);
      assert PyText.StripLeft(t) == t;
      assert PyText.StripLeft(u) == u;
    } else if t != [] {
      assert PyText.Strip(t) == t;
    }
  }

  /** A string of digits reads as the number it denotes. */
  lemma ParseDigits(t: string)
    requires t != [] && AllDigits(t)
    ensures ParseInt(t) == Ok(DigitsValue(t) as int)
  {
    LiteralDigits(t);
  }

  /** A string of digits is a literal of the number it denotes. */
  lemma LiteralDigits(t: string)
    requires t != [] && AllDigits(t)
    ensures ParseLiteral(t) == Ok(DigitsValue(t) as int)
  {
    DigitsGrouped(t);
  }

  /** A string of digits is grouped, and has no underscores to remove. */
  lemma DigitsGrouped(t: string)
    requires t != [] && AllDigits(t)
    ensures Grouped(t) && Ungrouped(t) == t
  {
  }

  /** '-' and a string of digits read as the negated number. */
  lemma ParseNegative(body: string)
    requires body != [] && AllDigits(body)
    ensures ParseInt("-" + body) == Ok(-(DigitsValue(body) as int))
  {
    LiteralNegative(body);
  }

  /** '-' and a string of digits are a literal of the negated number. */
  lemma LiteralNegative(body: string)
    requires body != [] && AllDigits(body)
    ensures ParseLiteral("-" + body) == Ok(-(DigitsValue(body) as int))
  {
    assert ("-" + body)[1..] == body;
    DigitsGrouped(body);
  }

  /** `int()` ignores surrounding whitespace: a piece reads as its stripped
      text. */
  lemma SurroundingSpaceIgnored(t: string)
    ensures ParseInt(t) == ParseInt(PyText.Strip(t))
  {
    ParseStripped(t);
    ParseStripped(PyText.Strip(t));
    PyText.StripIdempotent(t);
  }

  /** Whitespace around a piece is ignored: " 2" and "2\n" read as 2. */
  lemma SpacedPieces()
    ensures ParseInt(" 2") == Ok(2) && ParseInt("2\n") == Ok(2)
  {
    assert " 2"[1..] == "2";
    assert "2\n"[..1] == "2";
    ParseDigits("2");
    assert DigitsValue("2") == 2 by { assert "2"[..0] == ""; }
  }

  /** A single underscore between digits is dropped: "1_0" reads as 10. */
  lemma UnderscoreGrouping()
    ensures ParseInt("1_0") == Ok(10)
  {
    GroupedPair('1', '0');
  }

  lemma GroupedPair(a: char, b: char)
    requires IsDigit(a) && IsDigit(b)
    ensures ParseInt([a, '_', b]) == Ok(10 * DigitValue(a) + DigitValue(b))
  {
    var t := [a, '_', b];
    assert !DoubleAt(t, 0) && !DoubleAt(t, 1);
    assert t[1..][1..] == [b];
    assert Ungrouped(t) == [a, b];
    assert [a, b][..1] == [a] && [a][..0] == [];
    assert DigitsValue([a]) == DigitValue(a);
    assert DigitsValue([a, b]) == 10 * DigitValue(a) + DigitValue(b);
    assert ParseLiteral(t) == Ok(DigitsValue([a, b]) as int);
  }

  /** Two underscores in a row are not a literal: "1__0" raises. */
  lemma DoubleUnderscoreRaises()
    ensures ParseInt("1__0").Err? && ParseInt("1__0").error.ValueError?
  {
    DoubleUnderscore('1', '0');
  }

  lemma DoubleUnderscore(a: char, b: char)
    requires IsDigit(a) && IsDigit(b)
    ensures ParseInt([a, '_', '_', b]).Err?
  {
    var t := [a, '_', '_', b];
    assert DoubleAt(t, 1);
  }

  /** A leading '+' is accepted: "+7" reads as 7. */
  lemma PlusSign()
    ensures ParseInt("+7") == Ok(7)
  {
    PlusDigit('7');
    assert DigitsValue("7") == 7 by { assert "7"[..0] == ""; }
  }

  lemma PlusDigit(d: char)
    requires IsDigit(d)
    ensures ParseInt(['+', d]) == Ok(DigitsValue([d]) as int)
  {
    var t := ['+', d];
    assert t[1..] == [d];
    DigitsGrouped([d]);
  }

  /** `map(int, pieces)`, forced by the `*` unpacking: the first piece that is
      not an integer raises. */
  function ParseAll(pieces: seq<string>): (r: Result<seq<int>>)
    ensures r.Ok? ==> |r.value| == |pieces|
    ensures r.Ok? ==> forall k {:trigger r.value[k]} :: 0 <= k < |pieces| ==> ParseInt(pieces[k]) == Ok(r.value[k])
  {
    if pieces == [] then Ok([])
    else
      var first :- ParseInt(pieces[0]);
      var rest :- ParseAll(pieces[1..]);
      Ok([first] + rest)
  }

  /** `get_fvd_from_string`: split on '.', convert every piece, then call the
      constructor, whose three parameters default to 0; a fourth piece is
      one positional argument too many. */
  function FromString(s: string): Result<Fvd> {
    var parts :- ParseAll(Split(s));
    if |parts| > 3 then Err(TypeError)
    else
      var ps := parts + [0, 0];
      Ok(NewFvd(ps[0], ps[1], if |parts| == 3 then parts[2] else 0))
  }

  // ---------------------------------------------------------------------
  // Split

  lemma {:induction false} SplitNoDot(a: string)
    requires '.' !in a
    ensures Split(a) == [a]
  {
    if a != [] {
      SplitNoDot(a[1..]);
      assert [a[0]] + a[1..] == a;
    }
  }

  lemma {:induction false} SplitDot(a: string, b: string)
    requires '.' !in a
    ensures Split(a + "." + b) == [a] + Split(b)
  {
    if a == [] {
      assert (a + "." + b)[1..] == b;
    } else {
      assert (a + "." + b)[1..] == a[1..] + "." + b;
      SplitDot(a[1..], b);
      assert [a[0]] + a[1..] == a;
    }
  }

  // ---------------------------------------------------------------------
  // Round trips

  /** Reading back a rendered part gives a number whose rendering is that same
      text: right-filling zeros only multiplies by a power of ten. */
  lemma {:induction false} FieldReparses(n: int, w: nat)
    ensures ParseInt(Field(n, w)).Ok?
    ensures Field(ParseInt(Field(n, w)).value, w) == Field(n, w)
  {
    if n > 0 {
      FieldReparsesPositive(n, w);
    } else if n < 0 {
      FieldReparsesNegative(n, w);
    } else {
      FieldReparsesZero(w);
    }
  }

  lemma {:induction false} FieldReparsesPositive(n: int, w: nat)
    requires n > 0
    ensures ParseInt(Field(n, w)).Ok?
    ensures Field(ParseInt(Field(n, w)).value, w) == Field(n, w)
  {
    var d := Digits(n);
    var k: nat := if |d| < w then w - |d| else 0;
    var t := d + Zeros(k);
    assert Field(n, w) == t;
    PaddedDigits(n, k);
    assert t[0] == d[0];
    ReparseUnsigned(t, w);
  }

  /** A canonical digit string at least `w` long, denoting a positive
      number, reads back as that number, whose part is the same text. */
  lemma ReparseUnsigned(t: string, w: nat)
    requires t != [] && AllDigits(t) && |t| >= w
    requires DigitsValue(t) >= 1 && Digits(DigitsValue(t)) == t
    ensures ParseInt(t) == Ok(DigitsValue(t) as int)
    ensures Field(DigitsValue(t), w) == t
  {
    var v := DigitsValue(t);
    ParseDigits(t);
    assert IntText(v) == t;
    assert LeftAlign(t, w) == t;
  }

  lemma {:induction false} FieldReparsesNegative(n: int, w: nat)
    requires n < 0
    ensures ParseInt(Field(n, w)).Ok?
    ensures Field(ParseInt(Field(n, w)).value, w) == Field(n, w)
  {
    var v := NegativeFieldValue(n, w);
    NegativeFieldOfText(-(v as int), Field(n, w), w);
  }

  /** A negative part renders as '-' and a canonical digit string denoting
      some `v >= 1`; it reads back as `-v`, whose own text is the same. */
  lemma {:induction false} NegativeFieldValue(n: int, w: nat) returns (v: nat)
    requires n < 0
    ensures v >= 1
    ensures ParseInt(Field(n, w)) == Ok(-(v as int))
    ensures IntText(-(v as int)) == Field(n, w)
  {
    var k: nat := if |Digits(-n)| + 1 < w then w - 1 - |Digits(-n)| else 0;
    NegativeFieldShape(n, w, k);
    v := NegativeTextValue(-n, k, Field(n, w));
  }

  lemma {:induction false} NegativeTextValue(m: nat, k: nat, t: string) returns (v: nat)
    requires m >= 1 && t == "-" + (Digits(m) + Zeros(k))
    ensures v >= 1
    ensures ParseInt(t) == Ok(-(v as int))
    ensures IntText(-(v as int)) == t
  {
    var body := Digits(m) + Zeros(k);
    PaddedDigits(m, k);
    v := DigitsValue(body);
    NegativeParse(t, body);
    IntTextNegative(v);
  }

  lemma IntTextNegative(v: nat)
    requires v >= 1
    ensures IntText(-(v as int)) == "-" + Digits(v)
  {
  }

  lemma NegativeFieldShape(n: int, w: nat, k: nat)
    requires n < 0 && k == if |Digits(-n)| + 1 < w then w - 1 - |Digits(-n)| else 0
    ensures Field(n, w) == "-" + (Digits(-n) + Zeros(k))
  {
  }

  lemma NegativeFieldOfText(m: int, t: string, w: nat)
    requires m < 0 && IntText(m) == t && |t| >= w
    ensures Field(m, w) == t
  {
  }

  lemma NegativeParse(t: string, body: string)
    requires t == "-" + body && body != [] && AllDigits(body)
    ensures ParseInt(t) == Ok(-(DigitsValue(body) as int))
  {
    ParseNegative(body);
  }

  lemma FieldReparsesZero(w: nat)
    ensures ParseInt(Field(0, w)) == Ok(0)
  {
    var t := Field(0, w);
    assert forall i :: 0 <= i < |t| ==> t[i] == '0' by {
      forall i | 0 <= i < |t| ensures t[i] == '0' {
        if i == 0 { assert t[..1] == "0"; }
      }
    }
    ZerosValue(t);
    ParseDigits(t);
  }

  /** A rendered part is made of digits and '-' only, so never contains '.'. */
  lemma FieldHasNoDot(n: int, w: nat)
    ensures forall i :: 0 <= i < |Field(n, w)| ==> IsDigit(Field(n, w)[i]) || Field(n, w)[i] == '-'
    ensures '.' !in Field(n, w)
  {
    var t := Field(n, w);
    var d := IntText(n);
    forall i | 0 <= i < |t| ensures IsDigit(t[i]) || t[i] == '-' {
      if i < |d| {
        assert t[i] == d[i];
        if n < 0 && i > 0 {
          assert d[i] == Digits(-n)[i - 1];
        }
      }
    }
  }

  predicate ValueChar(c: char) {
    IsDigit(c) || c == '-' || c == '.'
  }

  /** A constructed value is made of digits, '-' and '.' only. */
  lemma ValueChars(p1: int, p2: int, p3: int)
    ensures var v := NewFvd(p1, p2, p3).value;
            forall i :: 0 <= i < |v| ==> ValueChar(v[i])
  {
    var f1, f2, f3 := Field(p1, 2), Field(p2, 2), Field(p3, 4);
    FieldHasNoDot(p1, 2);
    FieldHasNoDot(p2, 2);
    FieldHasNoDot(p3, 4);
    JoinChars(f1, f2);
    JoinChars(f1 + "." + f2, f3);
  }

  lemma JoinChars(a: string, b: string)
    requires forall i :: 0 <= i < |a| ==> ValueChar(a[i])
    requires forall i :: 0 <= i < |b| ==> ValueChar(b[i])
    ensures forall i :: 0 <= i < |a + "." + b| ==> ValueChar((a + "." + b)[i])
  {
    var v := a + "." + b;
    forall i | 0 <= i < |v| ensures ValueChar(v[i]) {
      if i < |a| { assert v[i] == a[i]; }
      else if i > |a| { assert v[i] == b[i - |a| - 1]; }
    }
  }

  lemma SplitValue(p1: int, p2: int, p3: int)
    ensures Split(NewFvd(p1, p2, p3).value) == [Field(p1, 2), Field(p2, 2), Field(p3, 4)]
  {
    assert NewFvd(p1, p2, p3).value == Field(p1, 2) + "." + (Field(p2, 2) + "." + Field(p3, 4));
    FieldHasNoDot(p1, 2);
    FieldHasNoDot(p2, 2);
    FieldHasNoDot(p3, 4);
    SplitDot(Field(p1, 2), Field(p2, 2) + "." + Field(p3, 4));
    SplitDot(Field(p2, 2), Field(p3, 4));
    SplitNoDot(Field(p3, 4));
  }

  /** `get_fvd_from_string(fvd.value)` rebuilds an object with the same value,
      for every value the constructor produces. */
  lemma {:induction false} FromStringOfValue(p1: int, p2: int, p3: int)
    ensures FromString(NewFvd(p1, p2, p3).value) == Ok(NewFvd(p1, p2, p3))
  {
    var f1, f2, f3 := Field(p1, 2), Field(p2, 2), Field(p3, 4);
    SplitValue(p1, p2, p3);
    FieldReparses(p1, 2);
    FieldReparses(p2, 2);
    FieldReparses(p3, 4);
    var q1, q2, q3 := ParseInt(f1).value, ParseInt(f2).value, ParseInt(f3).value;
    ParseAllThree(f1, f2, f3);
    assert ParseAll(Split(NewFvd(p1, p2, p3).value)) == Ok([q1, q2, q3]);
    assert NewFvd(q1, q2, q3) == NewFvd(p1, p2, p3);
  }

  lemma ParseAllThree(a: string, b: string, c: string)
    requires ParseInt(a).Ok? && ParseInt(b).Ok? && ParseInt(c).Ok?
    ensures ParseAll([a, b, c]) == Ok([ParseInt(a).value, ParseInt(b).value, ParseInt(c).value])
  {
    var x, y, z := ParseInt(a).value, ParseInt(b).value, ParseInt(c).value;
    ParseAllTwo(b, c);
    ParseAllCons(a, [b, c]);
    assert [a] + [b, c] == [a, b, c];
    assert [x] + [y, z] == [x, y, z];
  }

  lemma ParseAllTwo(b: string, c: string)
    requires ParseInt(b).Ok? && ParseInt(c).Ok?
    ensures ParseAll([b, c]) == Ok([ParseInt(b).value, ParseInt(c).value])
  {
    var y, z := ParseInt(b).value, ParseInt(c).value;
    ParseAllOne(c);
    ParseAllCons(b, [c]);
    assert [b] + [c] == [b, c];
    assert [y] + [z] == [y, z];
  }

  lemma ParseAllOne(c: string)
    requires ParseInt(c).Ok?
    ensures ParseAll([c]) == Ok([ParseInt(c).value])
  {
    assert ParseAll([]) == Ok([]);
    ParseAllCons(c, []);
    assert [c] + [] == [c];
    assert [ParseInt(c).value] + [] == [ParseInt(c).value];
  }

  lemma ParseAllCons(a: string, rest: seq<string>)
    requires ParseInt(a).Ok? && ParseAll(rest).Ok?
    ensures ParseAll([a] + rest) == Ok([ParseInt(a).value] + ParseAll(rest).value)
  {
    assert ([a] + rest)[1..] == rest;
  }

  /** The parts themselves do not round-trip: a one-digit part is filled to
      the digit followed by zeros, so 1, 2, 3 render as "10.20.3000" and read
      back as 10, 20, 3000. */
  lemma {:induction false} PartsDoNotRoundTrip(p1: nat, p2: nat, p3: nat)
    requires 1 <= p1 <= 9 && 1 <= p2 <= 9 && 1 <= p3 <= 9
    ensures NewFvd(p1, p2, p3) == NewFvd(10 * p1, 10 * p2, 1000 * p3)
    ensures FromString(NewFvd(p1, p2, p3).value) == Ok(NewFvd(10 * p1, 10 * p2, 1000 * p3))
  {
    OneDigitField(p1);
    OneDigitField(p2);
    OneDigitField(p3);
    FromStringOfValue(10 * p1, 10 * p2, 1000 * p3);
  }

  lemma OneDigitField(p: nat)
    requires 1 <= p <= 9
    ensures Field(p, 2) == Field(10 * p, 2)
    ensures Field(p, 4) == Field(1000 * p, 4)
  {
    var c := DigitChar(p);
    assert Digits(p) == [c];
    assert Digits(10 * p) == [c] + "0";
    assert Digits(100 * p) == [c] + "00" by {
      assert (100 * p) / 10 == 10 * p && (100 * p) % 10 == 0;
    }
    assert Digits(1000 * p) == [c] + "000" by {
      assert (1000 * p) / 10 == 100 * p && (1000 * p) % 10 == 0;
    }
    assert Zeros(1) == "0" && Zeros(3) == "000";
  }

  /** The rendering of 1, 2, 3 and of the default. */
  lemma ValueExamples()
    ensures NewFvd(1, 2, 3).value == "10.20.3000"
    ensures DefaultFvd().value == "00.00.0000"
  {
    SmallFields();
  }

  lemma SmallFields()
    ensures Field(1, 2) == "10" && Field(2, 2) == "20" && Field(3, 4) == "3000"
    ensures Field(10, 2) == "10" && Field(20, 2) == "20" && Field(3000, 4) == "3000"
  {
    assert Digits(1) == "1" && Digits(2) == "2" && Digits(3) == "3" && Digits(0) == "0";
    assert Digits(10) == "10" && Digits(20) == "20";
    assert Digits(30) == "30";
    assert Digits(300) == "300";
    assert Digits(3000) == "3000";
    assert Zeros(1) == "0" && Zeros(3) == "000";
  }

  /** For non-negative parts nothing is truncated: each field starts with all
      the digits of its part and is as long as the larger of its width and the
      digit count; the value holds exactly two '.'. */
  lemma ValueShape(p1: nat, p2: nat, p3: nat)
    ensures var pieces := Split(NewFvd(p1, p2, p3).value);
            && |pieces| == 3
            && |pieces[0]| == Max(2, |Digits(p1)|) && pieces[0][..|Digits(p1)|] == Digits(p1)
            && |pieces[1]| == Max(2, |Digits(p2)|) && pieces[1][..|Digits(p2)|] == Digits(p2)
            && |pieces[2]| == Max(4, |Digits(p3)|) && pieces[2][..|Digits(p3)|] == Digits(p3)
  {
    SplitValue(p1, p2, p3);
  }

  function Max(a: int, b: int): int {
    if a < b then b else a
  }

  /** `map(int, ...)` succeeds exactly when every piece is an integer. */
  lemma {:induction false} ParseAllOkIff(pieces: seq<string>)
    ensures ParseAll(pieces).Ok? <==> forall k :: 0 <= k < |pieces| ==> ParseInt(pieces[k]).Ok?
  {
    if pieces != [] {
      ParseAllOkIff(pieces[1..]);
      if ParseAll(pieces).Ok? {
      } else if ParseInt(pieces[0]).Ok? {
        var k :| 0 <= k < |pieces| - 1 && !ParseInt(pieces[1..][k]).Ok?;
        assert pieces[1..][k] == pieces[k + 1];
      }
    }
  }

  /** `get_fvd_from_string` succeeds exactly when the string has at most three
      dot-separated pieces and every piece is an integer; a fourth piece
      raises `TypeError` once all pieces have been converted. */
  lemma FromStringOkIff(s: string)
    ensures FromString(s).Ok? <==>
              |Split(s)| <= 3 && forall k :: 0 <= k < |Split(s)| ==> ParseInt(Split(s)[k]).Ok?
    ensures |Split(s)| > 3 && ParseAll(Split(s)).Ok? ==> FromString(s) == Err(TypeError)
  {
    ParseAllOkIff(Split(s));
  }

  /** A piece that is not an integer raises `ValueError`. */
  lemma NonIntegerPieceRaises()
    ensures FromString("1.x.3").Err? && FromString("1.x.3").error.ValueError?
  {
    assert "1.x.3" == "1" + "." + "x.3";
    assert "x.3" == "x" + "." + "3";
    SplitDot("1", "x.3");
    SplitDot("x", "3");
    SplitNoDot("3");
    assert Split("1.x.3") == ["1", "x", "3"];
    assert ParseInt("x").Err?;
    assert ["1", "x", "3"][1..] == ["x", "3"];
    assert ParseAll(["x", "3"]).Err?;
  }

  /** The empty string, whose only piece is empty, raises `ValueError`. */
  lemma EmptyStringRaises()
    ensures FromString("").Err? && FromString("").error.ValueError?
  {
    assert Split("") == [""];
    assert ParseInt("").Err?;
  }

  /** Missing trailing pieces leave their parts 0. */
  lemma ShortStringDefaults()
    ensures FromString("7") == Ok(NewFvd(7, 0, 0))
  {
    SplitNoDot("7");
    ParseDigits("7");
    ParseAllOne("7");
  }
}
