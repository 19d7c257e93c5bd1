# DSP codec model

This project models the DSP codec of a RoboMaster programming tool, a Python
package. The codec reads and writes `.dsp` project files, the format the
RoboMaster app uses for Python and Scratch programs.

## The format

A document is an XML tree with a `dji` root that holds two parts.

- The `attribute` part has ten fields, written in a fixed order:
  - creation date, written as `%Y/%m/%d`
  - signature
  - modification time, written as `%m/%d/%Y %I:%M:%S %p`
  - guid
  - creator
  - firmware version
  - title
  - code type
  - minimum and maximum app version
- The `code` part holds the Python program and the Scratch description. Each
  is written inside a CDATA section by a hand-written CDATA writer.

To produce the file, the codec encodes the tree's text as UTF-8, pads it with
PKCS#7 (section 6.3 of RFC 5652), encrypts it with AES-128 in CBC mode under a
fixed key and IV, and base64-encodes the result. Before saving, a document is
signed: the signature is characters 7 to 22 of the MD5 hex digest of a fixed
concatenation of fields. When a file is loaded, its title is recovered from
the file name.

## Two packages

The code exists twice, and both copies are modelled as written.

- **Current package** (`src/dspy_tool/dsp_codec`):
  - file.py
  - internal/attribute.py
  - internal/code.py
- **Older package** (`src/dji_dsp_tools/dsp_codec`):
  - file.py
  - internal/code.py
  - internal/dji.py
  - internal/fvd.py
  - internal/code_type.py

The current package's `fvd`, `code_type` and `dji` modules are not part of
this model. The older package's copies stand in for them. The older
package's `attribute` module is not part of this model either; the current
one stands in for it. The current `attribute.py` calls
`FirmwareVersionDependency.from_string`, and the model reads that call as
the older module's `get_fvd_from_string`.

## Modules

| module | models |
|---|---|
| `Wrappers` | `Option` and `Result`, and the Python exceptions the codec raises (`ValueError`, `IndexError`, `AttributeError`, `TypeError`, and a parse error) |
| `PyText` | `str.strip` (Python's whitespace set), `str.lower` (ASCII letters), `endswith` and `rfind` |
| `Decimal` | decimal digit strings: `int()` and `str()` on them |
| `Pkcs7` | `_pkcs7_pad` / `_pkcs7_unpad`; the older `pkcs7_pad` / `pkcs7_unpad` are the same code |
| `Transport` | `encode_dsp` / `decode_dsp`; the cipher, base64, UTF-8 and MD5 are functions passed in as an `Externals` value |
| `CodeTypes` | the `CodeType` enum |
| `Calendar` | the `strftime` / `strptime` layouts of the two date fields |
| `FirmwareVersion` | `FirmwareVersionDependency` and `get_fvd_from_string` |
| `Xml` | the ElementTree subset the codec uses: `find`, `findtext`, and the writer with either package's CDATA hook |
| `XmlReader` | an `ET.fromstring` for the documents the writer produces |
| `XmlRoundTrip` | what reading a written tree gives back |
| `DspAttribute` | `Attribute`: `get_xml_element` and `from_xml_element` |
| `DspCode`, `LegacyCode` | the `code` part in the current package and in the older one |
| `DjiDocument`, `LegacyDocument` | `Dji` in the current package and the older package's `from_xml_element` |
| `Signature` | `calc_signature` |
| `FileName` | `FILE_NAME_COMPILE` and `get_file_name` |
| `DspFiles`, `LegacyDspFiles` | the two `DspFile` classes, as Dafny classes whose methods update `dji` |

## How the library calls were read

The model settles what these library calls and source lines do:

- **The XML reader** rebuilds a written tree. CDATA sections and character
  data become the element's text, and line ends are normalised as section
  2.11 of XML 1.0 says. An empty text reads as `None`. The round trip is
  proved for trees whose texts are XML characters and whose CDATA sections
  contain no `]]>`.
- **The file-name pattern** (`file.py`, lines 26-28, applied at line 57):
  - it strips any number of trailing timestamp-or-id groups;
  - each group needs a `_` or `-` separator before it;
  - `.group` raises `AttributeError` when a line break before the last
    character stops the lazy group.
- **`int()`** on a firmware-version piece strips surrounding whitespace,
  takes an optional sign, and reads ASCII digits with single underscores
  between them.
- **`strptime(s, "%Y/%m/%d")`** reads a four-digit year, a month of one or
  two digits, and a day of one or two digits or a space and one digit.
- **The older `new_with_python_code`** replaces a non-empty `file_name` with
  the stripped title. That title is always empty there, so a new document's
  name is always "".

## Model

| member | source | states |
|---|---|---|
| Pkcs7.Pad | src/dspy_tool/dsp_codec/file.py:60-70 | the padded buffer is a whole number of 16-byte blocks, 1 to 16 bytes longer than the input, and starts with the input; every added byte equals the number of bytes added; a block-aligned input gains a full block (the older `pkcs7_pad` at src/dji_dsp_tools/dsp_codec/file.py:42-52 is the same code) |
| Pkcs7.PyTail | src/dspy_tool/dsp_codec/file.py:86 | Python's `data[-n:]`: the whole buffer for `n == 0` or `n` beyond its length, otherwise the last `n` bytes |
| Pkcs7.UnpadAcceptsExactlyWellPadded | src/dspy_tool/dsp_codec/file.py:73-88 | unpadding succeeds exactly on buffers whose last byte `p` is 1 to 16, at most the length, and repeated in the last `p` bytes; it then drops exactly `p` bytes; an empty buffer raises `IndexError` and every other bad buffer raises `ValueError`, including `p == 0` and `p` longer than the buffer (the older `pkcs7_unpad` at src/dji_dsp_tools/dsp_codec/file.py:55-70 is the same code) |
| Pkcs7.PadIsWellPadded | src/dspy_tool/dsp_codec/file.py:60-70 | padding always gives a buffer unpadding accepts, whose pad byte is the number of bytes added |
| Pkcs7.UnpadPad | src/dspy_tool/dsp_codec/file.py:60-88 | unpad(pad(x)) == x for every byte string, empty and block-aligned ones included |
| Transport.KeyAndIvLengths | src/dspy_tool/dsp_codec/file.py:22-23 | the key is 16 bytes (AES-128) and the IV is one AES block |
| Transport.DecodeDsp | src/dspy_tool/dsp_codec/file.py:91-105 | a base64 error is passed on, and so is a decryption error; once base64 decoding and decryption both succeed, the result is the unpadding of the decrypted bytes |
| Transport.DecodeEncode | src/dspy_tool/dsp_codec/file.py:91-124 | decode_dsp(encode_dsp(b)) == b for every byte string, given that decryption undoes encryption of whole blocks and base64 decoding undoes encoding |
| Transport.BadPaddingRefused | src/dspy_tool/dsp_codec/file.py:100-103 | a payload whose decrypted bytes are not well padded is refused |
| Transport.DecodeEncodeText | src/dspy_tool/dsp_codec/file.py:207-208 | the text `get_dsp_data` encodes is the text `load` decodes, given that UTF-8 decoding undoes encoding |
| CodeTypes.FromTag | src/dji_dsp_tools/dsp_codec/internal/code_type.py:6-9 | `CodeType(s)` succeeds exactly for "python" and "scratch" and returns the member with that tag; any other string raises `ValueError` |
| CodeTypes.TagBijection | src/dji_dsp_tools/dsp_codec/internal/code_type.py:8-9 | reading a member's tag gives the member back, and distinct members have distinct tags |
| CodeTypes.NamesDifferFromTags | src/dji_dsp_tools/dsp_codec/internal/code_type.py:8-9 | the lower-cased member name the signature uses is never a wire tag, and it cannot be read as a member |
| Calendar.FixedWidth | src/dspy_tool/dsp_codec/internal/attribute.py:37 | `%m`, `%d` and `%Y` write exactly the given number of decimal digits |
| Calendar.FormatDateFields | src/dspy_tool/dsp_codec/internal/attribute.py:37 | the creation date is 10 characters: a 4-digit year, '/', a 2-digit month, '/', a 2-digit day |
| Calendar.FormatModifyTimeFields | src/dspy_tool/dsp_codec/internal/attribute.py:39 | the modification time is month, day and year separated by '/', a space, the 12-hour hour, minute and second separated by ':', a space, and AM or PM |
| Calendar.ClockRoundTrip | src/dspy_tool/dsp_codec/internal/attribute.py:39 | `%I %p` writes hour 0 as 12 AM, hours 1 to 11 as AM, 12 as 12 PM and 13 to 23 as the hour minus 12 PM; every hour-and-marker pair that can be read denotes an hour that is written back as the same pair |
| Calendar.ParseFormatDate | src/dspy_tool/dsp_codec/internal/attribute.py:37-65 | reading back a written creation date gives the same day at midnight |
| Calendar.FormatParseDate | src/dspy_tool/dsp_codec/internal/attribute.py:65 | any creation-date text the reader accepts is written back as a text that reads as the same date; the written text equals the read one exactly when the month and day were two digits each |
| Calendar.PaddedDateRewritten | src/dspy_tool/dsp_codec/internal/attribute.py:37-65 | a ten-character date text without a space that the reader accepts is written back as itself |
| Calendar.UnpaddedDates | src/dspy_tool/dsp_codec/internal/attribute.py:65 | "2024/01/05", "2024/1/5" and "2024/01/ 5" all read as 5 January 2024 |
| Calendar.UnpaddedWrittenPadded | src/dspy_tool/dsp_codec/internal/attribute.py:37 | 5 January 2024 is written "2024/01/05" |
| Calendar.DayOverflowRaises | src/dspy_tool/dsp_codec/internal/attribute.py:65 | "2024/01/32" raises `ValueError`: the day reads as 3 and the "2" left over is unconverted data |
| Calendar.ParseFormatModifyTime | src/dspy_tool/dsp_codec/internal/attribute.py:39-68 | reading back a written modification time gives the same moment without its microseconds |
| Calendar.FormatParseModifyTime | src/dspy_tool/dsp_codec/internal/attribute.py:68 | any modification-time text the reader accepts is written back unchanged, except that the AM/PM marker comes out in upper case |
| FirmwareVersion.LeftAlign | src/dji_dsp_tools/dsp_codec/internal/fvd.py:10 | the `0<w` format keeps the text whole, and fills it with '0' on the right up to width `w` |
| FirmwareVersion.DefaultFvd | src/dji_dsp_tools/dsp_codec/internal/fvd.py:4-10 | the default version is "00.00.0000" |
| FirmwareVersion.ValueExamples | src/dji_dsp_tools/dsp_codec/internal/fvd.py:10 | parts 1, 2 and 3 are written as "10.20.3000" |
| FirmwareVersion.ValueShape | src/dji_dsp_tools/dsp_codec/internal/fvd.py:10 | for non-negative parts the value splits into exactly three pieces; each piece starts with all the digits of its part and is as long as the larger of its width and the part's digit count |
| FirmwareVersion.Split | src/dji_dsp_tools/dsp_codec/internal/fvd.py:15 | `split(".")` gives at least one piece, and no piece contains '.' |
| FirmwareVersion.ParseAllOkIff | src/dji_dsp_tools/dsp_codec/internal/fvd.py:15 | `map(int, pieces)` succeeds exactly when every piece is a base-10 literal `int()` reads: optional whitespace around an optional sign and digits with single underscores between them |
| FirmwareVersion.FromStringOkIff | src/dji_dsp_tools/dsp_codec/internal/fvd.py:13-15 | `get_fvd_from_string` succeeds exactly when there are at most three pieces and `int()` reads each; a fourth readable piece raises `TypeError` |
| FirmwareVersion.NonIntegerPieceRaises | src/dji_dsp_tools/dsp_codec/internal/fvd.py:15 | a non-integer piece ("1.x.3") raises `ValueError` |
| FirmwareVersion.EmptyStringRaises | src/dji_dsp_tools/dsp_codec/internal/fvd.py:15 | the empty string, whose only piece is empty, raises `ValueError` |
| FirmwareVersion.ParseDigits | src/dji_dsp_tools/dsp_codec/internal/fvd.py:15 | `int()` reads a string of digits as the number it denotes |
| FirmwareVersion.ParseNegative | src/dji_dsp_tools/dsp_codec/internal/fvd.py:15 | `int()` reads '-' and a string of digits as the negated number |
| FirmwareVersion.ParseStripped | src/dji_dsp_tools/dsp_codec/internal/fvd.py:15 | `int()` reads exactly the text `str.strip` leaves: whitespace dropped one character at a time from either end gives the same result as stripping first |
| FirmwareVersion.SurroundingSpaceIgnored | src/dji_dsp_tools/dsp_codec/internal/fvd.py:15 | `int()` reads a piece as it reads the piece's stripped text |
| FirmwareVersion.SpacedPieces | src/dji_dsp_tools/dsp_codec/internal/fvd.py:15 | " 2" and "2\n" read as 2 |
| FirmwareVersion.UnderscoreGrouping | src/dji_dsp_tools/dsp_codec/internal/fvd.py:15 | "1_0" reads as 10 |
| FirmwareVersion.DoubleUnderscoreRaises | src/dji_dsp_tools/dsp_codec/internal/fvd.py:15 | "1__0" raises `ValueError` |
| FirmwareVersion.PlusSign | src/dji_dsp_tools/dsp_codec/internal/fvd.py:15 | "+7" reads as 7 |
| FirmwareVersion.ShortStringDefaults | src/dji_dsp_tools/dsp_codec/internal/fvd.py:4-15 | "7" reads as parts 7, 0 and 0: a missing trailing piece leaves its part at 0 |
| FirmwareVersion.FieldReparses | src/dji_dsp_tools/dsp_codec/internal/fvd.py:10-15 | a written part reads back as a number whose written part is the same text, for every integer |
| FirmwareVersion.FromStringOfValue | src/dji_dsp_tools/dsp_codec/internal/fvd.py:10-15 | parse(format(v)) rebuilds the same value, for every value the constructor produces |
| FirmwareVersion.PartsDoNotRoundTrip | src/dji_dsp_tools/dsp_codec/internal/fvd.py:10-15 | the parts do not come back: parts 1 to 9 are written as the part followed by zeros, and read back as 10, 10 and 1000 times the part |
| Xml.Cdata | src/dspy_tool/dsp_codec/internal/code.py:15-18 | `CDATA(text)` is a marker element with the CDATA tag, the given text and no children |
| Xml.Find | src/dspy_tool/dsp_codec/internal/code.py:54-55 | `find` returns a child with the tag, and returns nothing exactly when no child has it |
| Xml.FindFirst | src/dji_dsp_tools/dsp_codec/internal/dji.py:32-33 | `find` returns the first child with the tag, whatever follows it |
| Xml.FindText | src/dspy_tool/dsp_codec/internal/attribute.py:65-79 | `findtext` is `None` exactly when there is no such child, and otherwise that child's text, with no text read as "" |
| Xml.Escape | src/dspy_tool/dsp_codec/internal/code.py:28-29 | the writer's escaped text contains no '<' or '>', and a text without '&', '<' or '>' is written unchanged |
| Xml.DelegatesUnchanged | src/dspy_tool/dsp_codec/internal/code.py:28-29 | a tree without CDATA markers is written the same by either package's hook: the hook passes every other element on unchanged |
| Xml.EmptyElementLongForm | src/dji_dsp_tools/dsp_codec/internal/dji.py:26 | with `short_empty_elements=False` an empty element is written `<t></t>`, never `<t />` |
| XmlRoundTrip.CdataTextShape | src/dspy_tool/dsp_codec/internal/code.py:25-27 | the hook writes a CDATA marker as the section opener, the text verbatim ("None" for `None`), and "]]>" |
| XmlRoundTrip.SectionReadsBackIff | src/dspy_tool/dsp_codec/internal/code.py:26 | a written CDATA section reads back as one section with the written text exactly when that text does not contain "]]>" |
| XmlRoundTrip.ReadWritten | src/dji_dsp_tools/dsp_codec/internal/dji.py:24-39 | `fromstring(tostring(e))` rebuilds the tree for every tree whose tags are names, whose texts are XML characters and whose CDATA texts contain no "]]>": CDATA is merged into text, empty texts come back as `None`, and line ends are normalised |
| DspCode.NewCode | src/dspy_tool/dsp_codec/internal/code.py:37-41 | both fields default to "" |
| DspCode.BuildXml | src/dspy_tool/dsp_codec/internal/code.py:43-48 | `get_xml_element` builds `code` with a `python_code` and a `scratch_description` child, in that order, each holding exactly one CDATA child with the field's text |
| DspCode.FromXml | src/dspy_tool/dsp_codec/internal/code.py:51-56 | reading fails with `AttributeError` exactly when either child is missing; otherwise the fields are the two children's texts |
| DspCode.TreeLevelReadIsEmpty | src/dspy_tool/dsp_codec/internal/code.py:43-56 | read straight off the built tree, both fields are `None`, because their text sits in CDATA children |
| DspCode.CodeSafeIff | src/dspy_tool/dsp_codec/internal/code.py:43-48 | the written `code` element can be read back exactly when both fields can be written as CDATA sections |
| DspCode.DocumentRoundTrip | src/dspy_tool/dsp_codec/internal/code.py:24-56 | writing the `code` element and reading it back gives each field as its CDATA section reads |
| DspCode.StoredCurrent | src/dspy_tool/dsp_codec/internal/code.py:26 | with the current hook a plain text comes back unchanged, except that "" comes back as `None` |
| DspCode.CurrentRoundTrip | src/dspy_tool/dsp_codec/internal/code.py:24-56 | with the current hook, non-empty plain texts come back exactly |
| DspCode.TerminatorBreaksSection | src/dspy_tool/dsp_codec/internal/code.py:26 | a text containing "]]>" is written unguarded, and the section the reader sees ends early |
| LegacyCode.LegacyCdataText | src/dji_dsp_tools/dsp_codec/internal/code.py:19 | the older hook writes "<![CDATA[[" + text + "]]>", one '[' more than the current one |
| LegacyCode.LegacySafeIff | src/dji_dsp_tools/dsp_codec/internal/code.py:17-22 | the older hook can write exactly the texts the current one can |
| LegacyCode.StoredLegacy | src/dji_dsp_tools/dsp_codec/internal/code.py:19 | with the older hook a plain text `t` reads back as "[" + t, never as `t` |
| LegacyCode.LegacyRoundTripAddsBracket | src/dji_dsp_tools/dsp_codec/internal/code.py:17-49 | writing and reading a `code` element with the older hook puts a '[' in front of both fields |
| DspAttribute.NewAttribute | src/dspy_tool/dsp_codec/internal/attribute.py:12-32 | the constructor's defaults: "Anonymous", version "00.00.0000", "Untitled", Python code, and empty app versions |
| DspAttribute.BuildXml | src/dspy_tool/dsp_codec/internal/attribute.py:34-47 | `get_xml_element` builds an `attribute` element with exactly ten children, in the fixed field order, each holding its field's text |
| DspAttribute.ChildOrder | src/dspy_tool/dsp_codec/internal/attribute.py:36-46 | the ten children carry the ten field tags in order, each tag once |
| DspAttribute.FindTexts | src/dspy_tool/dsp_codec/internal/attribute.py:64-79 | `findtext` on the built element gives each field's text, with `None` read as "" |
| DspAttribute.TreeRoundTrip | src/dspy_tool/dsp_codec/internal/attribute.py:34-80 | `from_xml_element(get_xml_element(a))` gives the same fields, except that: the creation date loses its time of day; the modification time loses its microseconds; an empty guid is replaced by the fresh one; a `None` text comes back as "" |
| DspAttribute.MissingFieldsDefault | src/dspy_tool/dsp_codec/internal/attribute.py:64-80 | an element with no fields reads as: `now` for both dates, the fresh guid, version "00.00.0000", Python code, and `None` for sign, creator, title and app versions |
| DspAttribute.EmptyFieldsDefault | src/dspy_tool/dsp_codec/internal/attribute.py:64-80 | ten empty field elements read as the same defaults, except that the five fields taken verbatim are "" |
| DspAttribute.CodeTypeMustBeKnown | src/dspy_tool/dsp_codec/internal/attribute.py:76-77 | a read succeeds only when the code type text is missing, empty, "python" or "scratch"; the member read is that text's member, or Python code |
| DspAttribute.ReadBackAttribute | src/dspy_tool/dsp_codec/internal/attribute.py:34-47 | when the free texts are plain, the written element can be read back, and each field keeps its text, with an empty one as `None` |
| DspAttribute.ReadBackSameFields | src/dspy_tool/dsp_codec/internal/attribute.py:64-80 | `from_xml_element` reads the same fields from the reparsed element as from the element as built |
| DjiDocument.BuildXml | src/dji_dsp_tools/dsp_codec/internal/dji.py:17-22 | `get_xml_element` builds a `dji` root with exactly two children, `attribute` then `code` |
| DjiDocument.XmlStringShape | src/dji_dsp_tools/dsp_codec/internal/dji.py:24-26 | the document text is "<dji>", the attribute part's text, the code part's text and "</dji>", with nothing in between |
| DjiDocument.FromXml | src/dji_dsp_tools/dsp_codec/internal/dji.py:29-34 | a missing `attribute` part raises `AttributeError`, and so does a missing `code` part once the attribute part reads; a success is the two parts as their readers read them |
| DjiDocument.FromXmlString | src/dji_dsp_tools/dsp_codec/internal/dji.py:37-39 | text that does not parse is refused; otherwise the result is `from_xml_element` of the parsed tree |
| DjiDocument.OrderIndependent | src/dji_dsp_tools/dsp_codec/internal/dji.py:29-34 | the parts are found by tag, so swapping them, or changing the root's tag or text, changes nothing |
| DjiDocument.TreeRoundTrip | src/dji_dsp_tools/dsp_codec/internal/dji.py:17-34 | at tree level the document reads back as the attribute part's round trip, with both code fields `None` |
| DjiDocument.DocumentRoundTrip | src/dji_dsp_tools/dsp_codec/internal/dji.py:17-39 | `from_xml_string(get_xml_string(d))` gives the attribute part as in its tree-level round trip, and each code field as its CDATA section reads |
| DjiDocument.CurrentDocumentRoundTrip | src/dji_dsp_tools/dsp_codec/internal/dji.py:17-39 | with the current hook, non-empty plain code texts come back exactly |
| LegacyDocument.FromXml | src/dji_dsp_tools/dsp_codec/internal/dji.py:29-34 | as written, reading a document never succeeds |
| LegacyDocument.NeverReads | src/dji_dsp_tools/dsp_codec/internal/dji.py:33 | no text is ever read; once the attribute part has been read, the call to the missing `Code.from_xml_element` raises `AttributeError` |
| Signature.SignedText | src/dspy_tool/dsp_codec/file.py:269-279 | the signed text exists exactly when title, creator, Python code and Scratch description are all present (a `None` raises `TypeError`); it starts with "wwxnMmF8" and the creation date as `%Y/%m/%d`, and it ends with the code type's lower-cased name |
| Signature.CalcSignature | src/dspy_tool/dsp_codec/file.py:262-281 | the signature is 16 lowercase hex characters, characters 7 to 22 of the MD5 hex digest of the signed text; it raises `TypeError` exactly when a needed field is `None` (the older `calc_signature` at src/dji_dsp_tools/dsp_codec/file.py:230-248 is the same code) |
| Signature.IgnoresUnsignedFields | src/dspy_tool/dsp_codec/file.py:269-279 | the signature does not depend on the sign, the modification time or the app versions |
| Signature.SigningIsStable | src/dspy_tool/dsp_codec/file.py:283-285 | signing a signed document again gives the same signature |
| Signature.CodeTypeSigned | src/dspy_tool/dsp_codec/file.py:278 | the two code types give different signed texts |
| FileName.GetFileName | src/dspy_tool/dsp_codec/file.py:26-57 | on success the result is the shortest prefix after which the rest of the pattern matches, with no line break in it; `AttributeError` is raised exactly when no such prefix exists |
| FileName.Shortest | src/dspy_tool/dsp_codec/file.py:26-28 | every prefix the pattern could match is at least as long as the one returned |
| FileName.AlwaysMatches | src/dspy_tool/dsp_codec/file.py:57 | a name without line breaks always matches; at worst the whole name is the title |
| FileName.InnerLineBreakFails | src/dspy_tool/dsp_codec/file.py:57 | a line break before the last character, with nothing acceptable before it, makes the match fail with `AttributeError` |
| FileName.SuffixStart | src/dspy_tool/dsp_codec/file.py:27 | a non-empty suffix the pattern strips starts with '_', '-' or '.' |
| FileName.PrependTimestamp | src/dspy_tool/dsp_codec/file.py:27 | an `_` and 14 digits in front of a strippable suffix make a strippable suffix |
| FileName.PrependId | src/dspy_tool/dsp_codec/file.py:27 | an `_` and 32 letters or digits in front of a strippable suffix make a strippable suffix |
| FileName.IdTail | src/dspy_tool/dsp_codec/file.py:27 | `_`, a 32-character id and an optional extension are stripped |
| FileName.StampTail | src/dspy_tool/dsp_codec/file.py:27 | `_`, a 14-digit timestamp and an optional extension are stripped |
| FileName.KeptTitle | src/dspy_tool/dsp_codec/file.py:26-57 | a title followed by a strippable rest comes back, when no later start of the title is acceptable |
| FileName.AlnumTitle | src/dspy_tool/dsp_codec/file.py:26-57 | a title of letters and digits followed by a strippable rest comes back exactly |
| FileName.SavedNameGivesTitle | src/dspy_tool/dsp_codec/file.py:256-257 | loading a file saved under `f"{title}_{guid}.dsp"` with a 32-character guid gives the title back, when the title does not itself end in something the pattern strips |
| FileName.IdStripped | src/dspy_tool/dsp_codec/file.py:26-57 | a title of letters and digits, `_`, a 32-character id and an optional extension give the title |
| FileName.TimestampExample | src/dspy_tool/dsp_codec/file.py:26-57 | "MyProject_20240115103000.dsp" gives "MyProject" |
| FileName.RawExample | src/dspy_tool/dsp_codec/file.py:26-57 | "proj_20240101120000_raw.xml" gives "proj" |
| FileName.StampExample | src/dspy_tool/dsp_codec/file.py:26-57 | a timestamp with a raw marker and an extension is stripped |
| FileName.PlainNameExample | src/dspy_tool/dsp_codec/file.py:26-57 | "plain_name.py" gives "plain_name": an underscore that starts no group stays |
| FileName.NoMatchExample | src/dspy_tool/dsp_codec/file.py:26-57 | "no_match_here" comes back unchanged |
| FileName.NoGroupsKept | src/dspy_tool/dsp_codec/file.py:26-57 | a name without dots or line breaks, in which no separator starts a timestamp or an id, comes back whole |
| FileName.ExtensionHasDot | src/dspy_tool/dsp_codec/file.py:27 | every extension the pattern strips contains a dot |
| PyText.StripShape | src/dspy_tool/dsp_codec/file.py:164-167 | `strip` keeps one contiguous piece of its input, removes only whitespace around it, and the piece neither starts nor ends with whitespace |
| PyText.StripEmptyIff | src/dspy_tool/dsp_codec/file.py:164-169 | `s.strip()` is empty exactly when every character of `s` is whitespace |
| PyText.StripIdempotent | src/dspy_tool/dsp_codec/file.py:220 | stripping a stripped text changes nothing |
| PyText.Lower | src/dji_dsp_tools/dsp_codec/file.py:190 | `lower` keeps the length and lower-cases each ASCII letter |
| PyText.RFind | src/dji_dsp_tools/dsp_codec/file.py:191 | `rfind` returns an index where the text occurs, or -1, and the text occurs at no later index |
| PyText.RFindOfSuffix | src/dji_dsp_tools/dsp_codec/file.py:190-191 | when a text ends with a substring, `rfind` finds exactly that trailing occurrence |
| DspFiles.CheckNames | src/dspy_tool/dsp_codec/file.py:164-169 | the names pass exactly when both the stripped creator and the stripped title are non-empty; the creator is checked first, each failure raises its own `ValueError`, and a pass yields the stripped names |
| DspFiles.DspData | src/dspy_tool/dsp_codec/file.py:230-241 | the data exists exactly when the document can be signed (otherwise `TypeError`); it is the encoded text of the signed document |
| DspFiles.Loaded | src/dspy_tool/dsp_codec/file.py:204-212 | a load that succeeds decoded the data, read the document from its text, and took the title from the base name; a decoding error is passed on |
| DspFiles.DspFile.constructor | src/dspy_tool/dsp_codec/file.py:34-36 | the file holds the given document and name |
| DspFiles.DspFile.NewWithPythonCode | src/dspy_tool/dsp_codec/file.py:143-192 | succeeds exactly when the names pass; the document has the stripped names, an empty sign, the given times and guid, version "00.00.0000", Python code, empty app versions, the code unchanged and an empty Scratch description; a non-empty file name becomes the stripped title and an empty one stays empty |
| DspFiles.DspFile.New | src/dspy_tool/dsp_codec/file.py:127-140 | `new_with_python_code` with empty code |
| DspFiles.DspFile.Load | src/dspy_tool/dsp_codec/file.py:195-212 | returns a fresh file holding the loaded document and name, or the load's error |
| DspFiles.DspFile.SetPythonCode | src/dspy_tool/dsp_codec/file.py:214-228 | only the Python code changes, and it becomes the stripped text; `get_python_code` then returns that text |
| DspFiles.DspFile.ComputeSignature | src/dspy_tool/dsp_codec/file.py:283-285 | only the sign changes, and it becomes the computed signature; when a needed field is `None` the call raises `TypeError` and nothing changes |
| DspFiles.DspFile.GetDspData | src/dspy_tool/dsp_codec/file.py:230-241 | signs the document and returns the encoded text of the signed document |
| DspFiles.DspFile.Save | src/dspy_tool/dsp_codec/file.py:243-260 | stamps the modification time only when asked, signs, and returns the encoded signed document; the name is the given one, or else `f"{file_name}_{guid}.dsp"`; the file name is unchanged |
| DspFiles.NewDocumentSignable | src/dspy_tool/dsp_codec/file.py:171-187 | a new document can always be signed and saved |
| DspFiles.LoadSaved | src/dspy_tool/dsp_codec/file.py:195-241 | loading what `get_dsp_data` produced gives the signed document as its attribute round trip and CDATA sections read it, and the title as `get_file_name` reads the base name |
| DspFiles.LoadSavedCode | src/dspy_tool/dsp_codec/file.py:195-241 | the code that was saved comes back, when both texts are plain and non-empty |
| DspFiles.EmptyDescriptionBlocksResave | src/dspy_tool/dsp_codec/file.py:269-281 | a document saved with an empty Scratch description, as every new one is, loads with that field `None`, so signing it again raises `TypeError` |
| LegacyDspFiles.LegacyCheckNames | src/dji_dsp_tools/dsp_codec/file.py:138-143 | as written, the names pass only when both stripped names are empty; a non-blank creator raises "Creator cannot be empty", and otherwise a non-blank title raises "Title cannot be empty" |
| LegacyDspFiles.LegacyDspFile.constructor | src/dji_dsp_tools/dsp_codec/file.py:28-30 | the file holds the given document and name |
| LegacyDspFiles.LegacyDspFile.NewWithPythonCode | src/dji_dsp_tools/dsp_codec/file.py:123-169 | succeeds exactly when the older check passes, and then builds a document with empty creator and title; the file name is always "" |
| LegacyDspFiles.LegacyDspFile.New | src/dji_dsp_tools/dsp_codec/file.py:109-120 | the older `new_with_python_code` with empty code |
| LegacyDspFiles.LegacyDspFile.TrimGuidSuffix | src/dji_dsp_tools/dsp_codec/file.py:187-193 | the name `load` keeps: when the lower-cased stem ends with the guid, the stem is cut at the last occurrence and one trailing "_" is dropped; otherwise the stem is kept |
| LegacyDspFiles.LegacyDspFile.SetPythonCode | src/dji_dsp_tools/dsp_codec/file.py:197-211 | only the Python code changes, and it becomes the stripped text; `python_code` returns it |
| LegacyDspFiles.LegacyDspFile.ComputeSignature | src/dji_dsp_tools/dsp_codec/file.py:250-253 | only the sign changes, or the call raises `TypeError` and nothing changes |
| LegacyDspFiles.LegacyDspFile.Save | src/dji_dsp_tools/dsp_codec/file.py:213-228 | always stamps the modification time, signs, writes with the older CDATA hook, and names the output `f"{file_name}_{guid}.dsp"` |
| LegacyDspFiles.RejectsNamedDocuments | src/dji_dsp_tools/dsp_codec/file.py:138-143 | every pair of names the current package accepts is rejected on the creator, and every pair the older check accepts, the current one rejects |
| LegacyDspFiles.DefaultsRejected | src/dji_dsp_tools/dsp_codec/file.py:123-143 | the default names "Anonymous" and "Untitled" are rejected |
| LegacyDspFiles.CreatorNotBlank | src/dji_dsp_tools/dsp_codec/file.py:138-140 | a creator that starts with a non-space character is rejected, whatever the title |
| LegacyDspFiles.LoadNeverSucceeds | src/dji_dsp_tools/dsp_codec/file.py:172-195 | the older `load` never succeeds, because its document reader never does |
| LegacyDspFiles.TrimRecoversTitle | src/dji_dsp_tools/dsp_codec/file.py:187-193 | the trimming gives back the title from a stem `title + "_" + guid`, when lower-casing leaves the guid alone |
| LegacyDspFiles.UnrelatedStemKept | src/dji_dsp_tools/dsp_codec/file.py:190 | a stem that does not end with the guid (ignoring case) is kept |
| LegacyDspFiles.CutAtLastOccurrence | src/dji_dsp_tools/dsp_codec/file.py:190-193 | the cut is at the trailing occurrence of the guid, so text before an earlier copy stays |
| LegacyDspFiles.EmptyGuidDropsUnderscore | src/dji_dsp_tools/dsp_codec/file.py:190-193 | with an empty guid every stem ends with it, so only one trailing underscore is dropped |

## Left out

- AES-128-CBC, base64, UTF-8 and MD5 are library calls. They enter as the functions of an `Externals` value. The laws the codec relies on are hypotheses of the lemmas that need them:
  - decryption undoes encryption of whole blocks;
  - base64 decoding undoes encoding;
  - UTF-8 decoding undoes encoding;
  - the digest is 32 lowercase hex characters.
- `uuid4()` and `datetime.now()` are nondeterministic. They are parameters. Where `from_xml_element` and `new_with_python_code` read the clock twice, the two readings are two parameters.
- Reading and writing files, and `os.path` (`basename`, `splitext`, `split`, `join`), are I/O. `save` returns the name and the bytes it would write, and `load` takes the bytes and the base name (the older `load` takes the stem).
- `ET.fromstring` is a library parser. It is modelled only as far as the codec's own output needs: elements without attributes, character data, the `&amp;`/`&lt;`/`&gt;` references and CDATA sections. Text after a child element (a tail) is not kept. Documents from other writers are not modelled.
- The monkey-patching of `ET._serialize_xml` is global mutable state. Each package's hook is an explicit `CdataStyle` argument to the writer.
- `\d` in the file-name pattern is read as the ASCII digits. Python's `re` also accepts other Unicode decimal digits, which the model leaves out for simplicity.
- PyText.Lower: maps ASCII letters only, because Unicode case mapping is not modelled; `Lower` is used only on file names compared against a guid.
- FirmwareVersion.ParseInt: reads ASCII digits only. Python's `int()` also accepts other Unicode decimal digits, which are not modelled.
- Calendar.ParseDate: reads ASCII digits only, and only years 1000 to 9999, because `DateTime` admits only those years. `strptime` also accepts other Unicode decimal digits and years 1 to 999.
- The messages of `ValueError`s raised inside library calls (`int`, `strptime`, an enum lookup) are not modelled. Only the codec's own messages are.
- Calendar.ParseFormatDate: holds for years 1000 to 9999 only, because `DateTime` admits only those years. Outside that range `%Y` has no fixed width, and such dates are not modelled.
- Calendar.FormatParseModifyTime: covers zero-padded fields only. `strptime` also accepts unpadded numbers and other spacing, which the writer never produces.
- The CLI (argument parsing, printing, the file manager UI, configuration files, registry lookups) is left out. It is I/O glue around the codec.
- `compute_guid` is `uuid4` with the dashes removed. The guid is a parameter, so only its use is modelled.

## Findings

| source | as written | input that shows it | evidently intended | confidence | as-written member | corrected member |
|---|---|---|---|---|---|---|
| src/dji_dsp_tools/dsp_codec/internal/code.py:19 | the CDATA hook writes `<![CDATA[[`, putting one extra `[` inside the section | writing a `code` part with Python text "x" and reading it back with `get_code_from_xml_element` gives "[x" | the section opener `<![CDATA[`, as in the current package, so that the text comes back unchanged | high (not executed) | LegacyCode.LegacyRoundTripAddsBracket | DspCode.CurrentRoundTrip |
| src/dji_dsp_tools/dsp_codec/file.py:138-143 | the tests are `if creator:` and `if title:`, so the call raises when a name is given | `new_with_python_code("Anonymous", "Untitled")` raises "Creator cannot be empty" | `if not creator:` / `if not title:`, as in the current package | high (not executed) | LegacyDspFiles.RejectsNamedDocuments | DspFiles.CheckNames |
| src/dji_dsp_tools/dsp_codec/internal/dji.py:33 | `from_xml_element` calls `Code.from_xml_element`, which that package's `Code` class does not have | any document whose `attribute` part reads, for example the package's own output, raises `AttributeError` | the package's reader `get_code_from_xml_element`, the same reading as the current `Code.from_xml_element` | high (not executed) | LegacyDocument.NeverReads | DjiDocument.DocumentRoundTrip |
