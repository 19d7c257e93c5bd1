/** The `CodeType` enum: two members, each with a wire tag (its `value`). */
module CodeTypes {
  import opened Wrappers

  datatype CodeType = PythonCode | ScratchCode

  /** The member's `value`, written into the `code_type` element. */
  function Tag(c: CodeType): string {
    match c
    case PythonCode => "python"
    case ScratchCode => "scratch"
  }

  /** `c.name.lower()`, the spelling the signature uses. */
  function LowerName(c: CodeType): string {
    match c
    case PythonCode => "python_code"
    case ScratchCode => "scratch_code"
  }

  /** `CodeType(s)`: look a member up by its value; any other string raises
      `ValueError`. */
  function FromTag(s: string): (r: Result<CodeType>)
    ensures r.Ok? <==> s == "python" || s == "scratch"
    ensures r.Ok? ==> Tag(r.value) == s
    ensures r.Err? ==> r.error.ValueError?
  {
    if s == "python" then Ok(PythonCode)
    else if s == "scratch" then Ok(ScratchCode)
    else Err(LibraryValueError)
  }

  /** Tag and member are in bijection: reading a member's tag gives the
      member back, and distinct members have distinct tags. */
  lemma TagBijection(c: CodeType, d: CodeType)
    ensures FromTag(Tag(c)) == Ok(c)
    ensures Tag(c) == Tag(d) ==> c == d
  {
  }

  /** The signature spelling and the wire tag never coincide, and the
      signature spelling is not itself a valid tag. */
  lemma NamesDifferFromTags(c: CodeType, d: CodeType)
    ensures LowerName(c) != Tag(d)
    ensures FromTag(LowerName(c)).Err?
  {
  }
}
