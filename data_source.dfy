/** The provider base contract (data/base.py): the `source_name` checks every
    data source runs on construction, the structural error kind providers
    raise, and the two incremental cursors. */
module DataSource {
  import opened Basics
  import opened Text

  const MaxSourceNameLength := 100

  /** The exceptions `DataSource.__init__` raises. */
  datatype InitError =
    | NameIsNone          // ValueError: source_name cannot be None
    | NameNotAString      // TypeError: source_name must be a string
    | NameBlank           // ValueError: source_name cannot be empty or whitespace only
    | NameTooLong(length: nat)  // ValueError: source_name too long

  /** `DataSourceError`: the provider's response had the wrong structure. */
  datatype DataSourceError = StructuralError

  /** The guards of `DataSource.__init__`, in the order the code runs them,
      and the name it stores when they all pass. */
  function CheckSourceName(raw: Raw): (r: Result<string, InitError>)
    ensures raw.NoneValue? <==> r == Failure(NameIsNone)
    ensures raw.OtherType? <==> r == Failure(NameNotAString)
    ensures r == Failure(NameBlank) <==> raw.Str? && AllSpace(raw.s)
    ensures r.Failure? && r.error.NameTooLong? <==>
      raw.Str? && !AllSpace(raw.s) && |raw.s| > MaxSourceNameLength
    ensures r.Success? ==> raw.Str? && r.value == Strip(raw.s)
    ensures r.Success? ==> r.value != [] && IsTrimmed(r.value) && |r.value| <= MaxSourceNameLength
  {
    match raw
    case NoneValue => Failure(NameIsNone)
    case OtherType => Failure(NameNotAString)
    case Str(s) =>
      if AllSpace(s) then Failure(NameBlank)
      else if |s| > MaxSourceNameLength then Failure(NameTooLong(|s|))
      else Success(Strip(s))
  }

  /** The length limit applies to the raw argument, before stripping: padding
      can push an acceptable name over the limit. */
  lemma LengthCountsPadding(core: string, pad: string)
    requires |core| == MaxSourceNameLength && !IsSpace(core[0])
    requires pad == [' ']
    ensures CheckSourceName(Str(core)).Success?
    ensures CheckSourceName(Str(pad + core)) == Failure(NameTooLong(MaxSourceNameLength + 1))
  {
    assert !AllSpace(core) && (pad + core)[1] == core[0];
  }

  /** Blankness is checked before length: a white-space-only name of any
      length is reported as blank, never as too long. */
  lemma BlankBeatsLength(s: string)
    requires AllSpace(s) && |s| > MaxSourceNameLength
    ensures CheckSourceName(Str(s)) == Failure(NameBlank)
  {
  }
}
