/** `OutputConfig`: the requested image size and output options. */
module OutputConfigs {
  import opened Wrappers
  import opened FileConfigs

  /** `str(self.size)` for a size that is not an int. */
  function StrOfSize(size: SizeSpec): string
    requires !size.SizeInt?
  {
    if size.SizeText? then size.s else "None"
  }

  /**
   * What `parse_size()` makes of the stored size: an int stays, "auto"
   * becomes None, anything else (None included) is handed to `parse_size`
   * as text and a failure there becomes ValueError.
   */
  function ParseSizeStep(size: SizeSpec, parseSize: string -> Option<int>): (r: Result<SizeSpec>)
    ensures size.SizeInt? ==> r == Ok(size)
    ensures size == SizeText("auto") ==> r == Ok(NoSize)
    ensures r.Ok? ==> r.value.SizeInt? || r.value.NoSize?
    ensures r.Ok? && r.value.NoSize? ==> size == SizeText("auto")
    ensures !size.SizeInt? && size != SizeText("auto")
            ==> (r.Ok? <==> parseSize(StrOfSize(size)).Some?)
                && (r.Ok? ==> r.value == SizeInt(parseSize(StrOfSize(size)).value))
    ensures r.Err? ==> r.error.ValueError?
  {
    if size.SizeInt? then Ok(size)
    else if size == SizeText("auto") then Ok(NoSize)
    else
      match parseSize(StrOfSize(size))
      case Some(n) => Ok(SizeInt(n))
      case None => Err(ValueError("Unable to parse `" + StrOfSize(size) + "` into size for OutputConfig.size"))
  }

  /** Once parsed to an int, the size is settled: parsing again changes nothing, whatever the parser. */
  lemma ParsedSizeSettles(size: SizeSpec, parseSize: string -> Option<int>, later: string -> Option<int>)
    requires ParseSizeStep(size, parseSize).Ok? && ParseSizeStep(size, parseSize).value.SizeInt?
    ensures ParseSizeStep(ParseSizeStep(size, parseSize).value, later) == ParseSizeStep(size, parseSize)
  {
  }

  /**
   * "auto" is not a fixed point: the None it leaves behind is, on a second
   * `parse_size()`, given to the parser as the text "None" — the same as
   * the default size.
   */
  lemma AutoReparsesNone(parseSize: string -> Option<int>)
    ensures ParseSizeStep(SizeText("auto"), parseSize) == Ok(NoSize)
    ensures ParseSizeStep(NoSize, parseSize).Ok? <==> parseSize("None").Some?
  {
  }

  /** An `OutputConfig` object (both variants: `shrink` is None in the one that has no such field). */
  class OutputConfig {
    var size: SizeSpec
    var compress: Option<bool>
    var shrink: Option<bool>

    constructor (size: SizeSpec, compress: Option<bool>, shrink: Option<bool>)
      ensures this.size == size && this.compress == compress && this.shrink == shrink
    {
      this.size := size;
      this.compress := compress;
      this.shrink := shrink;
    }

    /** `parse_size()`: on failure the exception leaves the size as it was. */
    method ParseSize(parseSize: string -> Option<int>) returns (e: Option<Error>)
      modifies this
      ensures var step := ParseSizeStep(old(size), parseSize);
              (e.None? <==> step.Ok?)
              && (step.Ok? ==> size == step.value)
              && (step.Err? ==> size == old(size) && e == Some(step.error))
      ensures compress == old(compress) && shrink == old(shrink)
    {
      if size.SizeInt? {
        return None;
      }
      if size == SizeText("auto") {
        size := NoSize;
        return None;
      }
      var text := if size.SizeText? then size.s else "None";
      var parsed := parseSize(text);
      if parsed.None? {
        return Some(ValueError("Unable to parse `" + text + "` into size for OutputConfig.size"));
      }
      size := SizeInt(parsed.value);
      return None;
    }

    /**
     * `OutputConfig(size=…, compress=…)`: the fields as given, then
     * `parse_size()`. The older variant passes `shrink`; the current one None.
     */
    static method Create(size: SizeSpec, compress: Option<bool>, shrink: Option<bool>,
                         parseSize: string -> Option<int>)
      returns (r: Result<OutputConfig>)
      ensures r.Ok? <==> ParseSizeStep(size, parseSize).Ok?
      ensures r.Ok? ==> fresh(r.value) && r.value.size == ParseSizeStep(size, parseSize).value
                        && r.value.compress == compress && r.value.shrink == shrink
      ensures r.Err? ==> r.error == ParseSizeStep(size, parseSize).error
    {
      var c := new OutputConfig(size, compress, shrink);
      var e := c.ParseSize(parseSize);
      if e.Some? {
        return Err(e.value);
      }
      return Ok(c);
    }
  }

  /** `OutputConfig()`: size None and compress False; the older variant also shrink False. */
  method CreateDefault(legacy: bool, parseSize: string -> Option<int>) returns (r: Result<OutputConfig>)
    ensures r.Ok? <==> parseSize("None").Some?
    ensures r.Ok? ==> r.value.compress == Some(false) && r.value.shrink == (if legacy then Some(false) else None)
  {
    r := OutputConfig.Create(NoSize, Some(false), if legacy then Some(false) else None, parseSize);
  }
}
