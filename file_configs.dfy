/** `FileConfig`, the user-facing record of a file to add, and the `File` it describes. */
module FileConfigs {
  import opened Wrappers
  import opened Strings
  import opened Values
  import opened Paths
  import Checksums
  import Files
  import opened Collaborators

  /** A text, either plain or marked for YAML block style (`BlockStr`). */
  datatype Content = PlainStr(text: string) | BlockStr(text: string)

  /** A size entry: an int, a human-readable text such as "1 GiB", or None. */
  datatype SizeSpec = SizeInt(n: int) | SizeText(s: string) | NoSize

  datatype FileConfig = FileConfig(
    to: string,
    url: Option<string>,
    content: Option<Content>,
    via: Option<string>,
    size: SizeSpec,
    checksum: Option<map<string, string>>)

  /** The `via` values a `FileConfig` accepts. */
  const Ways: seq<string> := ["direct", "bztar", "gztar", "tar", "xztar", "zip"]

  predicate UrlTruthy(fc: FileConfig)
  {
    fc.url.Some? && fc.url.value != ""
  }

  predicate ContentTruthy(fc: FileConfig)
  {
    fc.content.Some? && fc.content.value.text != ""
  }

  /**
   * `FileConfig(...)` and its post-init: the record as given, then the `via`
   * check, the url-or-content check, parsing of a non-empty size text and the
   * block-style marking of content.
   */
  function NewFileConfig(given: FileConfig, parseSize: string -> Option<int>): (r: Result<FileConfig>)
    ensures (given.via.None? || given.via.value !in Ways) ==> r.Err? && r.error.ValueError?
    ensures !UrlTruthy(given) && !ContentTruthy(given) ==> r.Err? && r.error.ValueError?
    ensures r.Ok? ==> r.value.via.Some? && r.value.via.value in Ways
    ensures r.Ok? ==> UrlTruthy(r.value) || ContentTruthy(r.value)
    ensures r.Ok? ==> r.value.to == given.to && r.value.url == given.url && r.value.checksum == given.checksum
    ensures r.Ok? && ContentTruthy(given) ==> r.value.content == Some(BlockStr(given.content.value.text))
    ensures r.Ok? && !ContentTruthy(given) ==> r.value.content == given.content
    ensures r.Ok? && given.size.SizeText? && given.size.s != "" ==> r.value.size.SizeInt? && parseSize(given.size.s) == Some(r.value.size.n)
    ensures r.Ok? && !(given.size.SizeText? && given.size.s != "") ==> r.value.size == given.size
    ensures r.Ok? <==> given.via.Some? && given.via.value in Ways && (UrlTruthy(given) || ContentTruthy(given))
                       && !(given.size.SizeText? && given.size.s != "" && parseSize(given.size.s).None?)
    ensures r.Err? ==> (r.error.InvalidSize? <==> given.via.Some? && given.via.value in Ways
                                                   && (UrlTruthy(given) || ContentTruthy(given)))
  {
    if given.via.None? || given.via.value !in Ways then
      Err(ValueError("Incorrect value `" + (if given.via.Some? then given.via.value else "None") + "` for FileConfig.via"))
    else if !UrlTruthy(given) && !ContentTruthy(given) then
      Err(ValueError("Either FileConfig.url or FileConfig.content must be set"))
    else if given.size.SizeText? && given.size.s != "" && parseSize(given.size.s).None? then
      Err(InvalidSize("invalid size " + given.size.s))
    else
      var size := if given.size.SizeText? && given.size.s != "" then SizeInt(parseSize(given.size.s).value) else given.size;
      var content := if ContentTruthy(given) then Some(BlockStr(given.content.value.text)) else given.content;
      Ok(given.(size := size, content := content))
  }

  /** The defaults of the record: via "direct", size -1, no url, content or checksum. */
  function Defaults(to: string): FileConfig
  {
    FileConfig(to, None, None, Some("direct"), SizeInt(-1), None)
  }

  /** A record with only a destination and the defaults is refused: it has neither url nor content. */
  lemma DefaultsNeedSource(to: string, parseSize: string -> Option<int>)
    ensures NewFileConfig(Defaults(to), parseSize).Err?
  {
  }

  /** `asdict(self)`, as the payload `File` reads. */
  function AsPayload(fc: FileConfig): Files.Payload
  {
    Files.Payload(
      fc.to,
      if fc.url.Some? then Files.Given(fc.url.value) else Files.Null,
      if fc.content.Some? then Some(fc.content.value.text) else None,
      if fc.via.Some? then Files.Given(fc.via.value) else Files.Null,
      fc.checksum,
      match fc.size
      case SizeInt(n) => Some(Files.IntValue(n))
      case SizeText(s) => Some(Files.TextValue(s))
      case NoSize => None,
      None)
  }

  /** The `file` property: `File(asdict(self))`. */
  function FileOf(fc: FileConfig, env: Env): Result<Files.FileData>
  {
    Files.NewFile(AsPayload(fc), env)
  }

  /**
   * The `File` built from a validated record carries the record's own
   * destination, handler, content, url, size and checksum. Content made only
   * of white space strips to nothing, and a record without url then gives the
   * text "None" to `urlparse`.
   */
  lemma FileOfFields(given: FileConfig, env: Env)
    requires NewFileConfig(given, env.parseSize).Ok?
    requires FileOf(NewFileConfig(given, env.parseSize).value, env).Ok?
    ensures var fc := NewFileConfig(given, env.parseSize).value;
            var f := FileOf(fc, env).value;
            f.to == Resolve(given.to, env.cwd)
            && f.via == fc.via.value
            && f.content == Files.ContentOf(AsPayload(fc))
            && (f.content == "" ==> f.url.Some? && f.url.value.text == (if fc.url.Some? then fc.url.value else "None"))
            && (fc.size.SizeInt? ==> f.size == fc.size.n)
            && (fc.size.NoSize? ==> f.size == -1)
            && (f.checksum.Some? <==> fc.checksum.Some?)
  {
    var fc := NewFileConfig(given, env.parseSize).value;
    var p := AsPayload(fc);
    var f := Files.NewFile(p, env).value;
    assert Files.ViaOf(p) == fc.via.value;
    if fc.size.SizeInt? {
      assert Files.PyInt(p.size.value) == Some(fc.size.n);
    }
    if f.content == "" {
      assert f.url.Some?;
      assert !p.url.Absent?;
      assert Files.UrlTextOf(p) == (if fc.url.Some? then fc.url.value else "None");
    }
  }

  /** A checksum dictionary as a YAML mapping. */
  function DictValue(d: map<string, string>): Value
  {
    Dict(map k | k in d :: Str(d[k]))
  }

  /** The YAML representation: the record's fields, with every None-valued one left out. */
  function YamlRepr(fc: FileConfig): (r: map<string, Value>)
    ensures forall k :: k in r ==> r[k] != Null
    ensures "to" in r && r["to"] == Str(fc.to)
    ensures ("url" in r <==> fc.url.Some?) && ("content" in r <==> fc.content.Some?)
    ensures ("via" in r <==> fc.via.Some?) && ("checksum" in r <==> fc.checksum.Some?)
    ensures ("size" in r <==> !fc.size.NoSize?)
    ensures r.Keys <= {"to", "url", "content", "via", "size", "checksum"}
  {
    var withUrl := if fc.url.Some? then map["url" := Str(fc.url.value)] else map[];
    var withContent := if fc.content.Some? then withUrl["content" := Str(fc.content.value.text)] else withUrl;
    var withVia := if fc.via.Some? then withContent["via" := Str(fc.via.value)] else withContent;
    var withSize := match fc.size
                    case SizeInt(n) => withVia["size" := Int(n)]
                    case SizeText(t) => withVia["size" := Str(t)]
                    case NoSize => withVia;
    var withChecksum := if fc.checksum.Some? then withSize["checksum" := DictValue(fc.checksum.value)] else withSize;
    withChecksum["to" := Str(fc.to)]
  }
}
