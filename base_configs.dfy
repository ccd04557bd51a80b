/** The base image a configuration starts from, and the `File` that fetches it. */
module BaseConfigs {
  import opened Wrappers
  import opened Strings
  import opened Paths
  import opened Checksums
  import opened Files
  import opened Collaborators
  import opened Constants

  /** A checksum entry: the dictionary given in a configuration, or a built `Checksum`. */
  datatype ChecksumArg = ChecksumDict(d: map<string, string>) | ChecksumObject(v: ChecksumValue)

  /** Where the base image comes from: a text (a URL or a version) or a prepared `File`. */
  datatype BaseSource = SourceText(text: string) | SourceFile(file: FileData)

  datatype BaseConfig = BaseConfig(source: BaseSource, rootfsSize: Scalar, checksum: Option<ChecksumArg>)

  /**
   * `BaseConfig(...)` and its post-init: a non-empty size text is parsed,
   * and a non-empty checksum dictionary becomes a `Checksum`.
   */
  function NewBaseConfig(given: BaseConfig, parseSize: string -> Option<int>): (r: Result<BaseConfig>)
    ensures r.Ok? ==> r.value.source == given.source
    ensures r.Ok? && given.rootfsSize.TextValue? && given.rootfsSize.s != ""
            ==> r.value.rootfsSize.IntValue? && parseSize(given.rootfsSize.s) == Some(r.value.rootfsSize.i)
    ensures r.Ok? && !(given.rootfsSize.TextValue? && given.rootfsSize.s != "")
            ==> r.value.rootfsSize == given.rootfsSize
    ensures r.Ok? && given.checksum.Some? && given.checksum.value.ChecksumDict? && given.checksum.value.d != map[]
            ==> r.value.checksum.Some? && r.value.checksum.value.ChecksumObject?
                && FromDict(given.checksum.value.d) == Ok(r.value.checksum.value.v)
    ensures r.Ok? && !(given.checksum.Some? && given.checksum.value.ChecksumDict? && given.checksum.value.d != map[])
            ==> r.value.checksum == given.checksum
    ensures r.Err? <==> (given.rootfsSize.TextValue? && given.rootfsSize.s != "" && parseSize(given.rootfsSize.s).None?)
                        || (given.checksum.Some? && given.checksum.value.ChecksumDict? && given.checksum.value.d != map[]
                            && FromDict(given.checksum.value.d).Err?)
    ensures r.Err? ==> (r.error.InvalidSize? <==> given.rootfsSize.TextValue? && given.rootfsSize.s != ""
                                                  && parseSize(given.rootfsSize.s).None?)
  {
    var size := if given.rootfsSize.TextValue? && given.rootfsSize.s != ""
                then Some(parseSize(given.rootfsSize.s)) else None;
    var checksum := if given.checksum.Some? && given.checksum.value.ChecksumDict? && given.checksum.value.d != map[]
                    then Some(FromDict(given.checksum.value.d)) else None;
    if size.Some? && size.value.None? then Err(InvalidSize("invalid size " + given.rootfsSize.s))
    else if checksum.Some? && checksum.value.Err? then Err(checksum.value.error)
    else
      Ok(BaseConfig(
           given.source,
           if size.Some? then IntValue(size.value.value) else given.rootfsSize,
           if checksum.Some? then Some(ChecksumObject(checksum.value.value)) else given.checksum))
  }

  predicate IsExtraChar(c: char)
  {
    IsLowerChar(c) || IsDigitChar(c) || c == '-' || c == '.' || c == '_'
  }

  /** Length of the longest prefix of `s` made of `[a-z0-9\-\.\_]`. */
  function ExtraRun(s: string): (n: nat)
    ensures n <= |s|
    ensures forall k :: 0 <= k < n ==> IsExtraChar(s[k])
    ensures n < |s| ==> !IsExtraChar(s[n])
  {
    if |s| == 0 || !IsExtraChar(s[0]) then 0 else 1 + ExtraRun(s[1..])
  }

  /**
   * The text the regular expression `^(\d\.\d\.\d)([a-z0-9\-\.\_]*)` matches
   * at the start of `s`, when it matches.
   */
  function VersionMatch(s: string): (r: Option<string>)
    ensures r.Some? ==> |r.value| >= 5 && r.value <= s
    ensures r.Some? ==> IsDigitChar(s[0]) && s[1] == '.' && IsDigitChar(s[2]) && s[3] == '.' && IsDigitChar(s[4])
    ensures r.Some? ==> forall k :: 5 <= k < |r.value| ==> IsExtraChar(s[k])
    ensures r.Some? && |r.value| < |s| ==> !IsExtraChar(s[|r.value|])
    ensures r.None? <==> !(|s| >= 5 && IsDigitChar(s[0]) && s[1] == '.' && IsDigitChar(s[2]) && s[3] == '.' && IsDigitChar(s[4]))
  {
    if |s| >= 5 && IsDigitChar(s[0]) && s[1] == '.' && IsDigitChar(s[2]) && s[3] == '.' && IsDigitChar(s[4])
    then
      var n := ExtraRun(s[5..]);
      assert forall k :: 5 <= k < 5 + n ==> s[k] == s[5..][k - 5];
      Some(s[..5 + n])
    else None
  }

  const BaseImageUrlPrefix := "https://drive.offspot.it/base/offspot-base-arm64-"

  /** The URL a version-like base source designates. */
  function VersionUrl(version: string): string
  {
    BaseImageUrlPrefix + version + ".img"
  }

  /** The payload `get_base_from` fills before building the `File`. */
  function BasePayload(base: BaseConfig, readChecksum: string -> Option<string>): Payload
    requires base.source.SourceText?
  {
    var version := VersionMatch(base.source.text);
    if version.Some? then
      var url := VersionUrl(version.value);
      var checksum := match readChecksum(url + ".md5")
                      case Some(d) => Some(ToDict(ChecksumValue("md5", d, "digest")))
                      case None => None;
      Payload("/data/-", Given(url), None, Absent, checksum, None, None)
    else
      var checksum := match base.checksum
                      case Some(ChecksumObject(v)) => Some(ToDict(v))
                      case _ => None;
      Payload("/data/-", Given(base.source.text), None, Absent, checksum, None, None)
  }

  /** `get_base_from(base)`. */
  function GetBaseFrom(base: BaseConfig, env: Env): Result<FileData>
    requires base.source.SourceText?
  {
    NewFile(BasePayload(base, env.readChecksum), env)
  }

  /** Every checksum a base configuration holds as an object passed validation. */
  predicate ChecksumObjectValid(base: BaseConfig)
  {
    base.checksum.Some? && base.checksum.value.ChecksumObject? ==> IsValid(base.checksum.value.v)
  }

  /** `DATA_PART_PATH / "-"` resolves to itself, under the data partition. */
  lemma BaseTarget(cwd: string)
    ensures Resolve("/data/-", cwd) == Path(true, ["data", "-"])
    ensures IsRelativeTo(Resolve("/data/-", cwd), DataPartPath)
  {
    ResolveTwoParts("data", "-", cwd);
    assert "/data/-" == "/" + "data" + "/" + "-";
  }

  /** The URL `get_base_from` downloads: the expanded version URL, or the source text itself. */
  function BaseUrl(base: BaseConfig): string
    requires base.source.SourceText?
  {
    var version := VersionMatch(base.source.text);
    if version.Some? then VersionUrl(version.value) else base.source.text
  }

  /**
   * The checksum `get_base_from` attaches: for a version, the md5 read from
   * `<url>.md5` when that read succeeds (an explicit checksum is ignored);
   * otherwise the explicit checksum when it is a `Checksum` object.
   */
  function BaseChecksum(base: BaseConfig, readChecksum: string -> Option<string>): Option<ChecksumValue>
    requires base.source.SourceText?
  {
    if VersionMatch(base.source.text).Some? then
      match readChecksum(BaseUrl(base) + ".md5")
      case Some(d) => Some(ChecksumValue("md5", d, "digest"))
      case None => None
    else if base.checksum.Some? && base.checksum.value.ChecksumObject? then Some(base.checksum.value.v)
    else None
  }

  /**
   * `get_base_from` always succeeds and yields the file that downloads
   * `BaseUrl(base)` directly to `/data/-`, with `BaseChecksum` attached.
   */
  lemma GetBaseFromFile(base: BaseConfig, env: Env)
    requires base.source.SourceText? && ChecksumObjectValid(base)
    ensures GetBaseFrom(base, env)
            == Ok(FileData(Path(true, ["data", "-"]), "direct", "", Some(ParseUrl(BaseUrl(base))),
                           BaseChecksum(base, env.readChecksum), -1, None))
  {
    BaseTarget(env.cwd);
    BasePayloadShape(base, env.readChecksum);
    var expected := BaseChecksum(base, env.readChecksum);
    if expected.Some? {
      DictRoundTrip(expected.value);
    }
    NewFileFromUrl(BasePayload(base, env.readChecksum), env);
  }

  /** The payload holds the URL and the checksum, as a dictionary, and nothing else but `to`. */
  lemma BasePayloadShape(base: BaseConfig, readChecksum: string -> Option<string>)
    requires base.source.SourceText?
    ensures var c := BaseChecksum(base, readChecksum);
            BasePayload(base, readChecksum)
            == Payload("/data/-", Given(BaseUrl(base)), None, Absent,
                       if c.Some? then Some(ToDict(c.value)) else None, None, None)
  {
  }

  /** `get_base_from(url)` of the older single-module variant: another URL scheme, and never a checksum. */
  function LegacyGetBaseFrom(url: string, env: Env): Result<FileData>
  {
    var version := VersionMatch(url);
    var target := if version.Some? then "https://drive.offspot.it/base/base-image-" + version.value + ".img.xz" else url;
    NewFile(Payload("/data/-", Given(target), None, Absent, None, None, None), env)
  }

  /** The older variant also always yields a file for `/data/-`, from the rewritten or the given URL. */
  lemma LegacyGetBaseFromFile(url: string, env: Env)
    ensures LegacyGetBaseFrom(url, env).Ok?
    ensures var f := LegacyGetBaseFrom(url, env).value;
            f.to == Path(true, ["data", "-"]) && f.via == "direct" && f.checksum.None? && f.url.Some?
            && f.url.value.text == (if VersionMatch(url).Some?
                                    then "https://drive.offspot.it/base/base-image-" + VersionMatch(url).value + ".img.xz"
                                    else url)
  {
    BaseTarget(env.cwd);
    var version := VersionMatch(url);
    var target := if version.Some? then "https://drive.offspot.it/base/base-image-" + version.value + ".img.xz" else url;
    NewFileFromUrl(Payload("/data/-", Given(target), None, Absent, None, None, None), env);
  }
}
