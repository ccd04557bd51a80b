/**
 * The catalogue's package kinds: ZIM archives, container apps and file
 * bundles, with their derived file names, URLs, sizes, the file each one
 * asks for and the card each one shows on the dashboard.
 */
module Packages {
  import opened Wrappers
  import opened Strings
  import opened Values
  import opened Paths
  import opened Checksums
  import opened Constants
  import opened Collaborators
  import OciImages
  import FileConfigs

  /** The fields every package shares. */
  datatype Info = Info(
    ident: string,
    kind: string,
    domain: string,
    title: string,
    description: string,
    tags: seq<string>,
    languages: Option<seq<string>>,
    iconUrl: Option<string>)

  /** An ordered string-to-string dictionary, as its items. */
  type Items = seq<(string, string)>

  /**
   * A package. `PlainPackage` is the base class used directly; the three
   * others are its subclasses with their own fields.
   */
  datatype Package =
    | PlainPackage(info: Info)
    | ZimPackage(info: Info, name: string, flavour: string, version: string,
                 downloadUrl: string, downloadSize: int, downloadChecksum: Option<ChecksumValue>)
    | AppPackage(info: Info, image: string, imageFilesize: int, imageFullsize: int,
                 appUrl: Option<string>, appSize: Option<int>, appChecksum: Option<ChecksumValue>,
                 downloadTo: Option<string>, downloadVia: Option<string>,
                 environMap: Option<Items>, environ: Option<Items>,
                 volumes: Option<seq<string>>, links: Option<seq<string>>,
                 subServices: Option<Items>)
    | FilesPackage(info: Info, via: string, filesUrl: string, filesSize: Option<int>,
                   filesChecksum: Option<ChecksumValue>, target: Option<string>)

  /** A `ZimPackage` as built with its defaults: kind "zim" and domain "kiwix". */
  function NewZimPackage(ident: string, title: string, description: string, name: string, flavour: string,
                         version: string, downloadUrl: string, downloadSize: int): (p: Package)
    ensures p.ZimPackage? && p.info.ident == ident
    ensures p.info.kind == "zim" && p.info.domain == "kiwix"
    ensures p.downloadChecksum.None? && p.info.tags == [] && p.info.languages.None? && p.info.iconUrl.None?
  {
    ZimPackage(Info(ident, "zim", "kiwix", title, description, [], None, None),
               name, flavour, version, downloadUrl, downloadSize, None)
  }

  /** `x or 0` for an optional int. */
  function OrZero(n: Option<int>): int
  {
    if n.Some? then n.value else 0
  }

  /** Python's truthiness of an optional string. */
  predicate Given(s: Option<string>)
  {
    s.Some? && s.value != ""
  }

  // ------------------------------------------------------------ file names

  /** The `filename` property of the three kinds that have one. */
  function Filename(p: Package, env: Env): (f: string)
    requires !p.PlainPackage?
    ensures p.ZimPackage? ==> EndsWith(f, ".zim")
    ensures p.AppPackage? ==> f == if Given(p.downloadTo) then p.downloadTo.value else p.info.ident
    ensures p.FilesPackage? ==> f == if Given(p.target) then p.target.value else p.info.ident
  {
    match p
    case ZimPackage(_, _, _, _, _, _, _) => env.zimStem(p.info.ident) + ".zim"
    case AppPackage(_, _, _, _, _, _, _, _, _, _, _, _, _, _) =>
      if Given(p.downloadTo) then p.downloadTo.value else p.info.ident
    case FilesPackage(_, _, _, _, _, _) => if Given(p.target) then p.target.value else p.info.ident
  }

  // ----------------------------------------------------------------- sizes

  /** The `size` property: the base class raises NotImplementedError. */
  function Size(p: Package): (r: Result<int>)
    ensures r.Err? <==> p.PlainPackage?
    ensures r.Err? ==> r.error.NotImplementedError?
    ensures p.ZimPackage? ==> r == Ok(p.downloadSize)
    ensures p.AppPackage? ==> r == Ok(p.imageFullsize + OrZero(p.appSize))
    ensures p.FilesPackage? ==> r == Ok(OrZero(p.filesSize))
  {
    match p
    case PlainPackage(_) => Err(NotImplementedError(""))
    case ZimPackage(_, _, _, _, _, _, _) => Ok(p.downloadSize)
    case AppPackage(_, _, _, _, _, _, _, _, _, _, _, _, _, _) => Ok(p.imageFullsize + OrZero(p.appSize))
    case FilesPackage(_, _, _, _, _, _) => Ok(OrZero(p.filesSize))
  }

  /** An app counts its expanded image and its optional download; a files package only its download. */
  lemma SizeAccountsDownload(p: Package)
    requires p.AppPackage? || p.FilesPackage?
    ensures Size(p).Ok?
    ensures p.AppPackage? && p.appSize.None? ==> Size(p).value == p.imageFullsize
    ensures p.FilesPackage? && p.filesSize.None? ==> Size(p).value == 0
    ensures p.AppPackage? ==> Size(p).value == p.imageFullsize + GetDownloadSize(p).value
    ensures p.FilesPackage? ==> Size(p).value == GetDownloadSize(p).value
  {
  }

  // ------------------------------------------------------------------ URLs

  /** `get_url(fqdn, kiwix_domain=…)`. */
  function GetUrl(p: Package, fqdn: string, kiwixDomain: string, env: Env): (u: string)
    ensures p.PlainPackage? ==> u == ""
    ensures p.AppPackage? || p.FilesPackage? ==> u == "//" + p.info.domain + "." + fqdn + "/"
    ensures p.ZimPackage? ==> u == "//" + kiwixDomain + "." + fqdn + "/viewer#" + env.humanId(Filename(p, env))
  {
    if p.PlainPackage? then ""
    else if p.ZimPackage? then "//" + kiwixDomain + "." + fqdn + "/viewer#" + env.humanId(Filename(p, env))
    else "//" + p.info.domain + "." + fqdn + "/"
  }

  /** `get_download_url(download_fqdn)`: only a ZIM has one. */
  function GetDownloadUrl(p: Package, downloadFqdn: string, env: Env): (r: Option<string>)
    ensures r.Some? <==> p.ZimPackage?
    ensures r.Some? ==> r.value == "//" + downloadFqdn + "/" + Filename(p, env)
  {
    if p.ZimPackage? then Some("//" + downloadFqdn + "/" + Filename(p, env)) else None
  }

  /** `get_download_size()`. */
  function GetDownloadSize(p: Package): (r: Option<int>)
    ensures r.None? <==> p.PlainPackage?
    ensures p.ZimPackage? ==> r == Some(p.downloadSize)
    ensures p.AppPackage? ==> r == Some(OrZero(p.appSize))
    ensures p.FilesPackage? ==> r == Some(OrZero(p.filesSize))
  {
    match p
    case PlainPackage(_) => None
    case ZimPackage(_, _, _, _, _, _, _) => Some(p.downloadSize)
    case AppPackage(_, _, _, _, _, _, _, _, _, _, _, _, _, _) => Some(OrZero(p.appSize))
    case FilesPackage(_, _, _, _, _, _) => Some(OrZero(p.filesSize))
  }

  /** `get_download_checksum()`. */
  function GetDownloadChecksum(p: Package): (r: Option<ChecksumValue>)
    ensures p.PlainPackage? ==> r.None?
    ensures p.ZimPackage? ==> r == p.downloadChecksum
    ensures p.AppPackage? ==> r == p.appChecksum
    ensures p.FilesPackage? ==> r == p.filesChecksum
  {
    match p
    case PlainPackage(_) => None
    case ZimPackage(_, _, _, _, _, _, _) => p.downloadChecksum
    case AppPackage(_, _, _, _, _, _, _, _, _, _, _, _, _, _) => p.appChecksum
    case FilesPackage(_, _, _, _, _, _) => p.filesChecksum
  }

  // --------------------------------------------------------------- app_id

  /** Characters `app_id` keeps after the first one. */
  predicate IsIdChar(c: char)
  {
    IsAlnumChar(c) || c == '_' || c == '.' || c == '-'
  }

  /** `re.sub(r"[^a-zA-Z0-9_.-]+", "", s)`. */
  function KeepIdChars(s: string): (r: string)
    ensures |r| <= |s|
    ensures forall k :: 0 <= k < |r| ==> IsIdChar(r[k])
    ensures forall k :: 0 <= k < |s| && IsIdChar(s[k]) ==> s[k] in r
    ensures r == "" <==> forall k :: 0 <= k < |s| ==> !IsIdChar(s[k])
  {
    if |s| == 0 then ""
    else
      assert forall k :: 1 <= k < |s| ==> s[k] == s[1..][k - 1];
      (if IsIdChar(s[0]) then [s[0]] else "") + KeepIdChars(s[1..])
  }

  /** The filter works piece by piece: the kept characters of a text are those of its parts, in order. */
  lemma {:induction false} KeepIdCharsConcat(a: string, b: string)
    ensures KeepIdChars(a + b) == KeepIdChars(a) + KeepIdChars(b)
    ensures |a| == 1 ==> KeepIdChars(a) == if IsIdChar(a[0]) then a else ""
    decreases |a|
  {
    if |a| > 0 {
      var head := if IsIdChar(a[0]) then [a[0]] else "";
      assert (a + b)[0] == a[0] && (a + b)[1..] == a[1..] + b;
      assert KeepIdChars(a + b) == head + KeepIdChars(a[1..] + b);
      assert KeepIdChars(a) == head + KeepIdChars(a[1..]);
      KeepIdCharsConcat(a[1..], b);
      if |a| == 1 {
        assert a[1..] == "" && head == (if IsIdChar(a[0]) then a else "");
      }
    } else {
      assert a + b == b;
    }
  }

  /** Text made of id characters only is kept whole. */
  lemma {:induction false} KeepIdCharsIdentity(s: string)
    requires forall k :: 0 <= k < |s| ==> IsIdChar(s[k])
    ensures KeepIdChars(s) == s
  {
    if |s| > 0 {
      KeepIdCharsIdentity(s[1..]);
    }
  }

  /**
   * `AppPackage.app_id`: the first character of the stripped ident if it is
   * alphanumeric, then the rest restricted to `[A-Za-z0-9_.-]`; a random hex
   * id when nothing is left. An ident that strips to nothing raises IndexError.
   */
  function AppId(ident: string, env: Env): (r: Result<string>)
    ensures r.Err? <==> Strip(ident) == ""
    ensures r.Err? ==> r.error.IndexError?
    ensures r.Ok? && r.value != env.uuidHex ==>
              (forall k :: 0 <= k < |r.value| ==> IsIdChar(r.value[k]))
              && |r.value| <= |Strip(ident)|
    ensures r.Ok? && IsAlnumChar(Strip(ident)[0]) ==> |r.value| > 0 && r.value[0] == Strip(ident)[0]
    ensures r.Ok? ==>
              var s := Strip(ident);
              (IsAlnumChar(s[0]) ==> r.value[1..] == KeepIdChars(s[1..]))
              && (!IsAlnumChar(s[0]) && (exists k :: 1 <= k < |s| && IsIdChar(s[k])) ==> r.value == KeepIdChars(s[1..]))
              && (!IsAlnumChar(s[0]) && (forall k :: 1 <= k < |s| ==> !IsIdChar(s[k])) ==> r.value == env.uuidHex)
  {
    var s := Strip(ident);
    if s == "" then Err(IndexError("string index out of range"))
    else
      var id := (if IsAlnumChar(s[0]) then [s[0]] else "") + KeepIdChars(s[1..]);
      if id == "" then Ok(env.uuidHex) else Ok(id)
  }

  /** An ident that is already a clean id comes out unchanged. */
  lemma AppIdOfCleanIdent(ident: string, env: Env)
    requires |ident| > 0 && IsAlnumChar(ident[0])
    requires forall k :: 0 <= k < |ident| ==> IsIdChar(ident[k])
    ensures AppId(ident, env) == Ok(ident)
  {
    assert !IsSpace(ident[0]);
    assert LStrip(ident) == ident;
    assert !IsSpace(ident[|ident| - 1]) by {
      assert IsIdChar(ident[|ident| - 1]);
    }
    assert RStrip(ident) == ident;
    KeepIdCharsIdentity(ident[1..]);
    assert [ident[0]] + ident[1..] == ident;
  }

  /** An id that starts with a letter or digit is its own id. */
  lemma AppIdSettles(ident: string, env: Env)
    requires AppId(ident, env).Ok? && IsAlnumChar(Strip(ident)[0])
    ensures AppId(AppId(ident, env).value, env) == AppId(ident, env)
  {
    var id := AppId(ident, env).value;
    AppIdOfCleanIdent(id, env);
  }

  // ----------------------------------------------------------- file config

  /** `CONTENT_TARGET_PATH / name` as text. */
  function ContentPath(name: string): string
  {
    ToString(Div(ContentTargetPath, name))
  }

  /** `CONTENT_TARGET_PATH / "files" / name` as text. */
  function FilesContentPath(name: string): string
  {
    ToString(Div(Div(ContentTargetPath, "files"), name))
  }

  /** A plain file name lands directly under `/data/contents` and `/data/contents/files`. */
  lemma ContentPaths(name: string)
    requires IsPart(name)
    ensures ContentPath(name) == "/data/contents/" + name
    ensures FilesContentPath(name) == "/data/contents/files/" + name
  {
    ContentPathOf(name);
    FilesContentPathOf(name);
  }

  lemma ContentPathOf(name: string)
    requires IsPart(name)
    ensures ContentPath(name) == "/data/contents/" + name
  {
    ContentTargetText();
    NameUnder(ContentTargetPath, "/data/contents", name);
    SlashAfter("/data/contents", name);
  }

  /** A '/' between a directory's text and a name belongs to the directory's prefix. */
  lemma SlashAfter(dir: string, name: string)
    ensures dir + "/" + name == (dir + "/") + name
  {
  }

  lemma FilesContentPathOf(name: string)
    requires IsPart(name)
    ensures FilesContentPath(name) == "/data/contents/files/" + name
  {
    FilesDirText();
    NameUnder(Div(ContentTargetPath, "files"), "/data/contents/files", name);
    assert "/data/contents/files" + "/" == "/data/contents/files/";
    SlashAfter("/data/contents/files", name);
  }

  /** A name under an absolute directory prints as the directory's text, '/', the name. */
  lemma NameUnder(dir: Path, text: string, name: string)
    requires WellFormed(dir) && dir.absolute && |dir.parts| > 0 && ToString(dir) == text
    requires IsPart(name)
    ensures ToString(Div(dir, name)) == text + "/" + name
  {
    DivName(dir, name);
  }

  /** `/data/contents/files` prints as itself. */
  lemma FilesDirText()
    ensures Div(ContentTargetPath, "files") == Path(true, ["data", "contents", "files"])
    ensures ToString(Div(ContentTargetPath, "files")) == "/data/contents/files"
  {
    ContentTargetText();
    assert IsPart("files");
    DivName(ContentTargetPath, "files");
    NameUnder(ContentTargetPath, "/data/contents", "files");
    SlashJoined("/data/contents", "files", "/data/contents/files");
  }

  /** Text, '/', and a name, spelled out as one literal. */
  lemma SlashJoined(dir: string, name: string, text: string)
    requires |dir| + 1 + |name| == |text| && text[..|dir|] == dir && text[|dir|] == '/' && text[|dir| + 1..] == name
    ensures dir + "/" + name == text
  {
  }

  /** `/data/contents` prints as itself. */
  lemma ContentTargetText()
    ensures ToString(ContentTargetPath) == "/data/contents"
  {
    assert Join(["data", "contents"], "/") == "data" + "/" + Join(["contents"], "/");
  }

  /** The record an optional size becomes: the int, or None. */
  function SizeOfOption(n: Option<int>): FileConfigs.SizeSpec
  {
    if n.Some? then FileConfigs.SizeInt(n.value) else FileConfigs.NoSize
  }

  /** A checksum as the file record carries it. */
  function ChecksumItems(c: Option<ChecksumValue>): Option<map<string, string>>
  {
    if c.Some? then Some(Checksums.ToDict(c.value)) else None
  }

  /**
   * The record `as_fileconfig` hands to `FileConfig(...)`. An app's is built
   * whether or not it has a download (the `has_file` test is on the bound
   * method, which is always true).
   */
  function FileConfigArgs(p: Package, env: Env): (fc: FileConfigs.FileConfig)
    requires p.AppPackage? || p.FilesPackage?
    ensures p.AppPackage? ==> fc.to == ContentPath(Filename(p, env)) && fc.url == p.appUrl
                              && fc.via == p.downloadVia && fc.content.None?
    ensures p.FilesPackage? ==> fc.to == FilesContentPath(Filename(p, env)) && fc.url == Some(p.filesUrl)
                                && fc.via == Some(p.via) && fc.content.None?
    ensures fc.size == SizeOfOption(if p.AppPackage? then p.appSize else p.filesSize)
    ensures fc.checksum == ChecksumItems(GetDownloadChecksum(p))
  {
    if p.AppPackage? then
      FileConfigs.FileConfig(ContentPath(Filename(p, env)), p.appUrl, None, p.downloadVia,
                             SizeOfOption(p.appSize), ChecksumItems(p.appChecksum))
    else
      FileConfigs.FileConfig(FilesContentPath(Filename(p, env)), Some(p.filesUrl), None, Some(p.via),
                             SizeOfOption(p.filesSize), ChecksumItems(p.filesChecksum))
  }

  /** `as_fileconfig()`: the record, checked by `FileConfig`'s own validation. */
  function AsFileConfig(p: Package, env: Env): (r: Result<FileConfigs.FileConfig>)
    requires p.AppPackage? || p.FilesPackage?
  {
    FileConfigs.NewFileConfig(FileConfigArgs(p, env), env.parseSize)
  }

  /**
   * `as_fileconfig` yields a record exactly when the download URL is set and
   * the handler is one `FileConfig` accepts; otherwise ValueError. For an
   * app without download this is an error rather than None.
   */
  lemma AsFileConfigOutcome(p: Package, env: Env)
    requires p.AppPackage? || p.FilesPackage?
    ensures var url := if p.AppPackage? then p.appUrl else Some(p.filesUrl);
            var via := if p.AppPackage? then p.downloadVia else Some(p.via);
            AsFileConfig(p, env).Ok? <==> Given(url) && via.Some? && via.value in FileConfigs.Ways
    ensures AsFileConfig(p, env).Err? ==> AsFileConfig(p, env).error.ValueError?
    ensures AsFileConfig(p, env).Ok? ==> AsFileConfig(p, env).value == FileConfigArgs(p, env)
  {
    var fc := FileConfigArgs(p, env);
    assert !FileConfigs.ContentTruthy(fc);
    assert !(fc.size.SizeText?);
  }

  /** The image an app runs, without download URL. */
  function AppImage(p: Package, env: Env): (img: OciImages.OCIImage)
    requires p.AppPackage?
    ensures img == OciImages.NewOCIImage(p.image, p.imageFilesize, p.imageFullsize, None, env)
  {
    OciImages.OCIImage(env.imageName(p.image), None, p.imageFilesize, p.imageFullsize)
  }

  /** `has_file()`: the app has a download URL. */
  predicate HasFile(p: Package)
    requires p.AppPackage?
  {
    Given(p.appUrl)
  }

  // ------------------------------------------------------- dashboard cards

  /** The "download" block of a dashboard card. */
  datatype Download = Download(url: string, size: int, checksum: Option<ChecksumValue>)

  /** A dashboard card (`to_dashboard_entry`'s dictionary). */
  datatype Entry = Entry(ident: string, kind: string, title: string, description: string,
                         languages: Option<seq<string>>, tags: seq<string>, url: string, icon: string,
                         download: Option<Download>)

  /** `str(download_fqdn)`: None prints as "None". */
  function StrOfOption(s: Option<string>): string
  {
    if s.Some? then s.value else "None"
  }

  /**
   * `to_dashboard_entry(fqdn, kiwix_domain, download_fqdn)`. The download
   * block is added when the download URL and size are both truthy, with
   * the checksum only when there is one.
   */
  function ToDashboardEntry(p: Package, fqdn: string, kiwixDomain: string, downloadFqdn: Option<string>,
                            env: Env): (e: Entry)
    ensures e.ident == p.info.ident && e.kind == p.info.kind && e.title == p.info.title
    ensures e.description == p.info.description && e.languages == p.info.languages && e.tags == p.info.tags
    ensures e.url == GetUrl(p, fqdn, kiwixDomain, env)
    ensures e.icon == if Given(p.info.iconUrl) then env.base64From(p.info.iconUrl.value) else ""
    ensures e.download.Some? <==> p.ZimPackage? && p.downloadSize != 0
    ensures e.download.Some? ==>
              e.download.value == Download("//" + StrOfOption(downloadFqdn) + "/" + Filename(p, env),
                                           p.downloadSize, p.downloadChecksum)
  {
    var dlUrl := GetDownloadUrl(p, StrOfOption(downloadFqdn), env);
    var dlSize := GetDownloadSize(p);
    var download :=
      if Given(dlUrl) && dlSize.Some? && dlSize.value != 0
      then Some(Download(dlUrl.value, dlSize.value, GetDownloadChecksum(p)))
      else None;
    Entry(p.info.ident, p.info.kind, p.info.title, p.info.description, p.info.languages, p.info.tags,
          GetUrl(p, fqdn, kiwixDomain, env),
          if Given(p.info.iconUrl) then env.base64From(p.info.iconUrl.value) else "",
          download)
  }

  /**
   * Apps, file bundles and plain packages never offer a download on the
   * dashboard, whatever their own download fields hold.
   */
  lemma OnlyZimsOfferDownloads(p: Package, fqdn: string, kiwixDomain: string, downloadFqdn: Option<string>, env: Env)
    requires !p.ZimPackage?
    ensures ToDashboardEntry(p, fqdn, kiwixDomain, downloadFqdn, env).download.None?
  {
  }

  /**
   * A ZIM of non-zero size offers a download even when no download host is
   * given: the URL then names the host "None".
   */
  lemma ZimDownloadWithoutHost(p: Package, fqdn: string, kiwixDomain: string, env: Env)
    requires p.ZimPackage? && p.downloadSize != 0
    ensures ToDashboardEntry(p, fqdn, kiwixDomain, None, env).download.Some?
    ensures ToDashboardEntry(p, fqdn, kiwixDomain, None, env).download.value.url
            == "//None/" + Filename(p, env)
  {
  }
}
