/** The dashboard's reader downloads and extra links. */
module Dashboard {
  import opened Wrappers
  import opened Strings
  import opened Values
  import opened Paths
  import opened Checksums
  import opened Collaborators

  /** A downloadable Kiwix reader for one platform. */
  datatype Reader = Reader(platform: string, downloadUrl: string, filename: string, size: int,
                           checksum: Option<ChecksumValue> := None)

  /** `order`: windows, android, macos and linux first, in that order; any other platform last. */
  function Order(r: Reader): (n: nat)
    ensures n <= 4
    ensures n == 4 <==> r.platform !in ["windows", "android", "macos", "linux"]
    ensures n < 4 ==> ["windows", "android", "macos", "linux"][n] == r.platform
  {
    var known := map["windows" := 0, "android" := 1, "macos" := 2, "linux" := 3];
    if r.platform in known then known[r.platform] else 4
  }

  /** `Reader.sort`, the sorting key. */
  function Sort(r: Reader): (n: nat)
    ensures n == Order(r)
  {
    Order(r)
  }

  /** Two readers of different known platforms never share a sorting key. */
  lemma SortKeysDistinct(a: Reader, b: Reader)
    requires Sort(a) < 4 && Sort(b) < 4
    ensures Sort(a) == Sort(b) <==> a.platform == b.platform
  {
  }

  /** `filename_from_url(url)`: the last part of the URL's path. */
  function FilenameFromUrl(url: string): string
  {
    Name(Parse(ParseUrl(url).path))
  }

  /** For a `scheme://host/path` URL the file name is the name of the path. */
  lemma FilenameOfPath(scheme: string, host: string, path: string)
    requires IsScheme(scheme)
    requires forall k :: 0 <= k < |host| ==> host[k] != '/' && host[k] != '?' && host[k] != '#'
    requires |path| > 0 && path[0] == '/' && PlainUrlText(path)
    ensures FilenameFromUrl(scheme + "://" + host + path) == Name(Parse(path))
  {
    ParseUrlParts(scheme, host, path);
  }

  /**
   * For a `scheme://host/dir/name` URL, the file name is `name`, and a
   * trailing slash makes no difference.
   */
  lemma FilenameIsLastSegment(scheme: string, host: string, dir: string, name: string)
    requires IsScheme(scheme)
    requires forall k :: 0 <= k < |host| ==> host[k] != '/' && host[k] != '?' && host[k] != '#'
    requires PlainUrlText(dir) && PlainUrlText(name) && IsPart(name)
    ensures FilenameFromUrl(scheme + "://" + host + ("/" + dir + "/" + name)) == name
    ensures FilenameFromUrl(scheme + "://" + host + ("/" + dir + "/" + name + "/")) == name
  {
    var path := "/" + dir + "/" + name;
    PlainConcat("/", dir);
    PlainConcat("/" + dir, "/");
    PlainConcat("/" + dir + "/", name);
    PlainConcat(path, "/");
    FilenameOfPath(scheme, host, path);
    FilenameOfPath(scheme, host, path + "/");
    NameOfLast("/" + dir, name);
    TrailingSlashIgnored(path);
  }

  /** Text without `?` or `#` stays so when joined. */
  lemma PlainConcat(a: string, b: string)
    requires PlainUrlText(a)
    requires PlainUrlText(b)
    ensures PlainUrlText(a + b)
  {
    assert forall k :: 0 <= k < |a + b| ==> (a + b)[k] == if k < |a| then a[k] else b[k - |a|];
  }

  /** `Reader.using(platform, download_url, checksum)`: name from the URL, size from the network. */
  function Using(platform: string, downloadUrl: string, checksum: Option<ChecksumValue>, env: Env): (r: Reader)
    ensures r.platform == platform && r.downloadUrl == downloadUrl && r.checksum == checksum
    ensures r.filename == FilenameFromUrl(downloadUrl) && r.size == env.onlineSize(downloadUrl)
  {
    Reader(platform, downloadUrl, FilenameFromUrl(downloadUrl), env.onlineSize(downloadUrl), checksum)
  }

  /** A checksum's `to_dict` as a dictionary value. */
  function ChecksumDictValue(c: ChecksumValue): Value
  {
    Dict(map["algo" := Str(c.algo), "value" := Str(c.value), "kind" := Str(c.kind)])
  }

  /** `Reader.to_dict()`: the five fields, the checksum through its own `to_dict` or None. */
  function ReaderToDict(r: Reader): (d: map<string, Value>)
    ensures d.Keys == {"platform", "download_url", "filename", "size", "checksum"}
    ensures d["platform"] == Str(r.platform) && d["download_url"] == Str(r.downloadUrl)
    ensures d["filename"] == Str(r.filename) && d["size"] == Int(r.size)
    ensures d["checksum"] == (if r.checksum.Some? then ChecksumDictValue(r.checksum.value) else Null)
  {
    map["platform" := Str(r.platform), "download_url" := Str(r.downloadUrl),
        "filename" := Str(r.filename), "size" := Int(r.size),
        "checksum" := if r.checksum.Some? then ChecksumDictValue(r.checksum.value) else Null]
  }

  /** Reads a reader back from its dictionary. */
  function ReaderFromDict(d: map<string, Value>): Option<Reader>
  {
    if "platform" in d && "download_url" in d && "filename" in d && "size" in d && "checksum" in d
       && d["platform"].Str? && d["download_url"].Str? && d["filename"].Str? && d["size"].Int?
    then
      var c := d["checksum"];
      if c.Null? then Some(Reader(d["platform"].s, d["download_url"].s, d["filename"].s, d["size"].i, None))
      else if c.Dict? && c.entries.Keys == {"algo", "value", "kind"}
              && c.entries["algo"].Str? && c.entries["value"].Str? && c.entries["kind"].Str?
      then Some(Reader(d["platform"].s, d["download_url"].s, d["filename"].s, d["size"].i,
                       Some(ChecksumValue(c.entries["algo"].s, c.entries["value"].s, c.entries["kind"].s))))
      else None
    else None
  }

  /** `to_dict` keeps every field of a reader. */
  lemma ReaderDictRoundTrip(r: Reader)
    ensures ReaderFromDict(ReaderToDict(r)) == Some(r)
  {
  }

  /** A link to an arbitrary resource; the icon defaults to "". */
  datatype Link = Link(caption: string, url: string, icon: string := "")

  /** `Link.to_dict()`: label, url and icon. */
  function LinkToDict(l: Link): (d: map<string, string>)
    ensures d.Keys == {"label", "url", "icon"}
    ensures d["label"] == l.caption && d["url"] == l.url && d["icon"] == l.icon
  {
    map["label" := l.caption, "url" := l.url, "icon" := l.icon]
  }

  /** A link is fully recovered from its dictionary. */
  lemma LinkDictRoundTrip(l: Link)
    ensures var d := LinkToDict(l); Link(d["label"], d["url"], d["icon"]) == l
  {
  }
}
