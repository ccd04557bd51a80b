/**
 * A file to place on the data partition: its validated destination, how it
 * is written, where its bytes come from, and its lazily fetched size.
 */
module Files {
  import opened Wrappers
  import opened Strings
  import opened Paths
  import opened Checksums
  import opened Constants
  import opened Collaborators

  /** A dictionary entry that may be missing, hold None, or hold a value. */
  datatype Field<T> = Absent | Null | Given(v: T)

  /** An `int` or `str` entry of the payload. */
  datatype Scalar = IntValue(i: int) | TextValue(s: string)

  /**
   * The payload dictionary `File` is built from. `content` is None when the
   * key is missing or holds None; `checksum`, `size` and `fullsize` are None
   * when the key is missing or holds a value of another type.
   */
  datatype Payload = Payload(
    to: string,
    url: Field<string>,
    content: Option<string>,
    via: Field<string>,
    checksum: Option<map<string, string>>,
    size: Option<Scalar>,
    fullsize: Option<Scalar>)

  /** The `via` handlers `File` accepts. */
  const UnpackFormats: seq<string> := ["direct", "base64"] + SupportedUnpackingFormats

  /**
   * A numeral `int()` accepts after its sign: ASCII digits, where an
   * underscore may stand between two digits.
   */
  predicate IsNumeral(d: string)
  {
    |d| > 0 && IsDigitChar(d[0])
    && (forall i :: 0 <= i < |d| ==> IsDigitChar(d[i]) || d[i] == '_')
    && (forall i :: 0 <= i < |d| && d[i] == '_' ==> i + 1 < |d| && IsDigitChar(d[i + 1]))
  }

  /** The text without its underscores. */
  function WithoutUnderscores(s: string): (r: string)
    ensures |r| <= |s|
    ensures forall i :: 0 <= i < |r| ==> r[i] != '_'
    ensures (forall i :: 0 <= i < |s| ==> IsDigitChar(s[i]) || s[i] == '_') ==> forall i :: 0 <= i < |r| ==> IsDigitChar(r[i])
    ensures |s| > 0 && s[0] != '_' ==> |r| > 0 && r[0] == s[0]
    ensures (forall i :: 0 <= i < |s| ==> s[i] != '_') ==> r == s
  {
    if |s| == 0 then ""
    else
      assert forall i :: 1 <= i < |s| ==> s[1..][i - 1] == s[i];
      (if s[0] == '_' then "" else [s[0]]) + WithoutUnderscores(s[1..])
  }

  /** The numeral of a text for `int()`: the stripped text less one leading sign. */
  function Unsigned(t: string): string
  {
    if |t| > 0 && (t[0] == '-' || t[0] == '+') then t[1..] else t
  }

  /**
   * Python's `int(x)` on an int, or on a text of white space, an optional
   * sign and a numeral, whose value is that of its digits.
   */
  function PyInt(x: Scalar): (r: Option<int>)
    ensures x.IntValue? ==> r == Some(x.i)
    ensures x.TextValue? ==> (r.Some? <==> IsNumeral(Unsigned(Strip(x.s))))
    ensures x.TextValue? && r.Some? ==>
              var t := Strip(x.s);
              r.value == (if t[0] == '-' then -1 else 1) * ParseDigits(WithoutUnderscores(Unsigned(t)))
    ensures x.TextValue? && IsDigits(Strip(x.s)) ==> r == Some(ParseDigits(Strip(x.s)))
    ensures x.TextValue? && Strip(x.s) == "" ==> r.None?
  {
    match x
    case IntValue(i) => Some(i)
    case TextValue(s) =>
      var t := Strip(s);
      var digits := Unsigned(t);
      if !IsNumeral(digits) then None
      else
        var n := ParseDigits(WithoutUnderscores(digits));
        if t[0] == '-' then Some(0 - n) else Some(n)
  }

  /** `int()` passes over an underscore between two runs of digits: `int("1_000") == 1000`. */
  lemma UnderscoreIgnored(a: string, b: string)
    requires IsDigits(a) && IsDigits(b)
    ensures PyInt(TextValue(a + "_" + b)) == PyInt(TextValue(a + b)) == Some(ParseDigits(a + b))
  {
    var s := a + "_" + b;
    DigitsJoined(a, b);
    StripUnspaced(s);
    StripUnspaced(a + b);
    UnderscoreDropped(a, b);
    var p := PyInt(TextValue(s));
    assert p.Some? && p.value == 1 * ParseDigits(WithoutUnderscores(s));
  }

  /** Leaving out the underscore between two runs of digits joins them. */
  lemma UnderscoreDropped(a: string, b: string)
    requires IsDigits(a) && IsDigits(b)
    ensures WithoutUnderscores(a + "_" + b) == a + b
  {
    var tail := "_" + b;
    assert a + "_" + b == a + tail;
    WithoutUnderscoresConcat(a, tail);
    assert tail[0] == '_' && tail[1..] == b;
    assert WithoutUnderscores(tail) == WithoutUnderscores(b);
    assert forall i :: 0 <= i < |a| ==> a[i] != '_';
    assert WithoutUnderscores(a) == a;
    assert forall i :: 0 <= i < |b| ==> b[i] != '_';
    assert WithoutUnderscores(b) == b;
  }

  /** Two runs of digits joined, directly or by one underscore, form a numeral. */
  lemma DigitsJoined(a: string, b: string)
    requires IsDigits(a) && IsDigits(b)
    ensures IsDigits(a + b) && IsNumeral(a + "_" + b)
    ensures (a + b)[0] == a[0] && (a + "_" + b)[0] == a[0]
    ensures (a + b)[|a + b| - 1] == b[|b| - 1] && (a + "_" + b)[|a + "_" + b| - 1] == b[|b| - 1]
  {
    var s := a + "_" + b;
    forall i | 0 <= i < |a + b|
      ensures IsDigitChar((a + b)[i])
    {
      if i < |a| { assert (a + b)[i] == a[i]; } else { assert (a + b)[i] == b[i - |a|]; }
    }
    forall i | 0 <= i < |s|
      ensures IsDigitChar(s[i]) || s[i] == '_'
      ensures s[i] == '_' ==> i + 1 < |s| && IsDigitChar(s[i + 1])
    {
      if i < |a| { assert s[i] == a[i]; }
      else if i == |a| { assert s[i + 1] == b[0]; }
      else { assert s[i] == b[i - |a| - 1]; }
    }
  }

  /** A text starting and ending with a digit is its own `strip()`. */
  lemma StripUnspaced(s: string)
    requires |s| > 0 && IsDigitChar(s[0]) && IsDigitChar(s[|s| - 1])
    ensures Strip(s) == s && Unsigned(s) == s
  {
    assert LStrip(s) == s;
  }

  lemma {:induction false} WithoutUnderscoresConcat(a: string, b: string)
    ensures WithoutUnderscores(a + b) == WithoutUnderscores(a) + WithoutUnderscores(b)
    decreases |a|
  {
    if |a| > 0 {
      assert (a + b)[0] == a[0] && (a + b)[1..] == a[1..] + b;
      WithoutUnderscoresConcat(a[1..], b);
    } else {
      assert a + b == b;
    }
  }

  /** The state of a `File` object. */
  datatype FileData = FileData(
    to: Path,
    via: string,
    content: string,
    url: Option<Url>,
    checksum: Option<ChecksumValue>,
    size: int,
    fullsize: Option<int>)

  /** `str(payload.get("via", "direct"))`. */
  function ViaOf(p: Payload): string
  {
    match p.via
    case Absent => "direct"
    case Null => "None"
    case Given(v) => v
  }

  /** `str(payload.get("content", "") or "").strip()`. */
  function ContentOf(p: Payload): string
  {
    Strip(p.content.GetOr(""))
  }

  /** `str(payload["url"])`, for a payload that has the key. */
  function UrlTextOf(p: Payload): string
    requires !p.url.Absent?
  {
    if p.url.Null? then "None" else p.url.v
  }

  /** The checks of `File.__init__`, in order, each one raising. */
  function NewFile(p: Payload, env: Env): (r: Result<FileData>)
    ensures ContentOf(p) == "" && p.url.Absent? ==> r.Err? && r.error.ValueError?
    ensures !IsRelativeTo(Resolve(p.to, env.cwd), DataPartPath) ==> r.Err?
    ensures ViaOf(p) !in UnpackFormats ==> r.Err?
    ensures r.Ok? ==> r.value.to == Resolve(p.to, env.cwd) && IsRelativeTo(r.value.to, DataPartPath)
    ensures r.Ok? ==> r.value.via == ViaOf(p) && r.value.via in UnpackFormats
    ensures r.Ok? ==> r.value.content == ContentOf(p)
    ensures r.Ok? ==> (r.value.url.Some? <==> r.value.content == "")
    ensures r.Ok? && r.value.url.Some? ==> r.value.url.value.text == UrlTextOf(p)
    ensures r.Ok? ==> (if p.size.Some? then PyInt(p.size.value) == Some(r.value.size) else r.value.size == -1)
    ensures r.Ok? ==> (r.value.checksum.Some? <==> p.checksum.Some?)
  {
    var to := Resolve(p.to, env.cwd);
    var via := ViaOf(p);
    var content := ContentOf(p);
    if content == "" && p.url.Absent? then
      Err(ValueError("URL “None” is incorrect"))
    else if !IsRelativeTo(to, DataPartPath) then
      Err(ValueError(ToString(to) + " not a descendent of /data"))
    else if via !in UnpackFormats then
      Err(NotImplementedError("Unsupported handler `" + via + "`"))
    else
      var checksum := if p.checksum.Some? then Some(FromDict(p.checksum.value)) else None;
      var size := if p.size.Some? then PyInt(p.size.value) else Some(-1);
      var fullsize := if p.fullsize.Some? then Some(PyInt(p.fullsize.value)) else None;
      if checksum.Some? && checksum.value.Err? then Err(checksum.value.error)
      else if size.None? then Err(ValueError("invalid literal for int()"))
      else if fullsize.Some? && fullsize.value.None? then Err(ValueError("invalid literal for int()"))
      else
        Ok(FileData(
             to, via, content,
             if content == "" then Some(ParseUrl(UrlTextOf(p))) else None,
             if checksum.Some? then Some(checksum.value.value) else None,
             size.value,
             if fullsize.Some? then Some(fullsize.value.value) else None))
  }

  /** A payload with a URL, no content and no size builds the file that downloads that URL. */
  lemma NewFileFromUrl(p: Payload, env: Env)
    requires ContentOf(p) == "" && p.url.Given? && p.size.None? && p.fullsize.None?
    requires ViaOf(p) in UnpackFormats && IsRelativeTo(Resolve(p.to, env.cwd), DataPartPath)
    requires p.checksum.Some? ==> FromDict(p.checksum.value).Ok?
    ensures NewFile(p, env)
            == Ok(FileData(Resolve(p.to, env.cwd), ViaOf(p), "", Some(ParseUrl(p.url.v)),
                           if p.checksum.Some? then Some(FromDict(p.checksum.value).value) else None,
                           -1, None))
  {
  }

  /** `is_plain`: there is text content to write. */
  predicate IsPlain(d: FileData)
  {
    d.content != ""
  }

  /** `is_local`: a `file:` URL and no content. */
  predicate IsLocal(d: FileData)
  {
    !IsPlain(d) && d.url.Some? && d.url.value.scheme == "file"
  }

  /** `is_remote`: a URL of any other scheme and no content. */
  predicate IsRemote(d: FileData)
  {
    d.content == "" && d.url.Some? && d.url.value.scheme != "file"
  }

  /** A constructed file is exactly one of plain, local and remote. */
  lemma ExactlyOneKind(p: Payload, env: Env)
    requires NewFile(p, env).Ok?
    ensures var d := NewFile(p, env).value;
            (IsPlain(d) || IsLocal(d) || IsRemote(d))
            && !(IsPlain(d) && IsLocal(d)) && !(IsPlain(d) && IsRemote(d)) && !(IsLocal(d) && IsRemote(d))
  {
  }

  /** `geturl()`: the URL text, or "" without a URL. */
  function GetUrl(d: FileData): string
  {
    if d.url.Some? then d.url.value.text else ""
  }

  /** What `fetch_size` asks for: the host's file size for a local file, the remote size otherwise. */
  function FetchedSize(d: FileData, env: Env): int
  {
    if IsLocal(d) then env.localSize(ToString(Resolve(d.url.value.path, env.cwd)))
    else env.onlineSize(GetUrl(d))
  }

  /** The state after `fetch_size(force=force)`. */
  function FetchStep(d: FileData, force: bool, env: Env): FileData
  {
    if !force && d.size >= 0 then d else d.(size := FetchedSize(d, env))
  }

  /** The value of the `size` property. */
  function SizeOf(d: FileData, env: Env): int
  {
    if d.size < 0 then FetchedSize(d, env) else d.size
  }

  /** The value of the `fullsize` property: a non-zero declared full size, else the size. */
  function FullsizeOf(d: FileData, env: Env): int
  {
    if d.fullsize.Some? && d.fullsize.value != 0 then d.fullsize.value else SizeOf(d, env)
  }

  /** Once a fetch stored a usable size, later unforced fetches return it and change nothing. */
  lemma FetchCaches(d: FileData, force: bool, env: Env, later: Env)
    requires FetchStep(d, force, env).size >= 0
    ensures FetchStep(FetchStep(d, force, env), false, later) == FetchStep(d, force, env)
    ensures SizeOf(FetchStep(d, force, env), later) == FetchStep(d, force, env).size
  {
  }

  /** A failed lookup (a negative sentinel) is not cached: the next read asks again. */
  lemma FailedFetchRetried(d: FileData, env: Env)
    requires d.size < 0 && FetchedSize(d, env) < 0
    ensures FetchStep(d, false, env).size < 0
    ensures SizeOf(FetchStep(d, false, env), env) == FetchedSize(d, env)
  {
  }

  /** `mounted_to(m)`: the destination moved from under `/data` to under `m`. */
  function MountedTo(d: FileData, m: Path): (r: Path)
    requires IsRelativeTo(d.to, DataPartPath)
    ensures r.absolute == m.absolute
    ensures r.parts == m.parts + d.to.parts[|DataPartPath.parts|..]
  {
    JoinPath(m, RelativeTo(d.to, DataPartPath).value)
  }

  /** A `File` object. */
  class File {
    var to: Path
    var via: string
    var content: string
    var url: Option<Url>
    var checksum: Option<ChecksumValue>
    var cachedSize: int
    var declaredFullsize: Option<int>

    function Data(): FileData
      reads this
    {
      FileData(to, via, content, url, checksum, cachedSize, declaredFullsize)
    }

    constructor (d: FileData)
      ensures Data() == d
    {
      to := d.to;
      via := d.via;
      content := d.content;
      url := d.url;
      checksum := d.checksum;
      cachedSize := d.size;
      declaredFullsize := d.fullsize;
    }

    /** `File(payload)`, or the exception its constructor raises. */
    static method Create(p: Payload, env: Env) returns (r: Result<File>)
      ensures r.Ok? <==> NewFile(p, env).Ok?
      ensures r.Ok? ==> fresh(r.value) && r.value.Data() == NewFile(p, env).value
      ensures r.Err? ==> r.error == NewFile(p, env).error
    {
      var d := NewFile(p, env);
      if d.Err? {
        return Err(d.error);
      }
      var f := new File(d.value);
      return Ok(f);
    }

    /** `fetch_size(force=…)`: asks the host or the network unless a size is cached. */
    method FetchSize(force: bool, env: Env) returns (r: int)
      modifies this
      ensures Data() == FetchStep(old(Data()), force, env)
      ensures r == cachedSize
    {
      if !force && cachedSize >= 0 {
        return cachedSize;
      }
      if content == "" && url.Some? && url.value.scheme == "file" {
        cachedSize := env.localSize(ToString(Resolve(url.value.path, env.cwd)));
      } else {
        cachedSize := env.onlineSize(if url.Some? then url.value.text else "");
      }
      return cachedSize;
    }

    /** The `size` property. */
    method Size(env: Env) returns (r: int)
      modifies this
      ensures r == SizeOf(old(Data()), env)
      ensures Data() == FetchStep(old(Data()), false, env)
    {
      if cachedSize < 0 {
        r := FetchSize(false, env);
        return;
      }
      return cachedSize;
    }

    /** The `fullsize` property. */
    method Fullsize(env: Env) returns (r: int)
      modifies this
      ensures r == FullsizeOf(old(Data()), env)
      ensures Data() == if old(declaredFullsize).Some? && old(declaredFullsize).value != 0 then old(Data())
                        else FetchStep(old(Data()), false, env)
    {
      if declaredFullsize.Some? && declaredFullsize.value != 0 {
        return declaredFullsize.value;
      }
      r := Size(env);
    }
  }
}
