/**
 * A lexical model of Python's `pathlib.PurePosixPath`, `Path.resolve` and the
 * path part of `urllib.parse.urlparse`.
 */
module Paths {
  import opened Wrappers
  import opened Strings

  /** A POSIX path: whether it starts at the root, and its parts. */
  datatype Path = Path(absolute: bool, parts: seq<string>)

  /** A part pathlib keeps: not empty, not ".", and no separator inside. */
  predicate IsPart(p: string)
  {
    p != "" && p != "." && '/' !in p
  }

  predicate WellFormed(p: Path)
  {
    forall k :: 0 <= k < |p.parts| ==> IsPart(p.parts[k])
  }

  /** Drops the empty and "." pieces of a split path. */
  function KeepParts(pieces: seq<string>): (r: seq<string>)
    requires forall k :: 0 <= k < |pieces| ==> '/' !in pieces[k]
    ensures forall k :: 0 <= k < |r| ==> IsPart(r[k])
  {
    if |pieces| == 0 then []
    else
      var rest := KeepParts(pieces[1..]);
      if pieces[0] == "" || pieces[0] == "." then rest else [pieces[0]] + rest
  }

  /** The parts pathlib finds in `s` (the root excluded). */
  function PartsOf(s: string): (r: seq<string>)
    ensures forall k :: 0 <= k < |r| ==> IsPart(r[k])
  {
    SplitJoin(s, '/');
    KeepParts(Split(s, '/'))
  }

  /** `PurePosixPath(s)`. */
  function Parse(s: string): (r: Path)
    ensures WellFormed(r)
  {
    Path(|s| > 0 && s[0] == '/', PartsOf(s))
  }

  /** `str(p)`. */
  function ToString(p: Path): string
  {
    if p.absolute then "/" + Join(p.parts, "/")
    else if |p.parts| == 0 then "."
    else Join(p.parts, "/")
  }

  /** `p / rel`: an absolute `rel` replaces `p`. */
  function Div(p: Path, rel: string): (r: Path)
    requires WellFormed(p)
    ensures WellFormed(r)
  {
    var q := Parse(rel);
    if q.absolute then q else Path(p.absolute, p.parts + q.parts)
  }

  /** Folds ".." lexically over `parts`, starting from the absolute path `acc`. */
  function Fold(acc: seq<string>, parts: seq<string>): (r: seq<string>)
    requires forall k :: 0 <= k < |acc| ==> IsPart(acc[k]) && acc[k] != ".."
    requires forall k :: 0 <= k < |parts| ==> IsPart(parts[k])
    ensures forall k :: 0 <= k < |r| ==> IsPart(r[k]) && r[k] != ".."
    decreases |parts|
  {
    if |parts| == 0 then acc
    else if parts[0] == ".." then Fold(if |acc| == 0 then [] else acc[..|acc| - 1], parts[1..])
    else Fold(acc + [parts[0]], parts[1..])
  }

  /** A resolved directory: absolute, without "..". */
  predicate IsResolved(p: Path)
  {
    p.absolute && WellFormed(p) && forall k :: 0 <= k < |p.parts| ==> p.parts[k] != ".."
  }

  /** `Path(s).resolve()` without symbolic links: relative paths start at the directory `cwd`. */
  function Resolve(s: string, cwd: string): (r: Path)
    ensures IsResolved(r)
  {
    var p := Parse(s);
    Path(true, Fold(if p.absolute then [] else Fold([], Parse(cwd).parts), p.parts))
  }

  /** `p.is_relative_to(base)`. */
  predicate IsRelativeTo(p: Path, base: Path)
  {
    p.absolute == base.absolute && base.parts <= p.parts
  }

  /** `p.relative_to(base)`, which raises ValueError outside `base`. */
  function RelativeTo(p: Path, base: Path): (r: Result<Path>)
    ensures r.Ok? <==> IsRelativeTo(p, base)
    ensures r.Ok? ==> !r.value.absolute && base.parts + r.value.parts == p.parts
  {
    if IsRelativeTo(p, base) then Ok(Path(false, p.parts[|base.parts|..]))
    else Err(ValueError(ToString(p) + " is not in the subpath of " + ToString(base)))
  }

  /** `p.joinpath(q)` for a relative `q`. */
  function JoinPath(p: Path, q: Path): Path
  {
    if q.absolute then q else Path(p.absolute, p.parts + q.parts)
  }

  /** `p.name`: the last part, or "" when there is none. */
  function Name(p: Path): string
  {
    if |p.parts| == 0 then "" else p.parts[|p.parts| - 1]
  }

  /** Splitting text without a separator yields the text alone. */
  lemma {:induction false} SplitAbsent(s: string, c: char)
    requires c !in s
    ensures Split(s, c) == [s]
    decreases |s|
  {
    if |s| > 0 {
      assert c !in s[1..];
      SplitAbsent(s[1..], c);
      assert [s[0]] + s[1..] == s;
    }
  }

  /** `PurePosixPath(d) / name` is `d + "/" + name` for a plain file name. */
  lemma DivName(p: Path, name: string)
    requires WellFormed(p) && p.absolute
    requires IsPart(name)
    ensures Div(p, name) == Path(true, p.parts + [name])
    ensures |p.parts| > 0 ==> ToString(Div(p, name)) == ToString(p) + "/" + name
  {
    SplitAbsent(name, '/');
    assert [name][1..] == [];
    assert KeepParts([name]) == [name];
    if |p.parts| > 0 {
      JoinSnoc(p.parts, name, "/");
    }
  }

  lemma {:induction false} JoinSnoc(parts: seq<string>, x: string, sep: string)
    requires |parts| > 0
    ensures Join(parts + [x], sep) == Join(parts, sep) + sep + x
    decreases |parts|
  {
    if |parts| == 1 {
      assert (parts + [x])[1..] == [x];
    } else {
      assert (parts + [x])[1..] == parts[1..] + [x];
      JoinSnoc(parts[1..], x, sep);
    }
  }

  /** Splitting text that holds a separator splits each side on its own. */
  lemma {:induction false} SplitConcat(x: string, y: string, c: char)
    ensures Split(x + [c] + y, c) == Split(x, c) + Split(y, c)
    decreases |x|
  {
    if |x| == 0 {
      assert x + [c] + y == [c] + y;
      assert ([c] + y)[1..] == y;
    } else {
      var s := x + [c] + y;
      assert s[0] == x[0];
      assert s[1..] == x[1..] + [c] + y;
      SplitConcat(x[1..], y, c);
    }
  }

  /** `Path("/a/b").resolve()` for two plain parts. */
  lemma ResolveTwoParts(a: string, b: string, cwd: string)
    requires IsPart(a) && IsPart(b) && a != ".." && b != ".."
    ensures Resolve("/" + a + "/" + b, cwd) == Path(true, [a, b])
  {
    var s := "/" + a + "/" + b;
    assert s == "" + ['/'] + (a + ['/'] + b);
    SplitConcat("", a + ['/'] + b, '/');
    SplitConcat(a, b, '/');
    SplitAbsent(a, '/');
    SplitAbsent(b, '/');
    assert Split(s, '/') == ["", a, b];
    assert ["", a, b][1..] == [a, b];
    assert [a, b][1..] == [b];
    assert [b][1..] == [];
    assert KeepParts([b]) == [b];
    assert KeepParts([a, b]) == [a] + KeepParts([b]);
    assert KeepParts(["", a, b]) == KeepParts([a, b]);
    assert Parse(s) == Path(true, [a, b]);
    assert [] + [a] == [a] && [a] + [b] == [a, b];
    assert Fold([], [a, b]) == Fold([a], [b]);
    assert Fold([a], [b]) == Fold([a, b], []);
  }

  /** Dropping empty and "." pieces works piece by piece. */
  lemma {:induction false} KeepPartsConcat(a: seq<string>, b: seq<string>)
    requires forall k :: 0 <= k < |a| ==> '/' !in a[k]
    requires forall k :: 0 <= k < |b| ==> '/' !in b[k]
    ensures KeepParts(a + b) == KeepParts(a) + KeepParts(b)
    decreases |a|
  {
    if |a| > 0 {
      assert (a + b)[1..] == a[1..] + b;
      assert (a + b)[0] == a[0];
      KeepPartsConcat(a[1..], b);
    } else {
      assert a + b == b;
    }
  }

  /** A trailing separator adds no part, so `name` ignores it. */
  lemma TrailingSlashIgnored(s: string)
    ensures PartsOf(s + "/") == PartsOf(s)
    ensures Name(Parse(s + "/")) == Name(Parse(s))
  {
    assert s + "/" == s + ['/'] + "";
    SplitConcat(s, "", '/');
    SplitJoin(s, '/');
    assert Split("", '/') == [""];
    KeepPartsConcat(Split(s, '/'), [""]);
    assert [""][1..] == [];
    assert KeepParts([""]) == [];
    if |s| > 0 && s[0] == '/' {
      assert (s + "/")[0] == '/';
    }
  }

  /** The name of `dir/name` is `name`, for a plain name. */
  lemma NameOfLast(dir: string, name: string)
    requires IsPart(name)
    ensures Name(Parse(dir + "/" + name)) == name
  {
    assert dir + "/" + name == dir + ['/'] + name;
    SplitConcat(dir, name, '/');
    SplitJoin(dir, '/');
    SplitAbsent(name, '/');
    KeepPartsConcat(Split(dir, '/'), [name]);
    assert [name][1..] == [];
    assert KeepParts([name]) == [name];
  }

  // ------------------------------------------------------------- urlparse

  /** The result of `urllib.parse.urlparse`, reduced to the fields read here. */
  datatype Url = Url(text: string, scheme: string, path: string)

  predicate IsSchemeChar(c: char)
  {
    IsAlnumChar(c) || c == '+' || c == '-' || c == '.'
  }

  /** Index of the first of `stops` in `s`, or `|s|`. */
  function FirstOf(s: string, stops: set<char>): (i: nat)
    ensures i <= |s|
    ensures forall k :: 0 <= k < i ==> s[k] !in stops
    ensures i < |s| ==> s[i] in stops
  {
    if |s| == 0 || s[0] in stops then 0 else 1 + FirstOf(s[1..], stops)
  }

  /** The scheme (lower-cased, "" when there is none) and what follows its colon. */
  function SplitScheme(text: string): (string, string)
  {
    var colon := FirstOf(text, {':'});
    var hasScheme := 0 < colon < |text| && IsAlphaChar(text[0])
                     && forall k :: 0 <= k < colon ==> IsSchemeChar(text[k]);
    if hasScheme then (Lower(text[..colon]), text[colon + 1..]) else ("", text)
  }

  /** The path of what follows the scheme: no netloc, query or fragment. */
  function PathOf(rest: string): string
  {
    var afterNetloc := if |rest| >= 2 && rest[..2] == "//"
                       then rest[2 + FirstOf(rest[2..], {'/', '?', '#'})..]
                       else rest;
    var noFragment := afterNetloc[..FirstOf(afterNetloc, {'#'})];
    noFragment[..FirstOf(noFragment, {'?'})]
  }

  /** `urlparse(text)`, reduced to the scheme and the path. */
  function ParseUrl(text: string): Url
  {
    var (scheme, rest) := SplitScheme(text);
    Url(text, scheme, PathOf(rest))
  }

  /** The search for a stop character skips a prefix that holds none. */
  lemma {:induction false} FirstOfConcat(a: string, b: string, stops: set<char>)
    requires forall k :: 0 <= k < |a| ==> a[k] !in stops
    ensures FirstOf(a + b, stops) == |a| + FirstOf(b, stops)
    decreases |a|
  {
    if |a| > 0 {
      assert (a + b)[0] == a[0];
      assert (a + b)[1..] == a[1..] + b;
      FirstOfConcat(a[1..], b, stops);
    } else {
      assert a + b == b;
    }
  }

  /** Text holding no stop character is searched to its end. */
  lemma FirstOfNone(s: string, stops: set<char>)
    requires forall k :: 0 <= k < |s| ==> s[k] !in stops
    ensures FirstOf(s, stops) == |s|
  {
  }

  /** No `?` and no `#`: nothing a URL parser would cut at. */
  predicate PlainUrlText(s: string)
  {
    forall k :: 0 <= k < |s| ==> s[k] != '?' && s[k] != '#'
  }

  /** A valid scheme: a letter, then letters, digits, `+`, `-` or `.`. */
  predicate IsScheme(s: string)
  {
    |s| > 0 && IsAlphaChar(s[0]) && forall k :: 0 <= k < |s| ==> IsSchemeChar(s[k])
  }

  /** `urlparse("scheme://host/path")` finds the lower-cased scheme and the path. */
  lemma ParseUrlParts(scheme: string, host: string, path: string)
    requires IsScheme(scheme)
    requires forall k :: 0 <= k < |host| ==> host[k] != '/' && host[k] != '?' && host[k] != '#'
    requires |path| > 0 && path[0] == '/' && PlainUrlText(path)
    ensures ParseUrl(scheme + "://" + host + path).scheme == Lower(scheme)
    ensures ParseUrl(scheme + "://" + host + path).path == path
  {
    var rest := "//" + host + path;
    var text := scheme + "://" + host + path;
    assert text == scheme + ":" + rest;
    SchemeOf(scheme, rest);
    NetlocSkipped(host, path);
    assert ParseUrl(text) == Url(text, Lower(scheme), PathOf(rest));
  }

  lemma SchemeOf(scheme: string, rest: string)
    requires IsScheme(scheme)
    ensures SplitScheme(scheme + ":" + rest) == (Lower(scheme), rest)
  {
    var text := scheme + ":" + rest;
    assert text == scheme + (":" + rest);
    FirstOfConcat(scheme, ":" + rest, {':'});
    assert text[..|scheme|] == scheme;
    assert text[|scheme| + 1..] == rest;
  }

  lemma NetlocSkipped(host: string, path: string)
    requires forall k :: 0 <= k < |host| ==> host[k] != '/' && host[k] != '?' && host[k] != '#'
    requires |path| > 0 && path[0] == '/' && PlainUrlText(path)
    ensures PathOf("//" + host + path) == path
  {
    var rest := "//" + host + path;
    assert rest[..2] == "//";
    assert rest[2..] == host + path;
    FirstOfConcat(host, path, {'/', '?', '#'});
    assert (host + path)[|host|..] == path;
    FirstOfNone(path, {'#'});
    FirstOfNone(path, {'?'});
    assert path[..|path|] == path;
  }
}
