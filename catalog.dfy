/** `AppCatalog`: the packages of the catalogue, indexed by ident. */
module Catalog {
  import opened Wrappers
  import opened Values
  import opened Paths
  import opened Packages

  /**
   * `cls(**entry)`: the attrs constructor of the package class named by the
   * entry's kind ("app" or "files"), applied to the entry's keys. It is a
   * parameter of the model; all the catalogue relies on is that it either
   * builds a package or raises.
   */
  type Construct = (string, map<string, Value>) -> Result<Package>

  /** The class an entry's kind selects; any other kind (or none) is a KeyError. */
  function ClassOf(entry: map<string, Value>): (r: Result<string>)
    ensures r.Ok? <==> "kind" in entry && entry["kind"] in {Str("app"), Str("files")}
    ensures r.Ok? ==> Str(r.value) == entry["kind"]
    ensures r.Err? ==> r.error.KeyError?
  {
    if "kind" !in entry then Err(KeyError("kind"))
    else if entry["kind"] == Str("app") then Ok("app")
    else if entry["kind"] == Str("files") then Ok("files")
    else Err(KeyError("kind"))
  }

  /** One round of `update_from`'s loop: the built package under its ident. */
  function UpdateStep(m: map<string, Package>, entry: map<string, Value>, construct: Construct)
    : (r: Result<map<string, Package>>)
    ensures r.Ok? <==> ClassOf(entry).Ok? && construct(ClassOf(entry).value, entry).Ok?
    ensures r.Ok? ==> var p := construct(ClassOf(entry).value, entry).value;
                      r.value == m[p.info.ident := p]
  {
    match ClassOf(entry)
    case Err(e) => Err(e)
    case Ok(cls) =>
      match construct(cls, entry)
      case Err(e) => Err(e)
      case Ok(p) => Ok(m[p.info.ident := p])
  }

  /**
   * `update_from(contents)`: the entries, in order, until one fails. The
   * entries stored before a failure stay (the map is updated in place), so
   * the result is the map reached and the error, if any.
   */
  function UpdateAll(m: map<string, Package>, contents: seq<map<string, Value>>, construct: Construct)
    : (map<string, Package>, Option<Error>)
    decreases |contents|
  {
    if |contents| == 0 then (m, None)
    else
      match UpdateStep(m, contents[0], construct)
      case Err(e) => (m, Some(e))
      case Ok(m') => UpdateAll(m', contents[1..], construct)
  }

  /** Updating from a longer list is updating from its first part, then from the rest. */
  lemma {:induction false} UpdateAllSnoc(m: map<string, Package>, contents: seq<map<string, Value>>,
                                         entry: map<string, Value>, construct: Construct)
    requires UpdateAll(m, contents, construct).1.None?
    ensures UpdateAll(m, contents + [entry], construct)
            == match UpdateStep(UpdateAll(m, contents, construct).0, entry, construct)
               case Err(e) => (UpdateAll(m, contents, construct).0, Some(e))
               case Ok(m') => (m', None)
    decreases |contents|
  {
    if |contents| == 0 {
      assert [entry][1..] == [];
    } else {
      assert (contents + [entry])[1..] == contents[1..] + [entry];
      var m' := UpdateStep(m, contents[0], construct).value;
      UpdateAllSnoc(m', contents[1..], entry, construct);
    }
  }

  /** A kind other than "app" and "files" — a ZIM entry included — stops the update with KeyError. */
  lemma OtherKindRefused(m: map<string, Package>, entry: map<string, Value>, rest: seq<map<string, Value>>,
                         construct: Construct)
    requires "kind" !in entry || entry["kind"] !in {Str("app"), Str("files")}
    ensures UpdateAll(m, [entry] + rest, construct) == (m, Some(KeyError("kind")))
  {
  }

  /** An entry built after another of the same ident replaces it. */
  lemma {:induction false} LaterEntryWins(m: map<string, Package>, a: map<string, Value>, b: map<string, Value>,
                                          construct: Construct)
    requires UpdateStep(m, a, construct).Ok?
    requires UpdateStep(UpdateStep(m, a, construct).value, b, construct).Ok?
    requires construct(ClassOf(a).value, a).value.info.ident == construct(ClassOf(b).value, b).value.info.ident
    ensures var ident := construct(ClassOf(b).value, b).value.info.ident;
            var r := UpdateAll(m, [a, b], construct);
            r.1.None? && r.0 == m[ident := construct(ClassOf(b).value, b).value]
  {
    var m1 := UpdateStep(m, a, construct).value;
    var m2 := UpdateStep(m1, b, construct).value;
    assert [a, b][1..] == [b];
    assert [b][1..] == [];
    assert UpdateAll(m1, [b], construct) == UpdateAll(m2, [], construct) == (m2, None);
    assert UpdateAll(m, [a, b], construct) == UpdateAll(m1, [b], construct);
  }

  /** Every stored package is keyed by its own ident, and the update keeps it so. */
  predicate KeyedByIdent(m: map<string, Package>)
  {
    forall k :: k in m ==> m[k].info.ident == k
  }

  lemma {:induction false} UpdateKeepsKeying(m: map<string, Package>, contents: seq<map<string, Value>>,
                                             construct: Construct)
    requires KeyedByIdent(m)
    ensures KeyedByIdent(UpdateAll(m, contents, construct).0)
    ensures m.Keys <= UpdateAll(m, contents, construct).0.Keys
    decreases |contents|
  {
    if |contents| > 0 && UpdateStep(m, contents[0], construct).Ok? {
      UpdateKeepsKeying(UpdateStep(m, contents[0], construct).value, contents[1..], construct);
    }
  }

  /** `get_apppackage(ident)`: the entry when it is an app package, else KeyError. */
  function LookupApp(m: map<string, Package>, ident: string): (r: Result<Package>)
    ensures r.Ok? <==> ident in m && m[ident].AppPackage?
    ensures r.Ok? ==> r.value == m[ident]
    ensures r.Err? ==> r.error.KeyError?
  {
    if ident in m && m[ident].AppPackage? then Ok(m[ident]) else Err(KeyError("No app matching " + ident))
  }

  /** `get_filespackage(ident)`: the entry when it is a files package, else KeyError. */
  function LookupFiles(m: map<string, Package>, ident: string): (r: Result<Package>)
    ensures r.Ok? <==> ident in m && m[ident].FilesPackage?
    ensures r.Ok? ==> r.value == m[ident]
    ensures r.Err? ==> r.error.KeyError?
  {
    if ident in m && m[ident].FilesPackage? then Ok(m[ident]) else Err(KeyError("No files matching " + ident))
  }

  /** No ident is both an app and a files package: at most one of the two getters succeeds. */
  lemma GettersExclusive(m: map<string, Package>, ident: string)
    ensures !(LookupApp(m, ident).Ok? && LookupFiles(m, ident).Ok?)
  {
  }

  /** An app stored last under an ident is what `get_apppackage` returns for it. */
  lemma StoredAppFound(m: map<string, Package>, entry: map<string, Value>, construct: Construct)
    requires UpdateStep(m, entry, construct).Ok?
    requires construct(ClassOf(entry).value, entry).value.AppPackage?
    ensures var p := construct(ClassOf(entry).value, entry).value;
            LookupApp(UpdateStep(m, entry, construct).value, p.info.ident) == Ok(p)
            && LookupFiles(UpdateStep(m, entry, construct).value, p.info.ident).Err?
  {
  }

  /** `get_app_path(package)`: the package's own directory under `/data/contents`. */
  function GetAppPath(p: Package): (path: string)
    ensures IsPart(p.info.ident) ==> path == "/data/contents/" + p.info.ident
  {
    if IsPart(p.info.ident) then ContentPathOf(p.info.ident); ContentPath(p.info.ident)
    else ContentPath(p.info.ident)
  }

  /** The catalogue object: a dict from ident to package. */
  class AppCatalog {
    var entries: map<string, Package>

    /** `AppCatalog()` before any update: empty. */
    constructor ()
      ensures entries == map[]
    {
      entries := map[];
    }

    /** `update_from(contents)`: returns the error that stopped the loop, if any. */
    method UpdateFrom(contents: seq<map<string, Value>>, construct: Construct) returns (e: Option<Error>)
      modifies this
      ensures (entries, e) == UpdateAll(old(entries), contents, construct)
    {
      var i := 0;
      while i < |contents|
        invariant 0 <= i <= |contents|
        invariant UpdateAll(old(entries), contents, construct) == UpdateAll(entries, contents[i..], construct)
      {
        assert contents[i..][1..] == contents[i + 1..];
        var entry := contents[i];
        var cls: string;
        if "kind" !in entry {
          return Some(KeyError("kind"));
        } else if entry["kind"] == Str("app") {
          cls := "app";
        } else if entry["kind"] == Str("files") {
          cls := "files";
        } else {
          return Some(KeyError("kind"));
        }
        var built := construct(cls, entry);
        if built.Err? {
          return Some(built.error);
        }
        entries := entries[built.value.info.ident := built.value];
        i := i + 1;
      }
      return None;
    }

    /** `AppCatalog(contents)`: empty, then updated when `contents` is a non-empty list. */
    static method Create(contents: Option<seq<map<string, Value>>>, construct: Construct)
      returns (r: Result<AppCatalog>)
      ensures contents.None? || contents == Some([]) ==> r.Ok? && r.value.entries == map[]
      ensures contents.Some? ==> var (m, e) := UpdateAll(map[], contents.value, construct);
                                 (r.Ok? <==> e.None?) && (r.Ok? ==> r.value.entries == m)
                                 && (r.Err? ==> e == Some(r.error))
      ensures r.Ok? ==> fresh(r.value)
    {
      var c := new AppCatalog();
      if contents.Some? && |contents.value| > 0 {
        var e := c.UpdateFrom(contents.value, construct);
        if e.Some? {
          return Err(e.value);
        }
      }
      return Ok(c);
    }

    /** `get_apppackage(ident)`. */
    function GetAppPackage(ident: string): (r: Result<Package>)
      reads this
      ensures r.Ok? <==> ident in entries && entries[ident].AppPackage?
      ensures r.Ok? ==> r.value == entries[ident]
    {
      LookupApp(entries, ident)
    }

    /** `get_filespackage(ident)`. */
    function GetFilesPackage(ident: string): (r: Result<Package>)
      reads this
      ensures r.Ok? <==> ident in entries && entries[ident].FilesPackage?
      ensures r.Ok? ==> r.value == entries[ident]
    {
      LookupFiles(entries, ident)
    }
  }
}
