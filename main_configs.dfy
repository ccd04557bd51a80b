/**
 * `MainConfig`, the whole image configuration: base, output, images and
 * files, checked for duplicate destinations and expanded into `File`s and
 * `OCIImage`s.
 */
module MainConfigs {
  import opened Wrappers
  import opened Strings
  import opened Values
  import opened Files
  import opened FileConfigs
  import opened BaseConfigs
  import opened OutputConfigs
  import opened OciImages
  import opened Collaborators

  /** An `OCIImageConfig` record. */
  datatype OCIImageConfig = OCIImageConfig(ident: string, url: Option<string>, filesize: int, fullsize: int)

  /** `base` as passed: a dictionary (the record's keyword arguments) or a `BaseConfig`. */
  datatype BaseArg = BaseDict(fields: BaseConfig) | BaseObject(config: BaseConfig)

  /**
   * `output` as passed: a dictionary (keyword arguments), an `OutputConfig`,
   * or None. Leaving it out is `OutputConfig()`, the empty dictionary. In a
   * dictionary, `compress` is None for an explicit null and `Some(false)`,
   * the field's default, when the key is absent. A dictionary may carry the
   * `shrink` key of the older `OutputConfig`, which the current one has no
   * field for; `shrink` is None exactly when that key is absent.
   */
  datatype OutputArg =
    | OutputDict(size: SizeSpec, compress: Option<bool>, shrink: Option<bool>)
    | OutputObject(o: OutputConfig)
    | OutputNone

  datatype MainConfigArgs = MainConfigArgs(
    base: BaseArg,
    baseFile: Option<FileData>,
    output: OutputArg,
    ociImages: seq<OCIImageConfig>,
    files: seq<FileConfig>,
    writeConfig: Option<bool>,
    offspot: Option<map<string, Value>>)

  /** The state of a `MainConfig` object, its `output` reference aside. */
  datatype MainConfigData = MainConfigData(
    base: BaseConfig,
    baseFile: Option<FileData>,
    ociImages: seq<OCIImageConfig>,
    files: seq<FileConfig>,
    writeConfig: Option<bool>,
    offspot: Option<map<string, Value>>,
    allFiles: seq<FileData>,
    allImages: seq<OCIImage>)

  // ------------------------------------------------------ duplicate targets

  /** `xs.count(x)`. */
  function Count(xs: seq<string>, x: string): nat
  {
    if |xs| == 0 then 0 else (if xs[0] == x then 1 else 0) + Count(xs[1..], x)
  }

  /** `[to for to in xs if xs.count(to) > 1]`. */
  function DuplicatesIn(xs: seq<string>, within: seq<string>): (r: seq<string>)
    ensures forall k :: 0 <= k < |r| ==> Count(within, r[k]) > 1
    ensures forall k :: 0 <= k < |xs| && Count(within, xs[k]) > 1 ==> xs[k] in r
  {
    if |xs| == 0 then []
    else
      var rest := DuplicatesIn(xs[1..], within);
      if Count(within, xs[0]) > 1 then [xs[0]] + rest else rest
  }

  function Duplicates(xs: seq<string>): seq<string>
  {
    DuplicatesIn(xs, xs)
  }

  /** A value counted twice appears at two distinct positions, and conversely. */
  lemma {:induction false} CountTwice(xs: seq<string>, x: string)
    ensures Count(xs, x) > 1 <==> exists i, j :: 0 <= i < j < |xs| && xs[i] == x && xs[j] == x
    decreases |xs|
  {
    if |xs| > 0 {
      CountTwice(xs[1..], x);
      CountOnce(xs[1..], x);
      if Count(xs, x) > 1 {
        if xs[0] == x {
          var j :| 0 <= j < |xs[1..]| && xs[1..][j] == x;
          assert xs[0] == x && xs[j + 1] == x;
        } else {
          var i, j :| 0 <= i < j < |xs[1..]| && xs[1..][i] == x && xs[1..][j] == x;
          assert xs[i + 1] == x && xs[j + 1] == x;
        }
      }
      if exists i, j :: 0 <= i < j < |xs| && xs[i] == x && xs[j] == x {
        var i, j :| 0 <= i < j < |xs| && xs[i] == x && xs[j] == x;
        if i == 0 {
          assert xs[1..][j - 1] == x;
        } else {
          assert xs[1..][i - 1] == x && xs[1..][j - 1] == x;
        }
      }
    }
  }

  /** A value is counted at least once exactly when it occurs. */
  lemma {:induction false} CountOnce(xs: seq<string>, x: string)
    ensures Count(xs, x) > 0 <==> exists j :: 0 <= j < |xs| && xs[j] == x
    decreases |xs|
  {
    if |xs| > 0 {
      CountOnce(xs[1..], x);
      if exists j :: 0 <= j < |xs| && xs[j] == x {
        var j :| 0 <= j < |xs| && xs[j] == x;
        if j > 0 {
          assert xs[1..][j - 1] == x;
        }
      }
      if Count(xs[1..], x) > 0 {
        var j :| 0 <= j < |xs[1..]| && xs[1..][j] == x;
        assert xs[j + 1] == x;
      }
    }
  }

  /** The duplicate list is empty exactly when all targets are distinct. */
  lemma NoDuplicatesIff(xs: seq<string>)
    ensures Duplicates(xs) == [] <==> forall i, j :: 0 <= i < j < |xs| ==> xs[i] != xs[j]
  {
    if Duplicates(xs) != [] {
      var d := Duplicates(xs)[0];
      CountTwice(xs, d);
    }
    if exists i, j :: 0 <= i < j < |xs| && xs[i] == xs[j] {
      var i, j :| 0 <= i < j < |xs| && xs[i] == xs[j];
      CountTwice(xs, xs[i]);
      assert xs[i] in Duplicates(xs);
    }
  }

  function Tos(files: seq<FileConfig>): (r: seq<string>)
    ensures |r| == |files| && forall k :: 0 <= k < |files| ==> r[k] == files[k].to
  {
    seq(|files|, k requires 0 <= k < |files| => files[k].to)
  }

  // ------------------------------------------------- expanded files, images

  /** `build` applied to each of `xs` in order; the first failure is raised. */
  function BuildAll<A, B>(xs: seq<A>, build: A -> Result<B>): (r: Result<seq<B>>)
    ensures r.Ok? ==> |r.value| == |xs|
    ensures r.Ok? ==> forall k :: 0 <= k < |xs| ==> build(xs[k]) == Ok(r.value[k])
    ensures r.Ok? <==> forall k :: 0 <= k < |xs| ==> build(xs[k]).Ok?
  {
    if |xs| == 0 then Ok([])
    else
      var init := xs[..|xs| - 1];
      var prefix := BuildAll(init, build);
      var last := build(xs[|xs| - 1]);
      assert forall k :: 0 <= k < |init| ==> init[k] == xs[k];
      if prefix.Err? then prefix
      else if last.Err? then Err(last.error)
      else Ok(prefix.value + [last.value])
  }

  /** Once building a prefix fails, building the whole fails with the same error. */
  lemma {:induction false} BuildAllErrorSticks<A, B>(xs: seq<A>, i: nat, build: A -> Result<B>)
    requires i <= |xs| && BuildAll(xs[..i], build).Err?
    ensures BuildAll(xs, build) == BuildAll(xs[..i], build)
    decreases |xs| - i
  {
    if i < |xs| {
      assert xs[..i + 1][..i] == xs[..i];
      BuildAllErrorSticks(xs, i + 1, build);
    } else {
      assert xs[..i] == xs;
    }
  }

  /** `File(asdict(conf))` for one file config. */
  function BuildFile(env: Env): FileConfig -> Result<FileData>
  {
    fc => FileOf(fc, env)
  }

  /** The `File`s of `files`, built in order; the first failure is raised. */
  function AllFilesOf(files: seq<FileConfig>, env: Env): Result<seq<FileData>>
  {
    BuildAll(files, BuildFile(env))
  }

  /** The `OCIImage`s of the image configs, in order. */
  function AllImagesOf(confs: seq<OCIImageConfig>, env: Env): (r: seq<OCIImage>)
    ensures |r| == |confs|
    ensures forall k :: 0 <= k < |confs| ==>
              r[k] == NewOCIImage(confs[k].ident, confs[k].filesize, confs[k].fullsize, confs[k].url, env)
  {
    if |confs| == 0 then []
    else
      var c := confs[|confs| - 1];
      AllImagesOf(confs[..|confs| - 1], env) + [NewOCIImage(c.ident, c.filesize, c.fullsize, c.url, env)]
  }

  /** The base record after the dictionary form went through `BaseConfig(**base)`. */
  function BaseOf(arg: BaseArg, parseSize: string -> Option<int>): Result<BaseConfig>
  {
    match arg
    case BaseDict(fields) => NewBaseConfig(fields, parseSize)
    case BaseObject(config) => Ok(config)
  }

  /** `base_file`: derived from a text source, else as passed. */
  function BaseFileOf(base: BaseConfig, given: Option<FileData>, env: Env): Result<Option<FileData>>
  {
    if base.source.SourceText? then
      match GetBaseFrom(base, env)
      case Ok(f) => Ok(Some(f))
      case Err(e) => Err(e)
    else Ok(given)
  }

  /**
   * The checks of the post-init that come before the loops: base and output
   * conversion, the base file, and the duplicate targets.
   */
  function CheckedBase(args: MainConfigArgs, env: Env): Result<(BaseConfig, Option<FileData>)>
  {
    var base := BaseOf(args.base, env.parseSize);
    if base.Err? then Err(base.error)
    else
      var baseFile := BaseFileOf(base.value, args.baseFile, env);
      if baseFile.Err? then Err(baseFile.error)
      else if args.output.OutputDict? && args.output.shrink.Some? then Err(UnexpectedShrink)
      else if args.output.OutputDict? && ParseSizeStep(args.output.size, env.parseSize).Err? then
        Err(ParseSizeStep(args.output.size, env.parseSize).error)
      else if Duplicates(Tos(args.files)) != [] then
        Err(ValueError("MainConfig.files: duplicate to target(s): " + Join(Duplicates(Tos(args.files)), ",")))
      else Ok((base.value, baseFile.value))
  }

  /** The TypeError of `OutputConfig(**output)` on the `shrink` key: the current class has no such field. */
  const UnexpectedShrink := TypeError("OutputConfig.__init__() got an unexpected keyword argument 'shrink'")

  /** `MainConfig(...)` with its post-init, in the order the checks are made. */
  function NewMainConfig(args: MainConfigArgs, env: Env): (r: Result<MainConfigData>)
    ensures r.Ok? ==> Duplicates(Tos(args.files)) == []
    ensures r.Ok? ==> r.value.files == args.files && r.value.ociImages == args.ociImages
    ensures r.Ok? ==> r.value.allImages == AllImagesOf(args.ociImages, env)
    ensures r.Ok? ==> AllFilesOf(args.files, env) == Ok(r.value.allFiles)
    ensures r.Ok? ==> forall k :: 0 <= k < |args.files| ==> FileOf(args.files[k], env) == Ok(r.value.allFiles[k])
    ensures r.Ok? ==> BaseOf(args.base, env.parseSize) == Ok(r.value.base)
    ensures r.Ok? && args.output.OutputDict? ==> args.output.shrink.None?
  {
    var checked := CheckedBase(args, env);
    if checked.Err? then Err(checked.error)
    else
      var allFiles := AllFilesOf(args.files, env);
      if allFiles.Err? then Err(allFiles.error)
      else
        Ok(MainConfigData(checked.value.0, checked.value.1, args.ociImages, args.files, args.writeConfig,
                          args.offspot, allFiles.value, AllImagesOf(args.ociImages, env)))
  }

  /** Two file configs for one destination make the configuration fail with ValueError. */
  lemma DuplicateTargetRejected(args: MainConfigArgs, env: Env, i: nat, j: nat)
    requires i < j < |args.files| && args.files[i].to == args.files[j].to
    ensures NewMainConfig(args, env).Err?
  {
    NoDuplicatesIff(Tos(args.files));
  }

  /** Every file a successful configuration holds was built by `File`, so it has either content or a URL. */
  lemma AllFilesBuilt(args: MainConfigArgs, env: Env)
    requires NewMainConfig(args, env).Ok?
    ensures forall k :: 0 <= k < |NewMainConfig(args, env).value.allFiles| ==>
              Built(NewMainConfig(args, env).value.allFiles[k])
  {
    var d := NewMainConfig(args, env).value;
    forall k | 0 <= k < |d.allFiles|
      ensures Built(d.allFiles[k])
    {
      var p := AsPayload(args.files[k]);
      assert NewFile(p, env) == Ok(d.allFiles[k]);
    }
  }

  /** What `File` guarantees of the files it builds: a URL exactly when there is no content. */
  predicate Built(f: FileData)
  {
    f.url.Some? <==> f.content == ""
  }

  // -------------------------------------------------------------- queries

  /** The `rootfs_size` property: OSError unless the base size is an int. */
  function RootfsSize(d: MainConfigData): (r: Result<int>)
    ensures r.Ok? <==> d.base.rootfsSize.IntValue?
    ensures r.Ok? ==> r.value == d.base.rootfsSize.i
    ensures r.Err? ==> r.error.OSError?
  {
    if d.base.rootfsSize.IntValue? then Ok(d.base.rootfsSize.i) else Err(OSError("Base not ready"))
  }

  /** A base given as a dictionary with a non-empty size text has, once accepted, an int size. */
  lemma RootfsSizeReady(args: MainConfigArgs, env: Env)
    requires args.base.BaseDict? && args.base.fields.rootfsSize.TextValue? && args.base.fields.rootfsSize.s != ""
    requires NewMainConfig(args, env).Ok?
    ensures RootfsSize(NewMainConfig(args, env).value).Ok?
    ensures env.parseSize(args.base.fields.rootfsSize.s) == Some(RootfsSize(NewMainConfig(args, env).value).value)
  {
  }

  /** `remote_files`. */
  function RemoteFiles(files: seq<FileData>): (r: seq<FileData>)
    ensures forall k :: 0 <= k < |r| ==> IsRemote(r[k]) && r[k] in files
  {
    if |files| == 0 then []
    else if IsRemote(files[0]) then [files[0]] + RemoteFiles(files[1..])
    else RemoteFiles(files[1..])
  }

  /** `non_remote_files`: the plain and the local ones. */
  function NonRemoteFiles(files: seq<FileData>): (r: seq<FileData>)
    ensures forall k :: 0 <= k < |r| ==> (IsPlain(r[k]) || IsLocal(r[k])) && r[k] in files
  {
    if |files| == 0 then []
    else if IsPlain(files[0]) || IsLocal(files[0]) then [files[0]] + NonRemoteFiles(files[1..])
    else NonRemoteFiles(files[1..])
  }

  /** For built files the two queries split the list: every file lands in exactly one, none is lost. */
  lemma {:induction false} RemotePartition(files: seq<FileData>)
    requires forall k :: 0 <= k < |files| ==> Built(files[k])
    ensures multiset(RemoteFiles(files)) + multiset(NonRemoteFiles(files)) == multiset(files)
    ensures forall k :: 0 <= k < |files| ==> !(IsRemote(files[k]) && (IsPlain(files[k]) || IsLocal(files[k])))
    decreases |files|
  {
    if |files| > 0 {
      RemotePartition(files[1..]);
      assert files == [files[0]] + files[1..];
      assert Built(files[0]);
    }
  }

  // -------------------------------------------------------------- read_from

  /** `is_list_of_dict(value)`. */
  predicate IsListOfDict(v: Value)
  {
    v.List? && forall k :: 0 <= k < |v.items| ==> v.items[k].Dict?
  }

  /** The file entry `write_config` adds: the configuration text itself, as `/data/image.yaml`. */
  function ImageYamlEntry(text: string): Value
  {
    Dict(map["to" := Str("/data/image.yaml"), "content" := Str(text), "via" := Str("direct"),
             "size" := Int(Utf8Length(text))])
  }

  /** The `write_config` step of `read_from` (absent from the older variant). */
  function InjectConfig(payload: map<string, Value>, text: string): Result<map<string, Value>>
  {
    if "write_config" in payload && Truthy(payload["write_config"]) then
      if "files" !in payload then Err(KeyError("files"))
      else if !payload["files"].List? then Err(AttributeError("object has no attribute 'append'"))
      else Ok(payload["files" := List(payload["files"].items + [ImageYamlEntry(text)])])
    else Ok(payload)
  }

  /** One pass of the `read_from` loop: pop `name` (default `[]`) and put it back if it is a list of dicts. */
  function CheckSubload(payload: map<string, Value>, name: string): (r: Result<map<string, Value>>)
    ensures var sub := if name in payload then payload[name] else List([]);
            (r.Ok? <==> IsListOfDict(sub))
            && (r.Ok? ==> r.value == payload[name := sub])
            && (r.Err? ==> r.error.ValueError?)
  {
    var sub := if name in payload then payload[name] else List([]);
    if !IsListOfDict(sub) then Err(ValueError("Unexpected type for Config." + name))
    else Ok((payload - {name})[name := sub])
  }

  /**
   * `read_from(text)` on the mapping the YAML text parses to, up to the
   * keyword call: the `write_config` injection (when `inject`), then the
   * `oci_images` and `files` checks in that order.
   */
  function PreparePayload(payload: map<string, Value>, text: string, inject: bool): (r: Result<map<string, Value>>)
    ensures r.Ok? ==> "oci_images" in r.value && IsListOfDict(r.value["oci_images"])
    ensures r.Ok? ==> "files" in r.value && IsListOfDict(r.value["files"])
    ensures r.Ok? ==> forall k :: k != "oci_images" && k != "files" ==> (k in r.value <==> k in payload)
    ensures r.Ok? ==> forall k :: k in payload && k != "oci_images" && k != "files" ==> r.value[k] == payload[k]
  {
    var injected := if inject then InjectConfig(payload, text) else Ok(payload);
    if injected.Err? then injected
    else
      var images := CheckSubload(injected.value, "oci_images");
      if images.Err? then images
      else CheckSubload(images.value, "files")
  }

  /**
   * With `write_config` set, the files list gains one last entry: the text
   * itself for `/data/image.yaml`, sized by its UTF-8 length.
   */
  lemma WriteConfigAppends(payload: map<string, Value>, text: string)
    requires "write_config" in payload && Truthy(payload["write_config"])
    requires PreparePayload(payload, text, true).Ok?
    ensures "files" in payload && payload["files"].List?
    ensures PreparePayload(payload, text, true).value["files"].items == payload["files"].items + [ImageYamlEntry(text)]
    ensures ImageYamlEntry(text).entries["size"] == Int(Utf8Length(text))
  {
  }

  /** Without injection, the files list is passed on as it came, or empty when missing. */
  lemma FilesPassedOn(payload: map<string, Value>, text: string, inject: bool)
    requires !inject || "write_config" !in payload || !Truthy(payload["write_config"])
    requires PreparePayload(payload, text, inject).Ok?
    ensures PreparePayload(payload, text, inject).value["files"] == (if "files" in payload then payload["files"] else List([]))
  {
  }

  /** A files entry that is not a list of dictionaries is refused with ValueError. */
  lemma FilesNotListRefused(payload: map<string, Value>, text: string, inject: bool)
    requires !inject || "write_config" !in payload || !Truthy(payload["write_config"])
    requires "files" in payload && !IsListOfDict(payload["files"])
    ensures PreparePayload(payload, text, inject).Err?
    ensures PreparePayload(payload, text, inject).error.ValueError?
  {
  }

  // ---------------------------------------------------------------- object

  /** A `MainConfig` object. */
  class MainConfig {
    var base: BaseConfig
    var baseFile: Option<FileData>
    var output: Option<OutputConfig>
    var ociImages: seq<OCIImageConfig>
    var files: seq<FileConfig>
    var writeConfig: Option<bool>
    var offspot: Option<map<string, Value>>
    var allFiles: seq<FileData>
    var allImages: seq<OCIImage>

    function Data(): MainConfigData
      reads this
    {
      MainConfigData(base, baseFile, ociImages, files, writeConfig, offspot, allFiles, allImages)
    }

    constructor (base: BaseConfig, baseFile: Option<FileData>, output: Option<OutputConfig>, args: MainConfigArgs)
      ensures Data() == MainConfigData(base, baseFile, args.ociImages, args.files, args.writeConfig, args.offspot, [], [])
      ensures this.output == output
    {
      this.base := base;
      this.baseFile := baseFile;
      this.output := output;
      ociImages := args.ociImages;
      files := args.files;
      writeConfig := args.writeConfig;
      offspot := args.offspot;
      allFiles := [];
      allImages := [];
    }

    /** The post-init loop over `files`: one `File` appended per config, stopping at the first failure. */
    method AppendFiles(build: FileConfig -> Result<FileData>) returns (e: Option<Error>)
      requires allFiles == []
      modifies this
      ensures e.None? <==> BuildAll(files, build).Ok?
      ensures Data() == old(Data()).(allFiles := allFiles)
      ensures e.None? ==> allFiles == BuildAll(files, build).value
      ensures e.Some? ==> e.value == BuildAll(files, build).error
      ensures output == old(output)
    {
      var i := 0;
      while i < |files|
        invariant 0 <= i <= |files|
        invariant BuildAll(files[..i], build) == Ok(allFiles)
        invariant Data() == old(Data()).(allFiles := allFiles)
        invariant output == old(output)
      {
        var f := build(files[i]);
        assert files[..i + 1][..i] == files[..i];
        if f.Err? {
          BuildAllErrorSticks(files, i + 1, build);
          return Some(f.error);
        }
        allFiles := allFiles + [f.value];
        i := i + 1;
      }
      assert files[..i] == files;
      return None;
    }

    /** The post-init loop over `oci_images`: one `OCIImage` appended per config. */
    method AppendImages(env: Env)
      requires allImages == []
      modifies this
      ensures Data() == old(Data()).(allImages := AllImagesOf(ociImages, env))
      ensures output == old(output)
    {
      var j := 0;
      while j < |ociImages|
        invariant 0 <= j <= |ociImages|
        invariant allImages == AllImagesOf(ociImages[..j], env)
        invariant Data() == old(Data()).(allImages := allImages)
        invariant output == old(output)
      {
        var conf := ociImages[j];
        assert ociImages[..j + 1][..j] == ociImages[..j];
        allImages := allImages + [NewOCIImage(conf.ident, conf.filesize, conf.fullsize, conf.url, env)];
        j := j + 1;
      }
      assert ociImages[..j] == ociImages;
    }

    /**
     * The first steps of the post-init: base and output conversion, the base
     * file and the duplicate check. The converted output is a fresh object.
     */
    static method Prepare(args: MainConfigArgs, env: Env)
      returns (r: Result<(BaseConfig, Option<FileData>, Option<OutputConfig>)>)
      ensures r.Ok? <==> CheckedBase(args, env).Ok?
      ensures r.Ok? ==> (r.value.0, r.value.1) == CheckedBase(args, env).value
      ensures r.Err? ==> r.error == CheckedBase(args, env).error
      ensures r.Ok? && args.output.OutputObject? ==> r.value.2 == Some(args.output.o)
      ensures r.Ok? && args.output.OutputNone? ==> r.value.2.None?
      ensures r.Ok? && args.output.OutputDict?
              ==> r.value.2.Some? && fresh(r.value.2.value)
                  && r.value.2.value.size == ParseSizeStep(args.output.size, env.parseSize).value
                  && r.value.2.value.compress == args.output.compress && r.value.2.value.shrink.None?
    {
      var base := BaseOf(args.base, env.parseSize);
      if base.Err? {
        return Err(base.error);
      }
      var baseFile := BaseFileOf(base.value, args.baseFile, env);
      if baseFile.Err? {
        return Err(baseFile.error);
      }
      var output: Option<OutputConfig> := None;
      match args.output {
        case OutputDict(size, compress, shrink) =>
          if shrink.Some? {
            return Err(UnexpectedShrink);
          }
          var o := OutputConfig.Create(size, compress, None, env.parseSize);
          if o.Err? {
            return Err(o.error);
          }
          output := Some(o.value);
        case OutputObject(o) =>
          output := Some(o);
        case OutputNone =>
      }
      var dups := Duplicates(Tos(args.files));
      if |dups| > 0 {
        return Err(ValueError("MainConfig.files: duplicate to target(s): " + Join(dups, ",")));
      }
      return Ok((base.value, baseFile.value, output));
    }

    /**
     * `MainConfig(**args)`: converts base and output, rejects duplicate
     * targets, then appends one `File` per file config and one `OCIImage`
     * per image config.
     */
    static method Create(args: MainConfigArgs, env: Env) returns (r: Result<MainConfig>)
      ensures r.Ok? <==> NewMainConfig(args, env).Ok?
      ensures r.Ok? ==> fresh(r.value) && r.value.Data() == NewMainConfig(args, env).value
      ensures r.Ok? && args.output.OutputObject? ==> r.value.output == Some(args.output.o)
      ensures r.Ok? && args.output.OutputNone? ==> r.value.output.None?
      ensures r.Err? ==> r.error == NewMainConfig(args, env).error
    {
      var prepared := Prepare(args, env);
      if prepared.Err? {
        return Err(prepared.error);
      }
      var (base, baseFile, output) := prepared.value;
      var c := new MainConfig(base, baseFile, output, args);
      var e := c.AppendFiles(BuildFile(env));
      assert c.files == args.files;
      assert AllFilesOf(args.files, env) == BuildAll(args.files, BuildFile(env));
      if e.Some? {
        assert AllFilesOf(args.files, env) == Err(e.value);
        return Err(e.value);
      }
      c.AppendImages(env);
      return Ok(c);
    }
  }
}
