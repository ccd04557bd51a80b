/**
 * The state of a `ConfigBuilder` as a value, and what each of its
 * operations does to it. The class in `builder.dfy` is proved to follow
 * these functions; the lemmas here state what the operations promise.
 */
module BuilderSpec {
  import opened Wrappers
  import opened Strings
  import opened Values
  import opened Paths
  import opened Collaborators
  import opened Packages
  import Constants
  import Files
  import OciImages
  import FileConfigs
  import BaseConfigs
  import Catalog
  import Sizes
  import MainConfigs

  /** A bind mount of a compose service. */
  datatype Mount = Mount(source: string, target: string, readOnly: bool)

  /**
   * A compose service as the builder writes it: every service has an
   * image, a container name, "pull_policy: never" and "restart:
   * unless-stopped"; the other keys are present only for the services
   * that set them (an absent environment, volumes list or links list is
   * None, an absent flag false).
   */
  datatype Service = Service(
    image: string,
    containerName: string,
    environment: Option<map<string, string>>,
    volumes: Option<seq<Mount>>,
    expose: seq<string>,
    ports: seq<string>,
    command: Option<string>,
    networkMode: Option<string>,
    capAdd: seq<string>,
    readOnly: bool,
    privileged: bool,
    links: Option<seq<string>>)

  /** The access-point settings the builder was given. */
  datatype Ap = Ap(domain: Option<string>, tld: Option<string>, ssid: Option<string>,
                   passphrase: Option<string>, asGateway: Option<bool>)

  /**
   * `ConfigBuilder.config`, the manifest being assembled. The compose
   * project's name ("offspot"), the ethernet setting (dhcp) and the
   * timezone ("UTC") never change and are left implicit.
   */
  datatype Manifest = Manifest(
    baseSource: BaseConfigs.BaseSource,
    rootfsSize: Files.Scalar,
    outputSize: FileConfigs.SizeSpec,
    writeConfig: Option<bool>,
    ociImages: set<OciImages.OCIImage>,
    files: seq<FileConfigs.FileConfig>,
    services: map<string, Service>,
    ap: Ap)

  /** Every attribute of a builder. */
  datatype BuilderState = BuilderState(
    name: string,
    environ: map<string, string>,
    config: Manifest,
    offersZimDownloads: Option<bool>,
    dashboardEntries: seq<Package>,
    reversedServices: set<string>,
    filesMapping: Items,
    withKiwixserve: bool,
    withFiles: bool,
    withReverseproxy: bool,
    withDashboard: bool,
    withCaptivePortal: bool,
    withHwclock: bool)

  /** The state an operation leaves, and the exception it raised, if any. */
  datatype Outcome = Outcome(state: BuilderState, error: Option<Error>)

  /** `ConfigBuilder(base=…, name=…, …)`. */
  function Initial(base: BaseConfigs.BaseConfig, name: string, tld: Option<string>, domain: Option<string>,
                   ssid: Option<string>, passphrase: Option<string>, asGateway: Option<bool>,
                   environ: Option<map<string, string>>, writeConfig: Option<bool>): (s: BuilderState)
    ensures s.config.ociImages == {} && s.config.files == [] && s.config.services == map[]
    ensures s.reversedServices == {} && s.filesMapping == [] && s.dashboardEntries == []
    ensures s.offersZimDownloads == Some(true)
    ensures !s.withKiwixserve && !s.withFiles && !s.withReverseproxy
    ensures !s.withDashboard && !s.withCaptivePortal && !s.withHwclock
    ensures s.config.outputSize == FileConfigs.SizeText("auto")
    ensures s.environ == if environ.Some? then environ.value else map[]
  {
    BuilderState(name, if environ.Some? then environ.value else map[],
                 Manifest(base.source, base.rootfsSize, FileConfigs.SizeText("auto"), writeConfig, {}, [], map[],
                          Ap(domain, tld, ssid, passphrase, asGateway)),
                 Some(true), [], {}, [], false, false, false, false, false, false)
  }

  /** The `fqdn` property: `domain.tld`, None printing as "None". */
  function Fqdn(s: BuilderState): string
  {
    StrOfOption(s.config.ap.domain) + "." + StrOfOption(s.config.ap.tld)
  }

  // ------------------------------------------------------ ordered dicts

  /** `d.get(k)` on an ordered dictionary held as its items. */
  function DictGet(items: Items, k: string): Option<string>
  {
    if |items| == 0 then None
    else if items[0].0 == k then Some(items[0].1)
    else DictGet(items[1..], k)
  }

  /** `d.update({k: v})`: an existing key keeps its place, a new one goes last. */
  function DictSet(items: Items, k: string, v: string): (r: Items)
    ensures DictGet(r, k) == Some(v)
    ensures forall k' :: k' != k ==> DictGet(r, k') == DictGet(items, k')
    ensures |r| == if DictGet(items, k).Some? then |items| else |items| + 1
  {
    if |items| == 0 then [(k, v)]
    else if items[0].0 == k then [(k, v)] + items[1..]
    else [items[0]] + DictSet(items[1..], k, v)
  }

  /** Setting a key to the value it already holds changes nothing. */
  lemma {:induction false} DictSetSame(items: Items, k: string)
    requires DictGet(items, k).Some?
    ensures DictSet(items, k, DictGet(items, k).value) == items
  {
    if items[0].0 != k {
      DictSetSame(items[1..], k);
    }
  }

  // ---------------------------------------------------- fixed services

  function Image(ident: string, filesize: int, fullsize: int, env: Env): OciImages.OCIImage
  {
    OciImages.NewOCIImage(ident, filesize, fullsize, None, env)
  }

  function DashboardImage(env: Env): OciImages.OCIImage { Image("ghcr.io/offspot/dashboard:1.0", 119941120, 119838811, env) }
  function ReverseProxyImage(env: Env): OciImages.OCIImage { Image("ghcr.io/offspot/reverse-proxy:1.2", 115722240, 115645756, env) }
  function CaptivePortalImage(env: Env): OciImages.OCIImage { Image("ghcr.io/offspot/captive-portal:1.0", 187668480, 187604243, env) }
  function HwclockImage(env: Env): OciImages.OCIImage { Image("ghcr.io/offspot/hwclock:1.0", 59412480, 59382985, env) }
  function KiwixImage(env: Env): OciImages.OCIImage { Image("ghcr.io/offspot/kiwix-serve:3.5.0-2", 29194240, 29162475, env) }
  function FilesImage(env: Env): OciImages.OCIImage { Image("ghcr.io/offspot/file-browser:1.0", 47226880, 47162907, env) }

  /** The keys every managed service shares. */
  function Managed(img: OciImages.OCIImage, containerName: string): (svc: Service)
    ensures svc.image == img.oci && svc.containerName == containerName
  {
    Service(img.oci, containerName, None, None, [], [], None, None, [], false, false, None)
  }

  function HomeService(env: Env): Service
  {
    Managed(DashboardImage(env), "home")
      .(expose := ["80"], volumes := Some([Mount("/data/contents/dashboard.yaml", "/src/home.yaml", true)]))
  }

  function ReverseProxyService(fqdn: string, env: Env): Service
  {
    Managed(ReverseProxyImage(env), "reverse-proxy")
      .(environment := Some(map["FQDN" := fqdn]), ports := ["80:80", "443:443"])
  }

  function CaptivePortalService(name: string, fqdn: string, env: Env): Service
  {
    Managed(CaptivePortalImage(env), "home-portal")
      .(networkMode := Some("host"), capAdd := ["NET_ADMIN"],
        environment := Some(map["HOTSPOT_NAME" := name, "HOTSPOT_IP" := "192.168.2.1", "HOTSPOT_FQDN" := fqdn,
                                "CAPTURED_NETWORKS" := "192.168.2.128/25", "TIMEOUT" := "60",
                                "FILTER_MODULE" := "portal_filter"]),
        expose := ["2080", "2443"], volumes := Some([Mount("/var/run/internet", "/var/run/internet", true)]))
  }

  /** `environ.get(key, "")`. */
  function EnvGet(environ: map<string, string>, key: string): string
  {
    if key in environ then environ[key] else ""
  }

  function HwclockService(environ: map<string, string>, env: Env): Service
  {
    Managed(HwclockImage(env), "hwclock")
      .(environment := Some(map["ADMIN_USERNAME" := EnvGet(environ, "ADMIN_USERNAME"),
                                "ADMIN_PASSWORD" := EnvGet(environ, "ADMIN_PASSWORD")]),
        readOnly := true, expose := ["80"], privileged := true)
  }

  function KiwixService(env: Env): Service
  {
    Managed(KiwixImage(env), "kiwix")
      .(expose := ["80"], volumes := Some([Mount("/data/contents/zims", "/data", true)]),
        command := Some("/bin/sh -c \"kiwix-serve --blockexternal --port 80 --nodatealiases /data/*.zim\""))
  }

  function FilesService(env: Env): Service
  {
    Managed(FilesImage(env), "files")
      .(expose := ["80"], volumes := Some([Mount("/data/contents/files", "/data", true)]))
  }

  /** A mount as the compose file writes it. */
  function MountValue(m: Mount): Value
  {
    Dict(map["type" := Str("bind"), "source" := Str(m.source), "target" := Str(m.target),
             "read_only" := Bool(m.readOnly)])
  }

  /** A list of strings as a compose value. */
  function StrList(xs: seq<string>): (v: Value)
    ensures v.List? && |v.items| == |xs| && forall k :: 0 <= k < |xs| ==> v.items[k] == Str(xs[k])
  {
    List(seq(|xs|, k requires 0 <= k < |xs| => Str(xs[k])))
  }

  /** The keys of a service that only some services set. */
  function OptionalKeys(svc: Service): map<string, Value>
  {
    var withExpose := if |svc.expose| > 0 then map["expose" := StrList(svc.expose)] else map[];
    var withPorts := if |svc.ports| > 0 then withExpose["ports" := StrList(svc.ports)] else withExpose;
    var withCommand := if svc.command.Some? then withPorts["command" := Str(svc.command.value)] else withPorts;
    var withMode := if svc.networkMode.Some? then withCommand["network_mode" := Str(svc.networkMode.value)]
                    else withCommand;
    var withCaps := if |svc.capAdd| > 0 then withMode["cap_add" := StrList(svc.capAdd)] else withMode;
    var withRo := if svc.readOnly then withCaps["read_only" := Bool(true)] else withCaps;
    var withPriv := if svc.privileged then withRo["privileged" := Bool(true)] else withRo;
    var withLinks := if svc.links.Some? then withPriv["links" := StrList(svc.links.value)] else withPriv;
    if svc.volumes.Some?
    then withLinks["volumes" := List(seq(|svc.volumes.value|, k requires 0 <= k < |svc.volumes.value| =>
                                           MountValue(svc.volumes.value[k])))]
    else withLinks
  }

  /**
   * The service's dictionary in the compose file: image, container name,
   * pull policy and restart always, the environment when set, and the
   * other keys only when set.
   */
  function ComposeDict(svc: Service): (d: map<string, Value>)
    ensures {"image", "container_name", "pull_policy", "restart"} <= d.Keys
    ensures d["image"] == Str(svc.image) && d["container_name"] == Str(svc.containerName)
    ensures d["pull_policy"] == Str("never") && d["restart"] == Str("unless-stopped")
    ensures svc.environment.Some? ==>
              "environment" in d && d["environment"] == Dict(map k | k in svc.environment.value :: Str(svc.environment.value[k]))
  {
    var optional := OptionalKeys(svc);
    var withEnv := if svc.environment.Some?
                   then optional["environment" := Dict(map k | k in svc.environment.value :: Str(svc.environment.value[k]))]
                   else optional;
    withEnv["image" := Str(svc.image)]["container_name" := Str(svc.containerName)]
           ["pull_policy" := Str("never")]["restart" := Str("unless-stopped")]
  }

  /** Adds an image to the manifest and a service under `key`. */
  function WithService(s: BuilderState, img: OciImages.OCIImage, key: string, svc: Service): (r: BuilderState)
  {
    s.(config := s.config.(ociImages := s.config.ociImages + {img}, services := s.config.services[key := svc]))
  }

  // ------------------------------------------------- flag-guarded adds

  /**
   * What the flags stand for: each set flag has its service in the compose
   * file, and the kiwix and hwclock services are reverse-proxied.
   */
  predicate Consistent(s: BuilderState)
  {
    (s.withDashboard ==> "home" in s.config.services)
    && (s.withReverseproxy ==> "reverse-proxy" in s.config.services)
    && (s.withCaptivePortal ==> "home-portal" in s.config.services)
    && (s.withHwclock ==> "hwclock" in s.config.services && "hwclock" in s.reversedServices)
    && (s.withKiwixserve ==> "kiwix" in s.config.services && "kiwix" in s.reversedServices)
    && (s.withFiles ==> "files" in s.config.services)
  }

  /** `add_dashboard(allow_zim_downloads=…)`: the flag is overwritten on every call. */
  function AddDashboard(s: BuilderState, allow: Option<bool>, env: Env): BuilderState
  {
    var s1 := s.(offersZimDownloads := allow);
    if s.withDashboard then s1
    else WithService(s1, DashboardImage(env), "home", HomeService(env)).(withDashboard := true)
  }

  /** `add_reverseproxy()`. */
  function AddReverseproxy(s: BuilderState, env: Env): BuilderState
  {
    if s.withReverseproxy then s
    else WithService(s, ReverseProxyImage(env), "reverse-proxy", ReverseProxyService(Fqdn(s), env))
           .(withReverseproxy := true)
  }

  /** `add_captive_portal()`. */
  function AddCaptivePortal(s: BuilderState, env: Env): BuilderState
  {
    if s.withCaptivePortal then s
    else WithService(s, CaptivePortalImage(env), "home-portal", CaptivePortalService(s.name, Fqdn(s), env))
           .(withCaptivePortal := true)
  }

  /** `add_hwclock()`. */
  function AddHwclock(s: BuilderState, env: Env): BuilderState
  {
    if s.withHwclock then s
    else WithService(s, HwclockImage(env), "hwclock", HwclockService(s.environ, env))
           .(withHwclock := true, reversedServices := s.reversedServices + {"hwclock"})
  }

  /** `add_files_service()`. */
  function AddFilesService(s: BuilderState, env: Env): (r: BuilderState)
    ensures r.withFiles && (s.withFiles ==> r == s)
    ensures !s.withFiles ==> "files" in r.config.services && FilesImage(env) in r.config.ociImages
    ensures s.config.services.Keys <= r.config.services.Keys && s.config.ociImages <= r.config.ociImages
    ensures r.config.(ociImages := s.config.ociImages, services := s.config.services) == s.config
    ensures r.(config := s.config, withFiles := s.withFiles) == s
  {
    if s.withFiles then s
    else WithService(s, FilesImage(env), "files", FilesService(env)).(withFiles := true)
  }

  /**
   * The flag-guarded additions do their work once: a second call changes
   * nothing, and after the first the flag, the image and the service are
   * all in place.
   */
  lemma GuardedAddsIdempotent(s: BuilderState, env: Env)
    ensures AddReverseproxy(AddReverseproxy(s, env), env) == AddReverseproxy(s, env)
    ensures AddCaptivePortal(AddCaptivePortal(s, env), env) == AddCaptivePortal(s, env)
    ensures AddHwclock(AddHwclock(s, env), env) == AddHwclock(s, env)
    ensures AddFilesService(AddFilesService(s, env), env) == AddFilesService(s, env)
    ensures !s.withReverseproxy ==> var r := AddReverseproxy(s, env);
              r.withReverseproxy && ReverseProxyImage(env) in r.config.ociImages
              && r.config.services["reverse-proxy"] == ReverseProxyService(Fqdn(s), env)
              && r.reversedServices == s.reversedServices && r.config.files == s.config.files
    ensures !s.withHwclock ==> "hwclock" in AddHwclock(s, env).reversedServices
  {
  }

  /**
   * `add_dashboard` adds its service once but always records the latest
   * `allow_zim_downloads`: two calls amount to the second one alone.
   */
  lemma AddDashboardLastWins(s: BuilderState, a: Option<bool>, b: Option<bool>, env: Env)
    ensures AddDashboard(AddDashboard(s, a, env), b, env) == AddDashboard(s, b, env)
    ensures AddDashboard(s, a, env).offersZimDownloads == a
    ensures Consistent(s) ==> "home" in AddDashboard(s, a, env).config.services
  {
    if !s.withDashboard {
      var t := AddDashboard(s, a, env);
      assert t.withDashboard;
      assert AddDashboard(t, b, env) == t.(offersZimDownloads := b);
      WithServiceKeepsFlag(s, DashboardImage(env), "home", HomeService(env), a, b);
    }
  }

  /** Adding a service and recording the downloads flag are independent. */
  lemma WithServiceKeepsFlag(s: BuilderState, img: OciImages.OCIImage, key: string, svc: Service,
                             a: Option<bool>, b: Option<bool>)
    ensures WithService(s.(offersZimDownloads := a), img, key, svc).(offersZimDownloads := b)
            == WithService(s.(offersZimDownloads := b), img, key, svc)
    ensures key in WithService(s, img, key, svc).config.services
  {
  }

  // --------------------------------------------------------- add_file

  /** The record `add_file` gives to `FileConfig(...)`: the text as url or as block content. */
  function AddFileArgs(urlOrContent: string, to: string, via: string, size: int, isUrl: bool)
    : FileConfigs.FileConfig
  {
    FileConfigs.FileConfig(to, if isUrl then Some(urlOrContent) else None,
                           if isUrl then None else Some(FileConfigs.BlockStr(urlOrContent)),
                           Some(via), FileConfigs.SizeInt(size), None)
  }

  /** `add_file(...)`: appends the validated record; a refused one raises and adds nothing. */
  function AddFile(s: BuilderState, urlOrContent: string, to: string, via: string, size: int, isUrl: bool,
                   parseSize: string -> Option<int>): (r: Outcome)
    ensures var fc := FileConfigs.NewFileConfig(AddFileArgs(urlOrContent, to, via, size, isUrl), parseSize);
            (r.error.None? <==> fc.Ok?)
            && (r.error.Some? ==> r.state == s && r.error == Some(fc.error))
            && (r.error.None? ==> r.state == s.(config := s.config.(files := s.config.files + [fc.value])))
  {
    match FileConfigs.NewFileConfig(AddFileArgs(urlOrContent, to, via, size, isUrl), parseSize)
    case Err(e) => Outcome(s, Some(e))
    case Ok(fc) => Outcome(s.(config := s.config.(files := s.config.files + [fc])), None)
  }

  /** The record `add_file` appends is the validated one: url and handler as given, size as given. */
  lemma AddFileRecord(s: BuilderState, urlOrContent: string, to: string, via: string, size: int, isUrl: bool,
                      parseSize: string -> Option<int>)
    requires AddFile(s, urlOrContent, to, via, size, isUrl, parseSize).error.None?
    ensures var fc := AddFile(s, urlOrContent, to, via, size, isUrl, parseSize).state.config.files[|s.config.files|];
            fc.to == to && fc.via == Some(via) && fc.size == FileConfigs.SizeInt(size)
            && (isUrl ==> fc.url == Some(urlOrContent) && fc.content.None?)
            && (!isUrl ==> fc.url.None? && fc.content == Some(FileConfigs.BlockStr(urlOrContent)))
            && fc.checksum.None?
  {
  }

  /** `add_file` with an empty url and no content is refused with ValueError, and nothing is appended. */
  lemma AddFileNeedsSource(s: BuilderState, to: string, via: string, size: int, isUrl: bool,
                           parseSize: string -> Option<int>)
    ensures AddFile(s, "", to, via, size, isUrl, parseSize) == Outcome(s, Some(AddFile(s, "", to, via, size, isUrl, parseSize).error.value))
    ensures AddFile(s, "", to, via, size, isUrl, parseSize).error.value.ValueError?
  {
  }

  // ----------------------------------------------------------- add_zim

  /** `str(CONTENT_TARGET_PATH / "zims" / zim.filename)`. */
  function ZimTarget(zim: Package, env: Env): string
    requires zim.ZimPackage?
  {
    ToString(Div(Div(Constants.ContentTargetPath, "zims"), Filename(zim, env)))
  }

  /** Whether the dashboard offers ZIM downloads (the flag's truthiness). */
  predicate OffersDownloads(s: BuilderState)
  {
    s.offersZimDownloads == Some(true)
  }

  /** The part of `add_zim` after its file entry: the kiwix service, once. */
  function AddKiwix(s: BuilderState, env: Env): (r: BuilderState)
    ensures s.withKiwixserve ==> r == s
    ensures r.withKiwixserve && r.config.files == s.config.files && r.dashboardEntries == s.dashboardEntries
    ensures r.withDashboard == s.withDashboard && r.withReverseproxy == s.withReverseproxy
    ensures r.withCaptivePortal == s.withCaptivePortal && r.withHwclock == s.withHwclock
    ensures r.environ == s.environ && r.name == s.name && r.config.ap == s.config.ap
    ensures s.config.services.Keys <= r.config.services.Keys && s.reversedServices <= r.reversedServices
  {
    if s.withKiwixserve then s
    else
      var s1 := WithService(s.(withKiwixserve := true), KiwixImage(env), "kiwix", KiwixService(env));
      var s2 := ServeZimDownloads(s1, env);
      s2.(reversedServices := s2.reversedServices + {"kiwix"})
  }

  /** When the dashboard offers downloads: the files service and the "zim-downloads" → "zims" mapping. */
  function ServeZimDownloads(s: BuilderState, env: Env): (r: BuilderState)
    ensures !OffersDownloads(s) ==> r == s
    ensures OffersDownloads(s) ==> r.withFiles && DictGet(r.filesMapping, "zim-downloads") == Some("zims")
    ensures OffersDownloads(s) && !s.withFiles ==> "files" in r.config.services
    ensures r.config.(ociImages := s.config.ociImages, services := s.config.services) == s.config
    ensures r.(config := s.config, withFiles := s.withFiles, filesMapping := s.filesMapping) == s
    ensures s.config.services.Keys <= r.config.services.Keys && s.config.ociImages <= r.config.ociImages
  {
    if OffersDownloads(s)
    then var f := AddFilesService(s, env); f.(filesMapping := DictSet(f.filesMapping, "zim-downloads", "zims"))
    else s
  }

  /**
   * `add_zim(zim)`: the card once, a file entry for the archive on every
   * call, then the kiwix service once.
   */
  function AddZim(s: BuilderState, zim: Package, env: Env): Outcome
    requires zim.ZimPackage?
  {
    var s1 := WithCard(s, zim);
    var added := AddFile(s1, zim.downloadUrl, ZimTarget(zim, env), "direct", zim.downloadSize, true, env.parseSize);
    if added.error.Some? then added
    else Outcome(AddKiwix(added.state, env), None)
  }

  /** The card list with `p` appended unless an equal package is already listed. */
  function WithCard(s: BuilderState, p: Package): (r: BuilderState)
    ensures p in r.dashboardEntries
    ensures p in s.dashboardEntries ==> r == s
  {
    if p in s.dashboardEntries then s else s.(dashboardEntries := s.dashboardEntries + [p])
  }

  /** The file record `add_zim` asks for. */
  function ZimFile(zim: Package, env: Env): Result<FileConfigs.FileConfig>
    requires zim.ZimPackage?
  {
    FileConfigs.NewFileConfig(AddFileArgs(zim.downloadUrl, ZimTarget(zim, env), "direct", zim.downloadSize, true), env.parseSize)
  }

  /** `add_zim` succeeds exactly when its file record does, and then appends that record. */
  lemma AddZimFile(s: BuilderState, zim: Package, env: Env)
    requires zim.ZimPackage?
    ensures AddZim(s, zim, env).error.None? <==> ZimFile(zim, env).Ok?
    ensures ZimFile(zim, env).Ok? ==>
              AddZim(s, zim, env).state.config.files == s.config.files + [ZimFile(zim, env).value]
              && AddZim(s, zim, env).state.dashboardEntries == WithCard(s, zim).dashboardEntries
  {
  }

  /**
   * Adding a ZIM twice lists its card once but its file twice; the second
   * call leaves services, images, flags and mappings as the first left them.
   */
  lemma AddZimTwice(s: BuilderState, zim: Package, env: Env)
    requires zim.ZimPackage?
    requires AddZim(s, zim, env).error.None?
    ensures var s1 := AddZim(s, zim, env).state;
            var s2 := AddZim(s1, zim, env);
            s2.error.None?
            && s2.state.dashboardEntries == s1.dashboardEntries
            && |s2.state.config.files| == |s1.config.files| + 1
            && s2.state.config.files[|s1.config.files|] == s1.config.files[|s1.config.files| - 1]
            && s2.state.config.services == s1.config.services
            && s2.state.config.ociImages == s1.config.ociImages
            && s2.state.reversedServices == s1.reversedServices
            && s2.state.filesMapping == s1.filesMapping
  {
    AddZimFile(s, zim, env);
    var s1 := AddZim(s, zim, env).state;
    assert zim in s1.dashboardEntries;
    assert s1.withKiwixserve;
    AddZimFile(s1, zim, env);
    var added := AddFile(s1, zim.downloadUrl, ZimTarget(zim, env), "direct", zim.downloadSize, true, env.parseSize);
    assert WithCard(s1, zim) == s1;
    assert added.state == s1.(config := s1.config.(files := s1.config.files + [ZimFile(zim, env).value]));
    assert AddZim(s1, zim, env).state == added.state;
  }

  /**
   * A first `add_zim` brings the kiwix service and its reverse-proxy entry;
   * when downloads are offered also the files service and the
   * "zim-downloads" → "zims" mapping, and otherwise no mapping change.
   */
  lemma AddZimBringsKiwix(s: BuilderState, zim: Package, env: Env)
    requires zim.ZimPackage? && !s.withKiwixserve && Consistent(s)
    requires ZimFile(zim, env).Ok?
    ensures var r := AddZim(s, zim, env).state;
            r.withKiwixserve && "kiwix" in r.config.services && "kiwix" in r.reversedServices
            && KiwixImage(env) in r.config.ociImages
    ensures var r := AddZim(s, zim, env).state;
            (OffersDownloads(s) ==> r.withFiles && "files" in r.config.services
                                    && DictGet(r.filesMapping, "zim-downloads") == Some("zims"))
            && (!OffersDownloads(s) ==> r.filesMapping == s.filesMapping && r.withFiles == s.withFiles)
  {
    var a := ZimFileAdded(s, zim, env);
    AddZimState(s, zim, env);
    KiwixAdded(a, env);
  }

  /** The state `add_zim` hands to its kiwix step. */
  function ZimFileAdded(s: BuilderState, zim: Package, env: Env): (a: BuilderState)
    requires zim.ZimPackage? && ZimFile(zim, env).Ok?
    ensures a.withKiwixserve == s.withKiwixserve && a.offersZimDownloads == s.offersZimDownloads
    ensures a.filesMapping == s.filesMapping && a.withFiles == s.withFiles
    ensures a.config.services == s.config.services && a.reversedServices == s.reversedServices
    ensures a.config.ociImages == s.config.ociImages
    ensures Consistent(s) ==> Consistent(a)
  {
    var s1 := WithCard(s, zim);
    s1.(config := s1.config.(files := s1.config.files + [ZimFile(zim, env).value]))
  }

  /** A successful `add_zim` is the kiwix step applied to the state with the card and the file. */
  lemma AddZimState(s: BuilderState, zim: Package, env: Env)
    requires zim.ZimPackage? && ZimFile(zim, env).Ok?
    ensures AddZim(s, zim, env).state == AddKiwix(ZimFileAdded(s, zim, env), env)
  {
  }

  /** What the first kiwix addition brings. */
  lemma KiwixAdded(a: BuilderState, env: Env)
    requires !a.withKiwixserve && Consistent(a)
    ensures var r := AddKiwix(a, env);
            "kiwix" in r.config.services && "kiwix" in r.reversedServices && KiwixImage(env) in r.config.ociImages
            && (OffersDownloads(a) ==> r.withFiles && "files" in r.config.services
                                       && DictGet(r.filesMapping, "zim-downloads") == Some("zims"))
            && (!OffersDownloads(a) ==> r.filesMapping == a.filesMapping && r.withFiles == a.withFiles)
  {
    var s1 := WithService(a.(withKiwixserve := true), KiwixImage(env), "kiwix", KiwixService(env));
    var s2 := ServeZimDownloads(s1, env);
    assert "kiwix" in s1.config.services && KiwixImage(env) in s1.config.ociImages;
    assert OffersDownloads(s1) == OffersDownloads(a) && s1.withFiles == a.withFiles;
    assert AddKiwix(a, env) == s2.(reversedServices := s2.reversedServices + {"kiwix"});
  }

  // ------------------------------------------------ add_files_package

  /**
   * `add_files_package(package)`: a package already listed makes the call a
   * no-op. Otherwise it is listed first; its file entry is then added
   * unless an equal one is there, the files service ensured, its domain
   * mapped to its ident and "files" reverse-proxied. A refused file entry
   * raises with the package already listed.
   */
  function AddFilesPackage(s: BuilderState, p: Package, env: Env): (r: Outcome)
    requires p.FilesPackage?
    ensures p in r.state.dashboardEntries
  {
    if p in s.dashboardEntries then Outcome(s, None)
    else
      var s1 := s.(dashboardEntries := s.dashboardEntries + [p]);
      match AsFileConfig(p, env)
      case Err(e) => Outcome(s1, Some(e))
      case Ok(fc) => Outcome(FilesPackageSteps(s1, p, fc, env), None)
  }

  /** What `add_files_package` does once the package is listed and its file entry built. */
  function FilesPackageSteps(s1: BuilderState, p: Package, fc: FileConfigs.FileConfig, env: Env): (r: BuilderState)
    ensures r.dashboardEntries == s1.dashboardEntries
    ensures fc in r.config.files
    ensures r.config.files == if fc in s1.config.files then s1.config.files else s1.config.files + [fc]
    ensures r.withFiles && r.reversedServices == s1.reversedServices + {"files"}
    ensures s1.config.services.Keys <= r.config.services.Keys
    ensures !s1.withFiles ==> "files" in r.config.services
    ensures r.withKiwixserve == s1.withKiwixserve && r.withReverseproxy == s1.withReverseproxy
    ensures r.withDashboard == s1.withDashboard && r.withCaptivePortal == s1.withCaptivePortal
    ensures r.withHwclock == s1.withHwclock
    ensures DictGet(r.filesMapping, p.info.domain) == Some(p.info.ident)
    ensures forall k :: k != p.info.domain ==> DictGet(r.filesMapping, k) == DictGet(s1.filesMapping, k)
  {
    FilesServed(WithFile(s1, fc), p, env)
  }

  /** The file entry appended, unless an equal one is already listed. */
  function WithFile(s: BuilderState, fc: FileConfigs.FileConfig): (r: BuilderState)
    ensures r.config.files == if fc in s.config.files then s.config.files else s.config.files + [fc]
    ensures r.config.(files := s.config.files) == s.config && r.(config := s.config) == s
  {
    if fc in s.config.files then s else s.(config := s.config.(files := s.config.files + [fc]))
  }

  /** The files service, the package's domain mapped to its ident, and "files" reverse-proxied. */
  function FilesServed(s: BuilderState, p: Package, env: Env): (r: BuilderState)
    ensures r.dashboardEntries == s.dashboardEntries && r.config.files == s.config.files
    ensures r.withFiles && r.reversedServices == s.reversedServices + {"files"}
    ensures s.config.services.Keys <= r.config.services.Keys
    ensures !s.withFiles ==> "files" in r.config.services
    ensures r.withKiwixserve == s.withKiwixserve && r.withReverseproxy == s.withReverseproxy
    ensures r.withDashboard == s.withDashboard && r.withCaptivePortal == s.withCaptivePortal
    ensures r.withHwclock == s.withHwclock
    ensures DictGet(r.filesMapping, p.info.domain) == Some(p.info.ident)
    ensures forall k :: k != p.info.domain ==> DictGet(r.filesMapping, k) == DictGet(s.filesMapping, k)
  {
    var s1 := AddFilesService(s, env);
    s1.(filesMapping := DictSet(s1.filesMapping, p.info.domain, p.info.ident),
        reversedServices := s1.reversedServices + {"files"})
  }

  /** The steps after listing keep the builder's invariant. */
  lemma FilesPackageStepsKeepConsistent(s1: BuilderState, p: Package, fc: FileConfigs.FileConfig, env: Env)
    requires Consistent(s1)
    ensures Consistent(FilesPackageSteps(s1, p, fc, env))
  {
    ConsistentGrows(s1, FilesPackageSteps(s1, p, fc, env));
  }

  /** Whatever the first call did, a second `add_files_package` of the same package changes nothing. */
  lemma AddFilesPackageOnce(s: BuilderState, p: Package, env: Env)
    requires p.FilesPackage?
    ensures var s1 := AddFilesPackage(s, p, env).state;
            p in s1.dashboardEntries && AddFilesPackage(s1, p, env) == Outcome(s1, None)
  {
  }

  /**
   * A successful first `add_files_package`: the package is the last card,
   * its file entry is present exactly once more than zero times (appended
   * only when absent), the files service is on, its domain maps to its
   * ident and "files" is reverse-proxied.
   */
  lemma AddFilesPackageResult(s: BuilderState, p: Package, env: Env)
    requires p.FilesPackage? && p !in s.dashboardEntries
    requires AsFileConfig(p, env).Ok?
    ensures var r := AddFilesPackage(s, p, env);
            var fc := AsFileConfig(p, env).value;
            r.error.None?
            && r.state.dashboardEntries == s.dashboardEntries + [p]
            && fc in r.state.config.files
            && r.state.config.files == (if fc in s.config.files then s.config.files else s.config.files + [fc])
            && r.state.withFiles && "files" in r.state.reversedServices
            && DictGet(r.state.filesMapping, p.info.domain) == Some(p.info.ident)
            && (forall k :: k != p.info.domain ==> DictGet(r.state.filesMapping, k) == DictGet(s.filesMapping, k))
  {
    var s1 := s.(dashboardEntries := s.dashboardEntries + [p]);
    assert AddFilesPackage(s, p, env).state == FilesPackageSteps(s1, p, AsFileConfig(p, env).value, env);
  }

  /** A refused file entry is raised after the package was listed, and nothing else changed. */
  lemma AddFilesPackageRefused(s: BuilderState, p: Package, env: Env)
    requires p.FilesPackage? && p !in s.dashboardEntries
    requires AsFileConfig(p, env).Err?
    ensures AddFilesPackage(s, p, env)
            == Outcome(s.(dashboardEntries := s.dashboardEntries + [p]), Some(AsFileConfig(p, env).error))
  {
  }

  /**
   * A state whose flags are a subset of a consistent state's, with at
   * least its services and reverse-proxied services, is consistent; the
   * files flag may be newly set when the files service came with it.
   */
  lemma ConsistentGrows(s: BuilderState, r: BuilderState)
    requires Consistent(s)
    requires s.config.services.Keys <= r.config.services.Keys && s.reversedServices <= r.reversedServices
    requires r.withDashboard ==> s.withDashboard
    requires r.withReverseproxy ==> s.withReverseproxy
    requires r.withCaptivePortal ==> s.withCaptivePortal
    requires r.withHwclock ==> s.withHwclock
    requires r.withKiwixserve ==> s.withKiwixserve || ("kiwix" in r.config.services && "kiwix" in r.reversedServices)
    requires r.withFiles ==> s.withFiles || "files" in r.config.services
    ensures Consistent(r)
  {
  }

  /**
   * The builder's invariant: every operation keeps each set flag's
   * service in the compose file.
   */
  lemma AddDashboardKeepsConsistent(s: BuilderState, a: Option<bool>, env: Env)
    requires Consistent(s)
    ensures Consistent(AddDashboard(s, a, env))
  {
  }

  lemma AddReverseproxyKeepsConsistent(s: BuilderState, env: Env)
    requires Consistent(s)
    ensures Consistent(AddReverseproxy(s, env))
  {
  }

  lemma AddCaptivePortalKeepsConsistent(s: BuilderState, env: Env)
    requires Consistent(s)
    ensures Consistent(AddCaptivePortal(s, env))
  {
  }

  lemma AddHwclockKeepsConsistent(s: BuilderState, env: Env)
    requires Consistent(s)
    ensures Consistent(AddHwclock(s, env))
  {
  }

  lemma AddFilesServiceKeepsConsistent(s: BuilderState, env: Env)
    requires Consistent(s)
    ensures Consistent(AddFilesService(s, env))
  {
  }

  lemma AddKiwixKeepsConsistent(a: BuilderState, env: Env)
    requires Consistent(a)
    ensures Consistent(AddKiwix(a, env))
  {
    if !a.withKiwixserve {
      KiwixAdded(a, env);
      ConsistentGrows(a, AddKiwix(a, env));
    }
  }

  lemma AddZimKeepsConsistent(s: BuilderState, zim: Package, env: Env)
    requires Consistent(s) && zim.ZimPackage?
    ensures Consistent(AddZim(s, zim, env).state)
  {
    if ZimFile(zim, env).Ok? {
      AddZimState(s, zim, env);
      AddKiwixKeepsConsistent(ZimFileAdded(s, zim, env), env);
    } else {
      AddZimFile(s, zim, env);
      ConsistentGrows(s, AddZim(s, zim, env).state);
    }
  }

  lemma AddFilesPackageKeepsConsistent(s: BuilderState, p: Package, env: Env)
    requires Consistent(s) && p.FilesPackage?
    ensures Consistent(AddFilesPackage(s, p, env).state)
  {
    if p !in s.dashboardEntries && AsFileConfig(p, env).Ok? {
      var s1 := s.(dashboardEntries := s.dashboardEntries + [p]);
      FilesPackageStepsKeepConsistent(s1, p, AsFileConfig(p, env).value, env);
    }
  }

  // ---------------------------------------------------- resolved_variable

  /** A macro: `${NAME}`. */
  function Macro(name: string): string
  {
    "${" + name + "}"
  }

  /** Macro names are upper-case letters and underscores. */
  predicate IsMacroName(n: string)
  {
    forall k :: 0 <= k < |n| ==> IsUpperChar(n[k]) || n[k] == '_'
  }

  /** The six macros with their values, in the order `resolved_variable` replaces them. */
  function Macros(p: Package, fqdn: string): (ms: seq<(string, string)>)
    ensures |ms| == 6 && forall k :: 0 <= k < 6 ==> |ms[k].0| > 0 && ms[k].0[0] == '$'
    ensures forall k :: 0 <= k < 6 ==> ms[k].0 == Macro(MacroNames[k])
  {
    [(Macro(MacroNames[0]), Catalog.GetAppPath(p)), (Macro(MacroNames[1]), fqdn),
     (Macro(MacroNames[2]), p.info.ident), (Macro(MacroNames[3]), p.info.domain),
     (Macro(MacroNames[4]), p.info.domain + "." + fqdn), (Macro(MacroNames[5]), "reverse-proxy")]
  }

  /** The names of the six macros, in the order `resolved_variable` replaces them. */
  const MacroNames: seq<string> :=
    ["APP_DIR", "FQDN", "PACKAGE_IDENT", "PACKAGE_DOMAIN", "PACKAGE_FQDN", "REVERSE_NAME"]

  /** The six names are macro names and pairwise different. */
  lemma MacroNamesApart()
    ensures |MacroNames| == 6
    ensures forall k :: 0 <= k < 6 ==> IsMacroName(MacroNames[k])
    ensures forall j, k :: 0 <= j < k < 6 ==> MacroNames[j] != MacroNames[k]
  {
    assert IsMacroName("APP_DIR") && IsMacroName("FQDN") && IsMacroName("PACKAGE_IDENT");
    assert IsMacroName("PACKAGE_DOMAIN") && IsMacroName("PACKAGE_FQDN") && IsMacroName("REVERSE_NAME");
  }

  /** Applies the replacements of `ms` in order. */
  function ReplaceAll(text: string, ms: seq<(string, string)>): string
    requires forall k :: 0 <= k < |ms| ==> |ms[k].0| > 0
    decreases |ms|
  {
    if |ms| == 0 then text else ReplaceAll(Replace(text, ms[0].0, ms[0].1), ms[1..])
  }

  /**
   * `resolved_variable(text, package)` under the builder's `fqdn`:
   * `${APP_DIR}`, `${FQDN}`, `${PACKAGE_IDENT}`, `${PACKAGE_DOMAIN}`,
   * `${PACKAGE_FQDN}` and `${REVERSE_NAME}` replaced in that order.
   */
  function Resolved(text: string, p: Package, fqdn: string): string
  {
    ReplaceAll(text, Macros(p, fqdn))
  }

  /** Text without a `$` holds no pattern that starts with one. */
  lemma NoDollarNoMacro(s: string, pat: string)
    requires '$' !in s && |pat| > 0 && pat[0] == '$'
    ensures !Contains(s, pat)
  {
    forall i | 0 <= i <= |s|
      ensures !OccursAt(s, pat, i)
    {
      if i + |pat| <= |s| {
        assert s[i..i + |pat|][0] == s[i] != '$';
      }
    }
  }

  /** A `$`-free text is untouched by any replacement of `$` patterns. */
  lemma {:induction false} ReplaceAllPlain(text: string, ms: seq<(string, string)>)
    requires forall k :: 0 <= k < |ms| ==> |ms[k].0| > 0 && ms[k].0[0] == '$'
    requires '$' !in text
    ensures ReplaceAll(text, ms) == text
    decreases |ms|
  {
    if |ms| > 0 {
      NoDollarNoMacro(text, ms[0].0);
      ReplaceAbsent(text, ms[0].0, ms[0].1);
      ReplaceAllPlain(text, ms[1..]);
    }
  }

  /** Text without a `$` is left as it is. */
  lemma ResolvedPlain(text: string, p: Package, fqdn: string)
    requires '$' !in text
    ensures Resolved(text, p, fqdn) == text
  {
    ReplaceAllPlain(text, Macros(p, fqdn));
  }

  /** A `$`-free prefix is passed over by a replacement of a `$` pattern. */
  lemma {:induction false} ReplacePlainPrefix(a: string, b: string, pat: string, rep: string)
    requires '$' !in a && |pat| > 0 && pat[0] == '$'
    ensures Replace(a + b, pat, rep) == a + Replace(b, pat, rep)
    decreases |a|
  {
    if |a| > 0 {
      var s := a + b;
      if |s| >= |pat| {
        assert s[..|pat|][0] == a[0] != '$';
        assert s[1..] == a[1..] + b;
        ReplacePlainPrefix(a[1..], b, pat, rep);
        assert a == [a[0]] + a[1..];
      } else {
        assert |b| < |pat|;
      }
    } else {
      assert a + b == b;
    }
  }

  /** A `$`-free prefix is kept and only the rest is resolved. */
  lemma {:induction false} ReplaceAllPlainPrefix(a: string, b: string, ms: seq<(string, string)>)
    requires forall k :: 0 <= k < |ms| ==> |ms[k].0| > 0 && ms[k].0[0] == '$'
    requires '$' !in a
    ensures ReplaceAll(a + b, ms) == a + ReplaceAll(b, ms)
    decreases |ms|
  {
    if |ms| > 0 {
      ReplacePlainPrefix(a, b, ms[0].0, ms[0].1);
      ReplaceAllPlainPrefix(a, Replace(b, ms[0].0, ms[0].1), ms[1..]);
    }
  }

  /**
   * Resolving keeps a `$`-free prefix and resolves the rest: a URL such as
   * "https://" + "${FQDN}" becomes "https://" and the fqdn.
   */
  lemma ResolvedAfterPlain(a: string, b: string, p: Package, fqdn: string)
    requires '$' !in a
    ensures Resolved(a + b, p, fqdn) == a + Resolved(b, p, fqdn)
  {
    ReplaceAllPlainPrefix(a, b, Macros(p, fqdn));
  }

  /** Replacements of patterns absent from the text can be skipped. */
  lemma {:induction false} ReplaceAllSkips(text: string, ms: seq<(string, string)>, i: nat)
    requires forall k :: 0 <= k < |ms| ==> |ms[k].0| > 0
    requires i <= |ms|
    requires forall k :: 0 <= k < i ==> !Contains(text, ms[k].0)
    ensures ReplaceAll(text, ms) == ReplaceAll(text, ms[i..])
    decreases i
  {
    if i > 0 {
      ReplaceAbsent(text, ms[0].0, ms[0].1);
      ReplaceAllSkips(text, ms[1..], i - 1);
      assert ms[1..][i - 1..] == ms[i..];
    }
  }

  /** The characters of a macro: `$`, `{`, the name, `}`. */
  lemma MacroChars(n: string)
    requires IsMacroName(n)
    ensures var x := Macro(n);
            |x| == |n| + 3 && x[0] == '$' && x[1] == '{' && x[|x| - 1] == '}'
            && (forall k :: 0 < k < |x| ==> x[k] != '$')
            && (forall k :: 0 <= k < |x| - 1 ==> x[k] != '}')
            && x[2..|x| - 1] == n
  {
    var x := Macro(n);
    assert forall k :: 2 <= k < |x| - 1 ==> x[k] == n[k - 2];
  }

  /** One macro never occurs inside another. */
  lemma MacroNotIn(n: string, m: string)
    requires IsMacroName(n) && IsMacroName(m) && n != m
    ensures !Contains(Macro(n), Macro(m))
  {
    var x, y := Macro(n), Macro(m);
    MacroChars(n);
    MacroChars(m);
    forall i | 0 <= i <= |x|
      ensures !OccursAt(x, y, i)
    {
      if i + |y| <= |x| {
        if i > 0 {
          assert x[i..i + |y|][0] == x[i] != y[0];
        } else if |y| < |x| {
          assert x[..|y|][|y| - 1] == x[|y| - 1] != y[|y| - 1];
        } else {
          assert x[..|y|] == x;
          assert x[2..|x| - 1] != y[2..|y| - 1];
        }
      }
    }
  }

  /** The `i`-th macro alone resolves to its value, when that value holds no `$`. */
  lemma MacroAlone(i: nat, p: Package, fqdn: string)
    requires i < 6 && '$' !in Macros(p, fqdn)[i].1
    ensures Resolved(Macros(p, fqdn)[i].0, p, fqdn) == Macros(p, fqdn)[i].1
  {
    var ms := Macros(p, fqdn);
    MacroNamesApart();
    forall k | 0 <= k < i
      ensures !Contains(ms[i].0, ms[k].0)
    {
      MacroNotIn(MacroNames[i], MacroNames[k]);
    }
    PatternAlone(ms, i);
  }

  /** A pattern that holds none of the earlier ones is replaced by its `$`-free value, and nothing more. */
  lemma PatternAlone(ms: seq<(string, string)>, i: nat)
    requires forall k :: 0 <= k < |ms| ==> |ms[k].0| > 0 && ms[k].0[0] == '$'
    requires i < |ms| && '$' !in ms[i].1
    requires forall k :: 0 <= k < i ==> !Contains(ms[i].0, ms[k].0)
    ensures ReplaceAll(ms[i].0, ms) == ms[i].1
  {
    var pat := ms[i].0;
    ReplaceAllSkips(pat, ms, i);
    assert ms[i..][0] == ms[i] && ms[i..][1..] == ms[i + 1..];
    ReplaceWhole(pat, ms[i].1);
    ReplaceAllPlain(ms[i].1, ms[i + 1..]);
  }

  /**
   * Each macro on its own becomes its value (when the values hold no `$`):
   * `${FQDN}` the builder's fqdn, `${APP_DIR}` the app's directory,
   * `${PACKAGE_FQDN}` the package's domain under the fqdn, and so on.
   */
  lemma ResolvedMacros(p: Package, fqdn: string)
    requires '$' !in fqdn && '$' !in p.info.ident && '$' !in p.info.domain && '$' !in Catalog.GetAppPath(p)
    ensures Resolved(Macro("APP_DIR"), p, fqdn) == Catalog.GetAppPath(p)
    ensures Resolved(Macro("FQDN"), p, fqdn) == fqdn
    ensures Resolved(Macro("PACKAGE_IDENT"), p, fqdn) == p.info.ident
    ensures Resolved(Macro("PACKAGE_DOMAIN"), p, fqdn) == p.info.domain
    ensures Resolved(Macro("PACKAGE_FQDN"), p, fqdn) == p.info.domain + "." + fqdn
    ensures Resolved(Macro("REVERSE_NAME"), p, fqdn) == "reverse-proxy"
  {
    var ms := Macros(p, fqdn);
    MacroAlone(0, p, fqdn);
    MacroAlone(1, p, fqdn);
    MacroAlone(2, p, fqdn);
    MacroAlone(3, p, fqdn);
    assert '$' !in p.info.domain + "." + fqdn;
    MacroAlone(4, p, fqdn);
    MacroAlone(5, p, fqdn);
  }
}
