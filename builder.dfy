/**
 * `ConfigBuilder`: the object that assembles an image manifest call by
 * call. Its attributes are fields updated in place; every method is
 * proved to leave the state the matching function of `BuilderSpec`,
 * `BuilderApp` or `BuilderRender` describes, where the properties of the
 * operations are proved.
 */
module Builder {
  import opened Wrappers
  import opened Strings
  import opened Values
  import opened Collaborators
  import opened Packages
  import opened BuilderSpec
  import BuilderApp
  import BuilderRender
  import BaseConfigs
  import OciImages
  import FileConfigs

  class ConfigBuilder {
    var name: string
    var environ: map<string, string>
    /** `config`, its compose services included. */
    var config: Manifest
    var dashboardOffersZimDownloads: Option<bool>
    var dashboardEntries: seq<Package>
    var reversedServices: set<string>
    var filesMapping: Items
    var withKiwixserve: bool
    var withFiles: bool
    var withReverseproxy: bool
    var withDashboard: bool
    var withCaptivePortal: bool
    var withHwclock: bool

    /** The builder's attributes as one value. */
    function State(): BuilderState
      reads this
    {
      BuilderState(name, environ, config, dashboardOffersZimDownloads, dashboardEntries, reversedServices,
                   filesMapping, withKiwixserve, withFiles, withReverseproxy, withDashboard, withCaptivePortal,
                   withHwclock)
    }

    /** `ConfigBuilder(base=…, …)` with the source's defaults. */
    constructor (base: BaseConfigs.BaseConfig, name: string := "My Offspot", tld: Option<string> := Some("offspot"),
                 domain: Option<string> := Some("my-offspot"), ssid: Option<string> := Some("my-offspot"),
                 passphrase: Option<string> := None, asGateway: Option<bool> := Some(false),
                 environ: Option<map<string, string>> := None, writeConfig: Option<bool> := Some(false))
      ensures State() == Initial(base, name, tld, domain, ssid, passphrase, asGateway, environ, writeConfig)
    {
      this.name := name;
      this.environ := if environ.Some? then environ.value else map[];
      config := Manifest(base.source, base.rootfsSize, FileConfigs.SizeText("auto"), writeConfig, {}, [], map[],
                         Ap(domain, tld, ssid, passphrase, asGateway));
      dashboardOffersZimDownloads := Some(true);
      dashboardEntries := [];
      reversedServices := {};
      filesMapping := [];
      withKiwixserve := false;
      withFiles := false;
      withReverseproxy := false;
      withDashboard := false;
      withCaptivePortal := false;
      withHwclock := false;
    }

    /** Adds an image and a compose service under `key`. */
    method AddService(img: OciImages.OCIImage, key: string, svc: Service)
      modifies this
      ensures State() == WithService(old(State()), img, key, svc)
    {
      config := config.(ociImages := config.ociImages + {img}, services := config.services[key := svc]);
    }

    /** `set_output_size(size)`: the output size becomes that int; nothing else changes. */
    method SetOutputSize(size: int)
      modifies this
      ensures State() == old(State()).(config := old(config).(outputSize := FileConfigs.SizeInt(size)))
    {
      config := config.(outputSize := FileConfigs.SizeInt(size));
    }

    /** `add_dashboard(allow_zim_downloads=…)`. */
    method AddDashboard(allowZimDownloads: Option<bool>, env: Env)
      modifies this
      ensures State() == BuilderSpec.AddDashboard(old(State()), allowZimDownloads, env)
    {
      dashboardOffersZimDownloads := allowZimDownloads;
      if withDashboard {
        return;
      }
      withDashboard := true;
      AddService(DashboardImage(env), "home", HomeService(env));
    }

    /** `add_reverseproxy()`. */
    method AddReverseproxy(env: Env)
      modifies this
      ensures State() == BuilderSpec.AddReverseproxy(old(State()), env)
    {
      if withReverseproxy {
        return;
      }
      withReverseproxy := true;
      AddService(ReverseProxyImage(env), "reverse-proxy", ReverseProxyService(Fqdn(State()), env));
    }

    /** `add_captive_portal()`. */
    method AddCaptivePortal(env: Env)
      modifies this
      ensures State() == BuilderSpec.AddCaptivePortal(old(State()), env)
    {
      if withCaptivePortal {
        return;
      }
      withCaptivePortal := true;
      AddService(CaptivePortalImage(env), "home-portal", CaptivePortalService(name, Fqdn(State()), env));
    }

    /** `add_hwclock()`. */
    method AddHwclock(env: Env)
      modifies this
      ensures State() == BuilderSpec.AddHwclock(old(State()), env)
    {
      if withHwclock {
        return;
      }
      withHwclock := true;
      AddService(HwclockImage(env), "hwclock", HwclockService(environ, env));
      reversedServices := reversedServices + {"hwclock"};
    }

    /** `add_files_service()`. */
    method AddFilesService(env: Env)
      modifies this
      ensures State() == BuilderSpec.AddFilesService(old(State()), env)
    {
      if !withFiles {
        AddService(FilesImage(env), "files", FilesService(env));
        withFiles := true;
      }
    }

    /** `add_file(url_or_content=…, to=…, via=…, size=…, is_url=…)`; the exception, if any, is returned. */
    method AddFile(urlOrContent: string, to: string, via: string, size: int, isUrl: bool, env: Env)
      returns (e: Option<Error>)
      modifies this
      ensures Outcome(State(), e) == BuilderSpec.AddFile(old(State()), urlOrContent, to, via, size, isUrl, env.parseSize)
    {
      var fc := FileConfigs.NewFileConfig(AddFileArgs(urlOrContent, to, via, size, isUrl), env.parseSize);
      if fc.Err? {
        return Some(fc.error);
      }
      config := config.(files := config.files + [fc.value]);
      return None;
    }

    /** `add_zim(zim)`. */
    method AddZim(zim: Package, env: Env) returns (e: Option<Error>)
      requires zim.ZimPackage?
      modifies this
      ensures Outcome(State(), e) == BuilderSpec.AddZim(old(State()), zim, env)
    {
      AddCard(zim);
      e := AddFile(zim.downloadUrl, ZimTarget(zim, env), "direct", zim.downloadSize, true, env);
      if e.None? {
        AddKiwixService(env);
      }
    }

    /** The package's dashboard card, unless an equal one is listed. */
    method AddCard(p: Package)
      modifies this
      ensures State() == WithCard(old(State()), p)
    {
      if p !in dashboardEntries {
        dashboardEntries := dashboardEntries + [p];
      }
    }

    /** The part of `add_zim` after its file entry: the kiwix service, once. */
    method AddKiwixService(env: Env)
      modifies this
      ensures State() == AddKiwix(old(State()), env)
    {
      if withKiwixserve {
        return;
      }
      withKiwixserve := true;
      AddService(KiwixImage(env), "kiwix", KiwixService(env));
      ServeZimDownloads(env);
      reversedServices := reversedServices + {"kiwix"};
    }

    /** The files service and the ZIM downloads mapping, when the dashboard offers downloads. */
    method ServeZimDownloads(env: Env)
      modifies this
      ensures State() == BuilderSpec.ServeZimDownloads(old(State()), env)
    {
      if dashboardOffersZimDownloads == Some(true) {
        AddFilesService(env);
        filesMapping := DictSet(filesMapping, "zim-downloads", "zims");
      }
    }

    /** `add_files_package(package)`. */
    method AddFilesPackage(package: Package, env: Env) returns (e: Option<Error>)
      requires package.FilesPackage?
      modifies this
      ensures Outcome(State(), e) == BuilderSpec.AddFilesPackage(old(State()), package, env)
    {
      if package in dashboardEntries {
        return None;
      }
      dashboardEntries := dashboardEntries + [package];
      var fc := AsFileConfig(package, env);
      if fc.Err? {
        return Some(fc.error);
      }
      ServeFilesPackage(package, fc.value, env);
      return None;
    }

    /** `add_files_package` once the package is listed and its file entry built. */
    method ServeFilesPackage(package: Package, fc: FileConfigs.FileConfig, env: Env)
      modifies this
      ensures State() == FilesPackageSteps(old(State()), package, fc, env)
    {
      AddFileEntry(fc);
      ServeFiles(package, env);
    }

    /** The package's file entry, unless an equal one is already listed. */
    method AddFileEntry(fc: FileConfigs.FileConfig)
      modifies this
      ensures State() == WithFile(old(State()), fc)
    {
      if fc !in config.files {
        config := config.(files := config.files + [fc]);
      }
    }

    /** The files service, the package's mapping and its reverse-proxy entry. */
    method ServeFiles(package: Package, env: Env)
      modifies this
      ensures State() == FilesServed(old(State()), package, env)
    {
      AddFilesService(env);
      filesMapping := DictSet(filesMapping, package.info.domain, package.info.ident);
      reversedServices := reversedServices + {"files"};
    }

    /**
     * `add_app(package, environ)`: `caller` is the items of the `environ`
     * argument (none when it is None). The exception, if any, is returned;
     * the work done before it stays.
     */
    method AddApp(package: Package, caller: Items, env: Env) returns (e: Option<Error>)
      requires package.AppPackage?
      modifies this
      ensures Outcome(State(), e) == BuilderApp.AddApp(old(State()), package, caller, env)
    {
      if package.info.kind != "app" {
        return Some(ValueError("Package " + package.info.ident + " is not an app"));
      }
      if package.info.ident in config.services {
        return None;
      }
      var fc := BuilderApp.AppFile(package, env);
      if fc.Err? {
        return Some(fc.error);
      }
      e := InstallApp(package, fc.value, caller, env);
    }

    /** The service's environment, layer by layer, as `add_app` updates it. */
    method AppEnvironment(package: Package, caller: Items, fqdn: string) returns (environment: map<string, string>)
      requires package.AppPackage?
      ensures environment == BuilderApp.AppEnvironment(package, caller, environ, fqdn)
    {
      var own := BuilderApp.ItemsOf(package.environ);
      environment := map[];
      for i := 0 to |own|
        invariant environment == BuilderApp.ResolvedInto(map[], own[..i], package, fqdn)
      {
        assert own[..i + 1][..i] == own[..i];
        environment := environment[own[i].0 := Resolved(own[i].1, package, fqdn)];
      }
      assert own[..|own|] == own;
      ghost var layer := environment;
      var environMap := BuilderApp.ItemsOf(package.environMap);
      for i := 0 to |environMap|
        invariant environment == BuilderApp.MappedInto(layer, environMap[..i], environ, package, fqdn)
      {
        assert environMap[..i + 1][..i] == environMap[..i];
        var globalName := environMap[i].0;
        var value := if globalName in environ then environ[globalName] else "";
        environment := environment[environMap[i].1 := Resolved(value, package, fqdn)];
      }
      assert environMap[..|environMap|] == environMap;
      layer := environment;
      for i := 0 to |caller|
        invariant environment == BuilderApp.ResolvedInto(layer, caller[..i], package, fqdn)
      {
        assert caller[..i + 1][..i] == caller[..i];
        environment := environment[caller[i].0 := Resolved(caller[i].1, package, fqdn)];
      }
      assert caller[..|caller|] == caller;
    }

    /**
     * `add_app` once its file entry is settled: image, service, mounts,
     * links, then sub-services. The mounts depend on nothing the earlier
     * steps change, so they are computed first and stored with the service,
     * the partial list included when a spec is refused.
     */
    method InstallApp(package: Package, fc: Option<FileConfigs.FileConfig>, caller: Items, env: Env)
      returns (e: Option<Error>)
      requires package.AppPackage?
      modifies this
      ensures Outcome(State(), e) == BuilderApp.AppSteps(old(State()), package, fc, caller, env)
    {
      var fqdn := Fqdn(State());
      var mounts, refused := VolumeMounts(package, fqdn);
      RegisterApp(package, fc, caller, mounts, env);
      if refused.Some? {
        return refused;
      }
      e := LinkApp(package, fqdn);
    }

    /** The links, the sub-services and the app's domain, after its service is in. */
    method LinkApp(package: Package, fqdn: string) returns (e: Option<Error>)
      requires package.AppPackage? && package.info.ident in config.services
      modifies this
      ensures Outcome(State(), e) == BuilderApp.AppLinked(old(State()), package, fqdn)
    {
      ResolveLinks(package, fqdn);
      e := AddSubServices(package, fqdn);
      if e.None? {
        reversedServices := reversedServices + {package.info.domain};
      }
    }

    /** The links of the app's service. */
    method ResolveLinks(package: Package, fqdn: string)
      requires package.AppPackage? && package.info.ident in config.services
      modifies this
      ensures var ident := package.info.ident;
              State() == old(State()).(config := old(config).(services := old(config).services[
                ident := BuilderApp.WithLinks(old(config).services[ident], package, fqdn)]))
    {
      var ident := package.info.ident;
      config := config.(services := config.services[ident := BuilderApp.WithLinks(config.services[ident], package, fqdn)]);
    }

    /** The app's file entry, image and service with its environment and mounts. */
    method RegisterApp(package: Package, fc: Option<FileConfigs.FileConfig>, caller: Items, mounts: seq<Mount>,
                       env: Env)
      requires package.AppPackage?
      modifies this
      ensures State() == BuilderApp.AppInstalled(old(State()), package, fc, caller, mounts, env)
    {
      if fc.Some? {
        config := config.(files := config.files + [fc.value]);
      }
      var environment := AppEnvironment(package, caller, Fqdn(State()));
      AddService(AppImage(package, env), package.info.ident, BuilderApp.AppService(package, environment, mounts, env));
    }

    /** The `volumes` loop: one mount per spec, in order, until one is refused. */
    method VolumeMounts(package: Package, fqdn: string) returns (mounts: seq<Mount>, e: Option<Error>)
      requires package.AppPackage?
      ensures (mounts, e) == BuilderApp.Volumes(BuilderApp.ItemsOf'(package.volumes), package, fqdn)
    {
      var specs := BuilderApp.ItemsOf'(package.volumes);
      mounts := [];
      for i := 0 to |specs|
        invariant BuilderApp.Volumes(specs[..i], package, fqdn) == (mounts, None)
      {
        assert specs[..i + 1][..i] == specs[..i];
        var mount := BuilderApp.VolumeOf(specs[i], package, fqdn);
        if mount.Err? {
          BuilderApp.VolumesStop(specs, i + 1, package, fqdn);
          return mounts, Some(mount.error);
        }
        mounts := mounts + [mount.value];
      }
      assert specs[..|specs|] == specs;
      return mounts, None;
    }

    /** The `sub_services` loop: one reverse-proxy entry each, until a target cannot be unpacked. */
    method AddSubServices(package: Package, fqdn: string) returns (e: Option<Error>)
      requires package.AppPackage?
      modifies this
      ensures var subs := BuilderApp.SubServices(old(reversedServices), BuilderApp.ItemsOf(package.subServices),
                                                 package, fqdn);
              e == subs.1 && State() == old(State()).(reversedServices := subs.0)
    {
      var services;
      services, e := SubServicesLoop(reversedServices, BuilderApp.ItemsOf(package.subServices), package, fqdn);
      reversedServices := services;
    }

    /** `resolved_variable(text, package)`. */
    function ResolvedVariable(text: string, package: Package): string
      reads this
    {
      Resolved(text, package, Fqdn(State()))
    }

    /** `get_min_size()`, the image set walked in the order `images` lists it. */
    function GetMinSize(images: seq<OciImages.OCIImage>, env: Env): (r: Result<int>)
      reads this
      requires multiset(images) == multiset(config.ociImages)
      ensures r == BuilderRender.GetMinSize(State(), images, env)
    {
      BuilderRender.GetMinSize(State(), images, env)
    }

    /** `gen_dashboard_config()`; the exception, if any, is returned. */
    method GenDashboardConfig(dump: Value -> string, env: Env) returns (e: Option<Error>)
      modifies this
      ensures Outcome(State(), e) == BuilderRender.GenDashboardConfig(old(State()), dump, env)
    {
      if |dashboardEntries| > 0 {
        return Some(TypeError("to_dashboard_entry() missing kiwix_domain"));
      }
      e := AddFile(dump(BuilderRender.DashboardPayload(State())), BuilderRender.DashboardTarget, "direct", 0, false,
                   env);
    }

    /**
     * `render()` up to the YAML dump, which is left out; `order` is the
     * order in which the set of reverse-proxied services is walked.
     */
    method Render(order: seq<string>, dump: Value -> string, env: Env) returns (e: Option<Error>)
      requires multiset(order) == multiset(reversedServices)
      modifies this
      ensures Outcome(State(), e) == BuilderRender.Render(old(State()), order, dump, env)
    {
      if withDashboard {
        e := GenDashboardConfig(dump, env);
        if e.Some? {
          return;
        }
      }
      if "reverse-proxy" !in config.services {
        return Some(KeyError("reverse-proxy"));
      }
      var proxy := config.services["reverse-proxy"];
      if proxy.environment.None? {
        return Some(KeyError("environment"));
      }
      var environment := proxy.environment.value["SERVICES" := BuilderRender.ServicesValue(order)]
                                                ["FILES_MAPPING" := BuilderRender.MappingValue(filesMapping)];
      config := config.(services := config.services["reverse-proxy" := proxy.(environment := Some(environment))]);
      return None;
    }
  }

  /** The `sub_services` loop over a copy of the reverse-proxied names. */
  method SubServicesLoop(start: set<string>, subs: Items, package: Package, fqdn: string)
    returns (services: set<string>, e: Option<Error>)
    ensures (services, e) == BuilderApp.SubServices(start, subs, package, fqdn)
  {
    services := start;
    for i := 0 to |subs|
      invariant BuilderApp.SubServices(start, subs[..i], package, fqdn) == (services, None)
    {
      assert subs[..i + 1][..i] == subs[..i];
      var entry := BuilderApp.SubServiceOf(subs[i].0, subs[i].1, package, fqdn);
      if entry.Err? {
        BuilderApp.SubServicesStop(start, subs, i + 1, package, fqdn);
        return services, Some(entry.error);
      }
      services := services + {entry.value};
    }
    assert subs[..|subs|] == subs;
    return services, None;
  }
}
