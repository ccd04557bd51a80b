/**
 * `ConfigBuilder.add_app`: the app's image and compose service, with its
 * environment built in three layers, its bind mounts and links, and its
 * sub-domains handed to the reverse proxy.
 */
module BuilderApp {
  import opened Wrappers
  import opened Strings
  import opened Values
  import opened Collaborators
  import opened Packages
  import opened BuilderSpec
  import MainConfigs

  // ------------------------------------------------------- environment

  /** The value a dict built from `items` holds for `k`: the last item with that key. */
  function LastGet(items: Items, k: string): Option<string>
    decreases |items|
  {
    if |items| == 0 then None
    else if items[|items| - 1].0 == k then Some(items[|items| - 1].1)
    else LastGet(items[..|items| - 1], k)
  }

  /** The global name read by the last `environ_map` entry whose local name is `k`. */
  function LastSourceFor(environMap: Items, k: string): Option<string>
    decreases |environMap|
  {
    if |environMap| == 0 then None
    else if environMap[|environMap| - 1].1 == k then Some(environMap[|environMap| - 1].0)
    else LastSourceFor(environMap[..|environMap| - 1], k)
  }

  /** `env.update({key: resolved_variable(value)})` for each item in turn. */
  function ResolvedInto(m: map<string, string>, items: Items, p: Package, fqdn: string): map<string, string>
    decreases |items|
  {
    if |items| == 0 then m
    else
      var last := items[|items| - 1];
      ResolvedInto(m, items[..|items| - 1], p, fqdn)[last.0 := Resolved(last.1, p, fqdn)]
  }

  /** The `environ_map` layer: each local name gets the builder's global value, "" when it is missing. */
  function MappedInto(m: map<string, string>, environMap: Items, environ: map<string, string>,
                      p: Package, fqdn: string): map<string, string>
    decreases |environMap|
  {
    if |environMap| == 0 then m
    else
      var last := environMap[|environMap| - 1];
      MappedInto(m, environMap[..|environMap| - 1], environ, p, fqdn)[last.1 := Resolved(EnvGet(environ, last.0), p, fqdn)]
  }

  /** A layer of resolved items holds the resolved last value of each of its keys, and keeps the rest. */
  lemma {:induction false} ResolvedIntoGet(m: map<string, string>, items: Items, p: Package, fqdn: string, k: string)
    ensures var r := ResolvedInto(m, items, p, fqdn);
            (LastGet(items, k).Some? ==> k in r && r[k] == Resolved(LastGet(items, k).value, p, fqdn))
            && (LastGet(items, k).None? ==> (k in r <==> k in m) && (k in m ==> r[k] == m[k]))
    decreases |items|
  {
    if |items| > 0 {
      ResolvedIntoGet(m, items[..|items| - 1], p, fqdn, k);
    }
  }

  /** The `environ_map` layer sets each mapped local name and keeps the rest. */
  lemma {:induction false} MappedIntoGet(m: map<string, string>, environMap: Items, environ: map<string, string>,
                                         p: Package, fqdn: string, k: string)
    ensures var r := MappedInto(m, environMap, environ, p, fqdn);
            (LastSourceFor(environMap, k).Some? ==>
               k in r && r[k] == Resolved(EnvGet(environ, LastSourceFor(environMap, k).value), p, fqdn))
            && (LastSourceFor(environMap, k).None? ==> (k in r <==> k in m) && (k in m ==> r[k] == m[k]))
    decreases |environMap|
  {
    if |environMap| > 0 {
      MappedIntoGet(m, environMap[..|environMap| - 1], environ, p, fqdn, k);
    }
  }

  /** An optional dict's items, none when it is missing. */
  function ItemsOf(o: Option<Items>): Items
  {
    if o.Some? then o.value else []
  }

  /**
   * The service's environment: the package's `environ`, then its
   * `environ_map` fed from the builder's environ, then the caller's
   * `environ`; every value goes through `resolved_variable`.
   */
  function AppEnvironment(p: Package, caller: Items, environ: map<string, string>, fqdn: string): map<string, string>
    requires p.AppPackage?
  {
    var own := ResolvedInto(map[], ItemsOf(p.environ), p, fqdn);
    var mapped := MappedInto(own, ItemsOf(p.environMap), environ, p, fqdn);
    ResolvedInto(mapped, caller, p, fqdn)
  }

  /**
   * Later layers win: a key the caller sets has the caller's value, else a
   * key `environ_map` targets has the (resolved) global value or "", else
   * a key of the package's own `environ` has that value, and no other key
   * is set.
   */
  lemma EnvironmentLayers(p: Package, caller: Items, environ: map<string, string>, fqdn: string, k: string)
    requires p.AppPackage?
    ensures var e := AppEnvironment(p, caller, environ, fqdn);
            var fromCaller := LastGet(caller, k);
            var fromMap := LastSourceFor(ItemsOf(p.environMap), k);
            var fromPackage := LastGet(ItemsOf(p.environ), k);
            (fromCaller.Some? ==> k in e && e[k] == Resolved(fromCaller.value, p, fqdn))
            && (fromCaller.None? && fromMap.Some? ==>
                  k in e && e[k] == Resolved(EnvGet(environ, fromMap.value), p, fqdn))
            && (fromCaller.None? && fromMap.None? && fromPackage.Some? ==>
                  k in e && e[k] == Resolved(fromPackage.value, p, fqdn))
            && (fromCaller.None? && fromMap.None? && fromPackage.None? ==> k !in e)
  {
    var own := ResolvedInto(map[], ItemsOf(p.environ), p, fqdn);
    var mapped := MappedInto(own, ItemsOf(p.environMap), environ, p, fqdn);
    ResolvedIntoGet(map[], ItemsOf(p.environ), p, fqdn, k);
    MappedIntoGet(own, ItemsOf(p.environMap), environ, p, fqdn, k);
    ResolvedIntoGet(mapped, caller, p, fqdn, k);
  }

  // ----------------------------------------------------------- volumes

  /**
   * One `host:container[:mode]` volume spec, split on at most two ':'. The
   * host path is resolved; the mount is read-only when there is a third
   * part holding "ro". Fewer than two parts cannot be unpacked: ValueError.
   */
  function VolumeOf(spec: string, p: Package, fqdn: string): (r: Result<Mount>)
    ensures r.Ok? <==> ':' in spec
    ensures r.Err? ==> r.error.ValueError?
  {
    var parts := SplitN(spec, ':', 2);
    SplitNParts(spec);
    if |parts| < 2 then Err(ValueError("not enough values to unpack (expected 2, got 1)"))
    else Ok(Mount(Resolved(parts[0], p, fqdn), parts[1], |parts| == 3 && Contains(parts[2], "ro")))
  }

  /** A two-split has at least two parts exactly when the separator occurs. */
  lemma SplitNParts(s: string)
    ensures |SplitN(s, ':', 2)| >= 2 <==> ':' in s
  {
  }

  /**
   * The three shapes of a volume spec: `host:container:mode` is read-only
   * iff "ro" occurs in the mode (which may itself hold ':'), and
   * `host:container` is read-write.
   */
  lemma VolumeShapes(host: string, container: string, mode: string, p: Package, fqdn: string)
    requires ':' !in host && ':' !in container
    ensures VolumeOf(host + ":" + container + ":" + mode, p, fqdn)
            == Ok(Mount(Resolved(host, p, fqdn), container, Contains(mode, "ro")))
    ensures VolumeOf(host + ":" + container, p, fqdn) == Ok(Mount(Resolved(host, p, fqdn), container, false))
  {
    assert host + ":" + container + ":" + mode == host + [':'] + (container + [':'] + mode);
    SplitNConcat(host, ':', container + [':'] + mode, 2);
    SplitNConcat(container, ':', mode, 1);
    assert SplitN(host + ":" + container + ":" + mode, ':', 2) == [host, container, mode];
    assert host + ":" + container == host + [':'] + container;
    SplitNConcat(host, ':', container, 2);
    assert SplitN(host + ":" + container, ':', 2) == [host, container];
  }

  /** The mounts of the specs, in order, up to the first refused one. */
  function Volumes(specs: seq<string>, p: Package, fqdn: string): (r: (seq<Mount>, Option<Error>))
    decreases |specs|
  {
    if |specs| == 0 then ([], None)
    else
      var prefix := Volumes(specs[..|specs| - 1], p, fqdn);
      if prefix.1.Some? then prefix
      else
        match VolumeOf(specs[|specs| - 1], p, fqdn)
        case Err(e) => (prefix.0, Some(e))
        case Ok(v) => (prefix.0 + [v], None)
  }

  /** A refused spec ends the mounts: later specs change nothing. */
  lemma {:induction false} VolumesStop(specs: seq<string>, i: nat, p: Package, fqdn: string)
    requires i <= |specs| && Volumes(specs[..i], p, fqdn).1.Some?
    ensures Volumes(specs, p, fqdn) == Volumes(specs[..i], p, fqdn)
    decreases |specs|
  {
    if i < |specs| {
      assert specs[..|specs| - 1][..i] == specs[..i];
      VolumesStop(specs[..|specs| - 1], i, p, fqdn);
    } else {
      assert specs[..i] == specs;
    }
  }

  /** The volume step that builds one mount, as a function. */
  function VolumeBuilder(p: Package, fqdn: string): string -> Result<Mount>
  {
    spec => VolumeOf(spec, p, fqdn)
  }

  /**
   * The mounts list is complete exactly when every spec holds a ':', and
   * then it is the specs' mounts in order.
   */
  lemma {:induction false} VolumesComplete(specs: seq<string>, p: Package, fqdn: string)
    ensures var r := Volumes(specs, p, fqdn);
            var all := MainConfigs.BuildAll(specs, VolumeBuilder(p, fqdn));
            (r.1.None? <==> all.Ok?) && (r.1.None? ==> r.0 == all.value)
            && (r.1.None? <==> forall k :: 0 <= k < |specs| ==> ':' in specs[k])
    decreases |specs|
  {
    var all := MainConfigs.BuildAll(specs, VolumeBuilder(p, fqdn));
    if |specs| > 0 {
      VolumesComplete(specs[..|specs| - 1], p, fqdn);
    }
    assert all.Ok? <==> forall k :: 0 <= k < |specs| ==> VolumeBuilder(p, fqdn)(specs[k]).Ok?;
  }

  // -------------------------------------------------------- sub-services

  /**
   * One `sub_services` entry `sub → "target:port"`: the reverse-proxy
   * entry `sub.domain:target:port`, resolved. A target without ':' cannot
   * be unpacked: ValueError.
   */
  function SubServiceOf(sub: string, target: string, p: Package, fqdn: string): (r: Result<string>)
  {
    var parts := SplitN(target, ':', 1);
    if |parts| != 2 then Err(ValueError("not enough values to unpack (expected 2, got 1)"))
    else Ok(Resolved(sub + "." + p.info.domain + ":" + parts[0] + ":" + parts[1], p, fqdn))
  }

  /** A sub-service is accepted exactly when its target holds ':', and names `sub.domain:target`. */
  lemma SubServiceEntry(sub: string, target: string, p: Package, fqdn: string)
    ensures SubServiceOf(sub, target, p, fqdn).Ok? <==> ':' in target
    ensures SubServiceOf(sub, target, p, fqdn).Err? ==> SubServiceOf(sub, target, p, fqdn).error.ValueError?
    ensures SubServiceOf(sub, target, p, fqdn).Ok? ==>
              SubServiceOf(sub, target, p, fqdn).value == Resolved(sub + "." + p.info.domain + ":" + target, p, fqdn)
  {
    SplitOnce(target, ':');
    var parts := SplitN(target, ':', 1);
    if |parts| == 2 {
      assert sub + "." + p.info.domain + ":" + parts[0] + ":" + parts[1]
             == sub + "." + p.info.domain + ":" + (parts[0] + [':'] + parts[1]);
    }
  }

  /** `reversed_services` after the sub-services, in order, up to the first refused one. */
  function SubServices(r: set<string>, subs: Items, p: Package, fqdn: string): (out: (set<string>, Option<Error>))
    decreases |subs|
  {
    if |subs| == 0 then (r, None)
    else
      var prefix := SubServices(r, subs[..|subs| - 1], p, fqdn);
      if prefix.1.Some? then prefix
      else
        var last := subs[|subs| - 1];
        match SubServiceOf(last.0, last.1, p, fqdn)
        case Err(e) => (prefix.0, Some(e))
        case Ok(entry) => (prefix.0 + {entry}, None)
  }

  /** A refused sub-service ends the loop: later ones add nothing. */
  lemma {:induction false} SubServicesStop(r: set<string>, subs: Items, i: nat, p: Package, fqdn: string)
    requires i <= |subs| && SubServices(r, subs[..i], p, fqdn).1.Some?
    ensures SubServices(r, subs, p, fqdn) == SubServices(r, subs[..i], p, fqdn)
    decreases |subs|
  {
    if i < |subs| {
      assert subs[..|subs| - 1][..i] == subs[..i];
      SubServicesStop(r, subs[..|subs| - 1], i, p, fqdn);
    } else {
      assert subs[..i] == subs;
    }
  }

  /** The reverse-proxy entries of the sub-services. */
  function SubServiceEntries(subs: Items, p: Package, fqdn: string): set<string>
    decreases |subs|
  {
    if |subs| == 0 then {}
    else
      var last := subs[|subs| - 1];
      SubServiceEntries(subs[..|subs| - 1], p, fqdn) + {Resolved(last.0 + "." + p.info.domain + ":" + last.1, p, fqdn)}
  }

  /**
   * The sub-services never remove an entry; they all go in exactly when
   * every target holds ':', and then exactly their entries are added.
   */
  lemma SubServicesAdded(r: set<string>, subs: Items, p: Package, fqdn: string)
    ensures var out := SubServices(r, subs, p, fqdn);
            r <= out.0
            && (out.1.None? <==> forall k :: 0 <= k < |subs| ==> ':' in subs[k].1)
            && (out.1.None? ==> out.0 == r + SubServiceEntries(subs, p, fqdn))
            && (out.1.Some? ==> out.1.value.ValueError?)
  {
    SubServicesGrow(r, subs, p, fqdn);
    SubServicesAccepted(r, subs, p, fqdn);
    if SubServices(r, subs, p, fqdn).1.None? {
      SubServicesEntries(r, subs, p, fqdn);
    }
  }

  /** The sub-services only add entries, and only a ValueError stops them. */
  lemma {:induction false} SubServicesGrow(r: set<string>, subs: Items, p: Package, fqdn: string)
    ensures r <= SubServices(r, subs, p, fqdn).0
    ensures SubServices(r, subs, p, fqdn).1.Some? ==> SubServices(r, subs, p, fqdn).1.value.ValueError?
    decreases |subs|
  {
    if |subs| > 0 {
      var last := subs[|subs| - 1];
      SubServicesGrow(r, subs[..|subs| - 1], p, fqdn);
      SubServiceEntry(last.0, last.1, p, fqdn);
    }
  }

  /** No sub-service is refused exactly when every target holds ':'. */
  lemma {:induction false} SubServicesAccepted(r: set<string>, subs: Items, p: Package, fqdn: string)
    ensures SubServices(r, subs, p, fqdn).1.None? <==> forall k :: 0 <= k < |subs| ==> ':' in subs[k].1
    decreases |subs|
  {
    if |subs| > 0 {
      var init := subs[..|subs| - 1];
      var last := subs[|subs| - 1];
      SubServicesAccepted(r, init, p, fqdn);
      SubServiceEntry(last.0, last.1, p, fqdn);
      assert forall k :: 0 <= k < |init| ==> init[k] == subs[k];
    }
  }

  /** When none is refused, exactly the entries of the sub-services are added. */
  lemma {:induction false} SubServicesEntries(r: set<string>, subs: Items, p: Package, fqdn: string)
    requires SubServices(r, subs, p, fqdn).1.None?
    ensures SubServices(r, subs, p, fqdn).0 == r + SubServiceEntries(subs, p, fqdn)
    decreases |subs|
  {
    if |subs| > 0 {
      var last := subs[|subs| - 1];
      SubServicesEntries(r, subs[..|subs| - 1], p, fqdn);
      SubServiceEntry(last.0, last.1, p, fqdn);
    }
  }

  // ------------------------------------------------------------ add_app

  /** The links, each resolved. */
  function ResolvedLinks(links: seq<string>, p: Package, fqdn: string): (r: seq<string>)
    ensures |r| == |links| && forall k :: 0 <= k < |links| ==> r[k] == Resolved(links[k], p, fqdn)
  {
    seq(|links|, k requires 0 <= k < |links| => Resolved(links[k], p, fqdn))
  }

  /** The app's compose service before its links: image, environment, mounts, name and exposure. */
  function AppService(p: Package, environment: map<string, string>, volumes: seq<Mount>, env: Env): (svc: Service)
    requires p.AppPackage?
  {
    Service(AppImage(p, env).oci, p.info.domain, Some(environment), Some(volumes), ["80"], [], None, None, [],
            false, false, None)
  }

  /** Whether an optional list is truthy. */
  predicate ListGiven<T>(o: Option<seq<T>>)
  {
    o.Some? && |o.value| > 0
  }

  /** The app's file entry, when it has a download: Ok(None) without one. */
  function AppFile(p: Package, env: Env): Result<Option<FileConfigs.FileConfig>>
    requires p.AppPackage?
  {
    if !HasFile(p) then Ok(None)
    else match AsFileConfig(p, env)
      case Err(e) => Err(e)
      case Ok(fc) => Ok(Some(fc))
  }

  /** The state once the app's file, image and service (without links) are in. */
  function AppInstalled(s: BuilderState, p: Package, fc: Option<FileConfigs.FileConfig>, caller: Items,
                        volumes: seq<Mount>, env: Env): (r: BuilderState)
    requires p.AppPackage?
  {
    var files := if fc.Some? then s.config.files + [fc.value] else s.config.files;
    var svc := AppService(p, AppEnvironment(p, caller, s.environ, Fqdn(s)), volumes, env);
    s.(config := s.config.(files := files, ociImages := s.config.ociImages + {AppImage(p, env)},
                           services := s.config.services[p.info.ident := svc]))
  }

  /** The service with its resolved links, when the package has any. */
  function WithLinks(svc: Service, p: Package, fqdn: string): Service
    requires p.AppPackage?
  {
    if ListGiven(p.links) then svc.(links := Some(ResolvedLinks(p.links.value, p, fqdn))) else svc
  }

  /**
   * `add_app(package, environ)`. A package whose kind is not "app" is
   * refused with ValueError; an ident that already has a service makes the
   * call a no-op. A refused volume or sub-service raises after the earlier
   * steps took effect, so the state then holds the partial work.
   */
  function AddApp(s: BuilderState, p: Package, caller: Items, env: Env): (r: Outcome)
    requires p.AppPackage?
  {
    if p.info.kind != "app" then Outcome(s, Some(ValueError("Package " + p.info.ident + " is not an app")))
    else if p.info.ident in s.config.services then Outcome(s, None)
    else
      match AppFile(p, env)
      case Err(e) => Outcome(s, Some(e))
      case Ok(fc) => AppSteps(s, p, fc, caller, env)
  }

  /** `add_app` once the file entry is settled: image and service, then links and sub-services. */
  function AppSteps(s: BuilderState, p: Package, fc: Option<FileConfigs.FileConfig>, caller: Items, env: Env)
    : (r: Outcome)
    requires p.AppPackage?
  {
    var fqdn := Fqdn(s);
    var vols := Volumes(ItemsOf'(p.volumes), p, fqdn);
    var s1 := AppInstalled(s, p, fc, caller, vols.0, env);
    if vols.1.Some? then Outcome(s1, vols.1) else AppLinked(s1, p, fqdn)
  }

  /**
   * The steps of `add_app` after its service is in: the links resolved into
   * it, the sub-services, then the app's own domain behind the reverse proxy.
   */
  function AppLinked(s: BuilderState, p: Package, fqdn: string): Outcome
    requires p.AppPackage? && p.info.ident in s.config.services
  {
    var svc := WithLinks(s.config.services[p.info.ident], p, fqdn);
    var subs := SubServices(s.reversedServices, ItemsOf(p.subServices), p, fqdn);
    var s2 := s.(config := s.config.(services := s.config.services[p.info.ident := svc]),
                 reversedServices := subs.0);
    if subs.1.Some? then Outcome(s2, subs.1)
    else Outcome(s2.(reversedServices := subs.0 + {p.info.domain}), None)
  }

  /** An optional list's elements, none when it is missing. */
  function ItemsOf'(o: Option<seq<string>>): seq<string>
  {
    if o.Some? then o.value else []
  }

  /** `add_app` refuses other kinds, and a second call for the same ident changes nothing. */
  lemma AddAppOnce(s: BuilderState, p: Package, caller: Items, caller2: Items, env: Env)
    requires p.AppPackage?
    ensures p.info.kind != "app" ==> AddApp(s, p, caller, env).state == s
                                     && AddApp(s, p, caller, env).error.Some?
                                     && AddApp(s, p, caller, env).error.value.ValueError?
    ensures p.info.kind == "app" && AddApp(s, p, caller, env).error.None? ==>
              var s1 := AddApp(s, p, caller, env).state;
              AddApp(s1, p, caller2, env) == Outcome(s1, None)
  {
    if p.info.kind == "app" && AddApp(s, p, caller, env).error.None? && p.info.ident !in s.config.services {
      var fqdn := Fqdn(s);
      var vols := Volumes(ItemsOf'(p.volumes), p, fqdn);
      var s1 := AppInstalled(s, p, AppFile(p, env).value, caller, vols.0, env);
      assert p.info.ident in s1.config.services;
      assert AddApp(s, p, caller, env).state.config.services.Keys == s1.config.services.Keys;
    }
  }

  /** The state a successful first `add_app` leaves. */
  function AppAdded(s: BuilderState, p: Package, fc: Option<FileConfigs.FileConfig>, caller: Items, env: Env)
    : (r: BuilderState)
    requires p.AppPackage?
  {
    var fqdn := Fqdn(s);
    var s1 := AppInstalled(s, p, fc, caller, Volumes(ItemsOf'(p.volumes), p, fqdn).0, env);
    var svc := WithLinks(s1.config.services[p.info.ident], p, fqdn);
    s1.(config := s1.config.(services := s1.config.services[p.info.ident := svc]),
        reversedServices := SubServices(s.reversedServices, ItemsOf(p.subServices), p, fqdn).0 + {p.info.domain})
  }

  /** A first `add_app` succeeds exactly when its file, volumes and sub-services are all accepted. */
  lemma AddAppSucceeds(s: BuilderState, p: Package, caller: Items, env: Env)
    requires p.AppPackage? && p.info.kind == "app" && p.info.ident !in s.config.services
    ensures AddApp(s, p, caller, env).error.None? <==>
              AppFile(p, env).Ok?
              && (forall k :: 0 <= k < |ItemsOf'(p.volumes)| ==> ':' in ItemsOf'(p.volumes)[k])
              && (forall k :: 0 <= k < |ItemsOf(p.subServices)| ==> ':' in ItemsOf(p.subServices)[k].1)
    ensures AddApp(s, p, caller, env).error.None? ==>
              AddApp(s, p, caller, env).state == AppAdded(s, p, AppFile(p, env).value, caller, env)
  {
    var fqdn := Fqdn(s);
    VolumesComplete(ItemsOf'(p.volumes), p, fqdn);
    SubServicesAdded(s.reversedServices, ItemsOf(p.subServices), p, fqdn);
  }

  /**
   * The manifest after a first `add_app`: the file entry exactly when the
   * app has a download, the image, and one new service under the ident;
   * the other services are untouched.
   */
  lemma AppAddedManifest(s: BuilderState, p: Package, fc: Option<FileConfigs.FileConfig>, caller: Items, env: Env)
    requires p.AppPackage? && AppFile(p, env) == Ok(fc)
    ensures var r := AppAdded(s, p, fc, caller, env);
            r.config.services.Keys == s.config.services.Keys + {p.info.ident}
            && (forall k :: k in s.config.services && k != p.info.ident ==> r.config.services[k] == s.config.services[k])
            && r.config.ociImages == s.config.ociImages + {AppImage(p, env)}
            && (HasFile(p) ==> r.config.files == s.config.files + [AsFileConfig(p, env).value])
            && (!HasFile(p) ==> r.config.files == s.config.files)
  {
  }

  /**
   * The app's service: the layered environment, the container named after
   * the domain, one mount per volume spec, and links exactly when the
   * package lists some.
   */
  lemma AppAddedService(s: BuilderState, p: Package, fc: Option<FileConfigs.FileConfig>, caller: Items, env: Env)
    requires p.AppPackage?
    requires forall k :: 0 <= k < |ItemsOf'(p.volumes)| ==> ':' in ItemsOf'(p.volumes)[k]
    ensures var r := AppAdded(s, p, fc, caller, env);
            var fqdn := Fqdn(s);
            p.info.ident in r.config.services
            && var svc := r.config.services[p.info.ident];
            svc.environment == Some(AppEnvironment(p, caller, s.environ, fqdn))
            && svc.containerName == p.info.domain
            && svc.image == AppImage(p, env).oci
            && svc.volumes == Some(MainConfigs.BuildAll(ItemsOf'(p.volumes), VolumeBuilder(p, fqdn)).value)
            && svc.expose == ["80"]
            && (ListGiven(p.links) ==> svc.links == Some(ResolvedLinks(p.links.value, p, fqdn)))
            && (!ListGiven(p.links) ==> svc.links.None?)
  {
    var fqdn := Fqdn(s);
    VolumesComplete(ItemsOf'(p.volumes), p, fqdn);
    var s1 := AppInstalled(s, p, fc, caller, Volumes(ItemsOf'(p.volumes), p, fqdn).0, env);
    var base := s1.config.services[p.info.ident];
    assert base == AppService(p, AppEnvironment(p, caller, s.environ, fqdn), Volumes(ItemsOf'(p.volumes), p, fqdn).0, env);
  }

  /**
   * A first `add_app` hands the reverse proxy the sub-service entries and
   * the app's domain, and changes no flag, card or mapping.
   */
  lemma AppAddedReversed(s: BuilderState, p: Package, fc: Option<FileConfigs.FileConfig>, caller: Items, env: Env)
    requires p.AppPackage?
    requires forall k :: 0 <= k < |ItemsOf(p.subServices)| ==> ':' in ItemsOf(p.subServices)[k].1
    ensures var r := AppAdded(s, p, fc, caller, env);
            r.reversedServices == s.reversedServices + SubServiceEntries(ItemsOf(p.subServices), p, Fqdn(s))
                                  + {p.info.domain}
            && r.dashboardEntries == s.dashboardEntries && r.filesMapping == s.filesMapping
            && r.withKiwixserve == s.withKiwixserve && r.withFiles == s.withFiles
            && r.withReverseproxy == s.withReverseproxy && r.withDashboard == s.withDashboard
            && r.withCaptivePortal == s.withCaptivePortal && r.withHwclock == s.withHwclock
  {
    SubServicesAdded(s.reversedServices, ItemsOf(p.subServices), p, Fqdn(s));
  }

  /** A volume spec without ':' stops `add_app` with ValueError, after the service was registered. */
  lemma AddAppBadVolume(s: BuilderState, p: Package, caller: Items, env: Env, k: nat)
    requires p.AppPackage? && p.info.kind == "app" && p.info.ident !in s.config.services
    requires AppFile(p, env).Ok?
    requires p.volumes.Some? && k < |p.volumes.value| && ':' !in p.volumes.value[k]
    ensures AddApp(s, p, caller, env).error.Some? && AddApp(s, p, caller, env).error.value.ValueError?
    ensures p.info.ident in AddApp(s, p, caller, env).state.config.services
    ensures AddApp(s, p, caller, env).state.reversedServices == s.reversedServices
  {
    var fqdn := Fqdn(s);
    VolumesComplete(p.volumes.value, p, fqdn);
    VolumesErrorKind(p.volumes.value, p, fqdn);
  }

  /** A refused volume is refused with ValueError. */
  lemma {:induction false} VolumesErrorKind(specs: seq<string>, p: Package, fqdn: string)
    ensures Volumes(specs, p, fqdn).1.Some? ==> Volumes(specs, p, fqdn).1.value.ValueError?
    decreases |specs|
  {
    if |specs| > 0 {
      VolumesErrorKind(specs[..|specs| - 1], p, fqdn);
    }
  }

  /**
   * Whatever way `add_app` ends, it only adds: services and reverse-proxy
   * entries grow, and no flag changes.
   */
  lemma AddAppOnlyAdds(s: BuilderState, p: Package, caller: Items, env: Env)
    requires p.AppPackage?
    ensures var r := AddApp(s, p, caller, env).state;
            s.config.services.Keys <= r.config.services.Keys && s.reversedServices <= r.reversedServices
            && s.config.ociImages <= r.config.ociImages
            && r.withKiwixserve == s.withKiwixserve && r.withFiles == s.withFiles
            && r.withReverseproxy == s.withReverseproxy && r.withDashboard == s.withDashboard
            && r.withCaptivePortal == s.withCaptivePortal && r.withHwclock == s.withHwclock
  {
    if p.info.kind == "app" && p.info.ident !in s.config.services && AppFile(p, env).Ok? {
      AppStepsOnlyAdd(s, p, AppFile(p, env).value, caller, env);
    }
  }

  /** The steps after the file entry only add. */
  lemma AppStepsOnlyAdd(s: BuilderState, p: Package, fc: Option<FileConfigs.FileConfig>, caller: Items, env: Env)
    requires p.AppPackage?
    ensures var r := AppSteps(s, p, fc, caller, env).state;
            s.config.services.Keys <= r.config.services.Keys && s.reversedServices <= r.reversedServices
            && s.config.ociImages <= r.config.ociImages
            && r.withKiwixserve == s.withKiwixserve && r.withFiles == s.withFiles
            && r.withReverseproxy == s.withReverseproxy && r.withDashboard == s.withDashboard
            && r.withCaptivePortal == s.withCaptivePortal && r.withHwclock == s.withHwclock
  {
    var fqdn := Fqdn(s);
    var vols := Volumes(ItemsOf'(p.volumes), p, fqdn);
    var s1 := AppInstalled(s, p, fc, caller, vols.0, env);
    assert s.config.services.Keys <= s1.config.services.Keys && s1.reversedServices == s.reversedServices;
    if vols.1.None? {
      AppLinkedOnlyAdds(s1, p, fqdn);
    }
  }

  /** The steps after the app's service is in add entries and change no flag. */
  lemma AppLinkedOnlyAdds(s: BuilderState, p: Package, fqdn: string)
    requires p.AppPackage? && p.info.ident in s.config.services
    ensures var r := AppLinked(s, p, fqdn).state;
            s.config.services.Keys <= r.config.services.Keys && s.reversedServices <= r.reversedServices
            && s.config.ociImages == r.config.ociImages
            && r.withKiwixserve == s.withKiwixserve && r.withFiles == s.withFiles
            && r.withReverseproxy == s.withReverseproxy && r.withDashboard == s.withDashboard
            && r.withCaptivePortal == s.withCaptivePortal && r.withHwclock == s.withHwclock
  {
    SubServicesGrow(s.reversedServices, ItemsOf(p.subServices), p, fqdn);
  }

  /** `add_app` keeps the flags' services in place. */
  lemma AddAppKeepsConsistent(s: BuilderState, p: Package, caller: Items, env: Env)
    requires p.AppPackage? && Consistent(s)
    ensures Consistent(AddApp(s, p, caller, env).state)
  {
    AddAppOnlyAdds(s, p, caller, env);
  }
}
