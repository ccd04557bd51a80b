/**
 * The builder's last steps: the minimum image size, the dashboard's own
 * configuration file, and `render`, which hands the reverse proxy the
 * list of services and of files-only domains.
 */
module BuilderRender {
  import opened Wrappers
  import opened Strings
  import opened Values
  import opened Collaborators
  import opened Packages
  import opened BuilderSpec
  import Files
  import OciImages
  import Sizes
  import MainConfigs

  // -------------------------------------------------------- get_min_size

  /**
   * `get_min_size()`: the content of the image set (walked in `images`,
   * one enumeration of it) and of every file record's `file`, plus the
   * base's rootfs size and the ten percent margin, rounded to 512 bytes.
   * A file record whose `file` raises makes the call raise; a rootfs size
   * still held as text cannot be added to integers (TypeError).
   */
  function GetMinSize(s: BuilderState, images: seq<OciImages.OCIImage>, env: Env): (r: Result<int>)
    requires multiset(images) == multiset(s.config.ociImages)
    ensures r.Ok? <==> MainConfigs.AllFilesOf(s.config.files, env).Ok? && s.config.rootfsSize.IntValue?
    ensures r.Err? && MainConfigs.AllFilesOf(s.config.files, env).Ok? ==> r.error.TypeError?
    ensures r.Ok? ==> r.value % 512 == 0
    ensures r.Ok? ==>
              var content := Sizes.RawContentSizeFor(images, MainConfigs.AllFilesOf(s.config.files, env).value, env);
              var total := s.config.rootfsSize.i + content + Sizes.MarginFor(content);
              total <= r.value < total + 512
  {
    match MainConfigs.AllFilesOf(s.config.files, env)
    case Err(e) => Err(e)
    case Ok(files) =>
      var content := Sizes.RawContentSizeFor(images, files, env);
      match s.config.rootfsSize
      case TextValue(_) => Err(TypeError("unsupported operand type(s) for +: 'int' and 'str'"))
      case IntValue(rootfs) => Ok(Sizes.MinImageSizeFor(rootfs, content, Sizes.MarginFor(content)))
  }

  /** The order in which the image set is walked does not change the size. */
  lemma GetMinSizeOrderFree(s: BuilderState, images: seq<OciImages.OCIImage>, images2: seq<OciImages.OCIImage>,
                            env: Env)
    requires multiset(images) == multiset(s.config.ociImages)
    requires multiset(images2) == multiset(s.config.ociImages)
    ensures GetMinSize(s, images, env) == GetMinSize(s, images2, env)
  {
    var files := MainConfigs.AllFilesOf(s.config.files, env);
    if files.Ok? {
      Sizes.RawContentSizeOrderFree(images, images2, files.value, files.value, env);
    }
  }

  /**
   * With non-negative content the image holds the rootfs, the content and
   * a tenth of it.
   */
  lemma GetMinSizeCovers(s: BuilderState, images: seq<OciImages.OCIImage>, env: Env)
    requires multiset(images) == multiset(s.config.ociImages)
    requires GetMinSize(s, images, env).Ok?
    ensures var content := Sizes.RawContentSizeFor(images, MainConfigs.AllFilesOf(s.config.files, env).value, env);
            content >= 0 ==> GetMinSize(s, images, env).value >= s.config.rootfsSize.i + content + content / 10
  {
  }

  /**
   * The image set tells images apart by `__eq__` (all four attributes), not
   * by `__hash__` (the reference alone): two images of one reference that
   * differ in size share a hash, are both kept, and both count in the size.
   */
  lemma ImagesOfOneReferenceBothCount(s: BuilderState, a: OciImages.OCIImage, ka: string, sa: Service,
                                      b: OciImages.OCIImage, kb: string, sb: Service,
                                      base: seq<OciImages.OCIImage>, images: seq<OciImages.OCIImage>,
                                      files: seq<Files.FileData>, env: Env)
    requires a.oci == b.oci && a.filesize != b.filesize
    requires a !in s.config.ociImages && b !in s.config.ociImages
    requires multiset(base) == multiset(s.config.ociImages)
    requires multiset(images) == multiset(WithService(WithService(s, a, ka, sa), b, kb, sb).config.ociImages)
    ensures OciImages.Hash(a) == OciImages.Hash(b)
    ensures Sizes.RawContentSizeFor(images, files, env)
            == Sizes.RawContentSizeFor(base, files, env) + a.filesize + a.fullsize + b.filesize + b.fullsize
  {
    var all := s.config.ociImages + {a, b};
    assert WithService(WithService(s, a, ka, sa), b, kb, sb).config.ociImages == all;
    assert multiset(all) == multiset(s.config.ociImages) + multiset{a, b} by {
      forall x
        ensures multiset(all)[x] == (multiset(s.config.ociImages) + multiset{a, b})[x]
      {
      }
    }
    var listed := base + [a, b];
    assert multiset(listed) == multiset(base) + multiset{a, b};
    Sizes.SumOfPermutation(images, listed, Sizes.Filesize);
    Sizes.SumOfPermutation(images, listed, Sizes.Fullsize);
    Sizes.SumOfConcat(base, [a, b], Sizes.Filesize);
    Sizes.SumOfConcat(base, [a, b], Sizes.Fullsize);
    PairSum(a, b, Sizes.Filesize);
    PairSum(a, b, Sizes.Fullsize);
  }

  lemma PairSum<T>(a: T, b: T, f: T -> int)
    ensures Sizes.SumOf([a, b], f) == f(a) + f(b)
  {
    assert [a, b][1..] == [b] && [b][1..] == [];
    assert Sizes.SumOf([b], f) == f(b) + Sizes.SumOf([], f);
  }

  // ------------------------------------------------- gen_dashboard_config

  /** `payload` with no cards: the builder's name and fully qualified domain name. */
  function DashboardPayload(s: BuilderState): (v: Value)
    ensures v.Dict? && v.entries.Keys == {"metadata", "packages"}
    ensures v.entries["packages"] == List([])
    ensures v.entries["metadata"] == Dict(map["name" := Str(s.name), "fqdn" := Str(Fqdn(s))])
  {
    Dict(map["metadata" := Dict(map["name" := Str(s.name), "fqdn" := Str(Fqdn(s))]),
             "packages" := List([])])
  }

  /** Where the dashboard reads its configuration. */
  const DashboardTarget: string := "/data/contents/dashboard.yaml"

  /**
   * `gen_dashboard_config()`. Every card goes through
   * `to_dashboard_entry(fqdn=…, download_fqdn=…)`, a call that leaves out
   * the required `kiwix_domain`: any card makes it raise TypeError. With
   * no card the dumped payload is added as a direct content file of
   * declared size 0.
   */
  function GenDashboardConfig(s: BuilderState, dump: Value -> string, env: Env): (r: Outcome)
    ensures r.error.Some? ==> r.state == s
    ensures r.state == s.(config := s.config.(files := r.state.config.files))
  {
    if |s.dashboardEntries| > 0
    then Outcome(s, Some(TypeError("to_dashboard_entry() missing kiwix_domain")))
    else AddFile(s, dump(DashboardPayload(s)), DashboardTarget, "direct", 0, false, env.parseSize)
  }

  /**
   * A dashboard configuration without cards lands as the last file record,
   * a content file for the dashboard, and nothing but the file list changes.
   */
  lemma DashboardFileAdded(s: BuilderState, dump: Value -> string, env: Env)
    requires |s.dashboardEntries| == 0
    requires GenDashboardConfig(s, dump, env).error.None?
    ensures var r := GenDashboardConfig(s, dump, env).state;
            |r.config.files| == |s.config.files| + 1
            && r.config.files[..|s.config.files|] == s.config.files
            && r.config.files[|s.config.files|].to == DashboardTarget
            && r.config.files[|s.config.files|].url.None?
            && r == s.(config := s.config.(files := r.config.files))
  {
    AddFileRecord(s, dump(DashboardPayload(s)), DashboardTarget, "direct", 0, false, env.parseSize);
    var r := GenDashboardConfig(s, dump, env).state;
    assert r.config.files[..|s.config.files|] == s.config.files;
  }

  // ----------------------------------------------------------------- render

  /** `",".join(reversed_services)` in the order the set is walked. */
  function ServicesValue(order: seq<string>): string
  {
    Join(order, ",")
  }

  /** The `domain:folder` pairs of the files mapping, in insertion order. */
  function MappingPairs(items: Items): (r: seq<string>)
    ensures |r| == |items|
    ensures forall i :: 0 <= i < |items| ==> r[i] == items[i].0 + ":" + items[i].1
  {
    seq(|items|, i requires 0 <= i < |items| => items[i].0 + ":" + items[i].1)
  }

  /** `",".join(f"{domain}:{folder}" for …)`. */
  function MappingValue(items: Items): string
  {
    Join(MappingPairs(items), ",")
  }

  /** The reverse proxy's reading of FILES_MAPPING: comma-separated `domain:folder` pairs. */
  function ParseMapping(text: string): (r: Items)
  {
    if text == "" then []
    else
      var parts := Split(text, ',');
      seq(|parts|, i requires 0 <= i < |parts| =>
        var kv := SplitN(parts[i], ':', 1);
        (kv[0], if |kv| == 2 then kv[1] else ""))
  }

  /** The reverse proxy's environment after `render`'s update. */
  function ProxyEnvironment(environment: map<string, string>, order: seq<string>, items: Items)
    : (r: map<string, string>)
    ensures r.Keys == environment.Keys + {"SERVICES", "FILES_MAPPING"}
    ensures r["SERVICES"] == ServicesValue(order) && r["FILES_MAPPING"] == MappingValue(items)
    ensures forall k :: k in environment && k != "SERVICES" && k != "FILES_MAPPING" ==> r[k] == environment[k]
  {
    environment["SERVICES" := ServicesValue(order)]["FILES_MAPPING" := MappingValue(items)]
  }

  /**
   * The update of the "reverse-proxy" service's environment: KeyError when
   * there is no such service, or when it has no environment.
   */
  function UpdateProxy(s: BuilderState, order: seq<string>): (r: Outcome)
    ensures r.error.None? <==> "reverse-proxy" in s.config.services
                               && s.config.services["reverse-proxy"].environment.Some?
    ensures r.error.Some? ==> r.state == s && r.error.value.KeyError?
    ensures r.error.None? ==>
              var proxy := s.config.services["reverse-proxy"];
              r.state == s.(config := s.config.(services := s.config.services["reverse-proxy" :=
                proxy.(environment := Some(ProxyEnvironment(proxy.environment.value, order, s.filesMapping)))]))
  {
    if "reverse-proxy" !in s.config.services then Outcome(s, Some(KeyError("reverse-proxy")))
    else
      var proxy := s.config.services["reverse-proxy"];
      match proxy.environment
      case None => Outcome(s, Some(KeyError("environment")))
      case Some(environment) =>
        var updated := proxy.(environment := Some(ProxyEnvironment(environment, order, s.filesMapping)));
        Outcome(s.(config := s.config.(services := s.config.services["reverse-proxy" := updated])), None)
  }

  /**
   * `render()` up to the YAML dump: the dashboard configuration when the
   * dashboard is on, then the reverse proxy's SERVICES and FILES_MAPPING.
   * `order` is the order in which the set of reverse-proxied services is
   * walked, which Python leaves to string hashing.
   */
  function Render(s: BuilderState, order: seq<string>, dump: Value -> string, env: Env): (r: Outcome)
    requires multiset(order) == multiset(s.reversedServices)
  {
    var d := if s.withDashboard then GenDashboardConfig(s, dump, env) else Outcome(s, None);
    if d.error.Some? then d else UpdateProxy(d.state, order)
  }

  /** The state `render` hands to its reverse-proxy step. */
  function Prepared(s: BuilderState, dump: Value -> string, env: Env): (d: Outcome)
    ensures d.state.config.services == s.config.services && d.state.reversedServices == s.reversedServices
    ensures d.state.filesMapping == s.filesMapping && d.state.withDashboard == s.withDashboard
    ensures d.error.Some? ==> d.state == s
    ensures !s.withDashboard ==> d == Outcome(s, None)
  {
    if s.withDashboard then GenDashboardConfig(s, dump, env) else Outcome(s, None)
  }

  lemma RenderSteps(s: BuilderState, order: seq<string>, dump: Value -> string, env: Env)
    requires multiset(order) == multiset(s.reversedServices)
    ensures var d := Prepared(s, dump, env);
            Render(s, order, dump, env) == if d.error.Some? then d else UpdateProxy(d.state, order)
  {
  }

  /**
   * Without `add_reverseproxy` (and with no app keyed "reverse-proxy"),
   * `render` raises: KeyError unless the dashboard step raised first.
   */
  lemma RenderNeedsReverseproxy(s: BuilderState, order: seq<string>, dump: Value -> string, env: Env)
    requires multiset(order) == multiset(s.reversedServices)
    requires "reverse-proxy" !in s.config.services
    ensures Render(s, order, dump, env).error.Some?
    ensures Prepared(s, dump, env).error.None? ==> Render(s, order, dump, env).error == Some(KeyError("reverse-proxy"))
  {
    RenderSteps(s, order, dump, env);
  }

  /** With the dashboard on and a card listed, `render` raises TypeError and changes nothing. */
  lemma RenderWithCardsRaises(s: BuilderState, order: seq<string>, dump: Value -> string, env: Env)
    requires multiset(order) == multiset(s.reversedServices)
    requires s.withDashboard && |s.dashboardEntries| > 0
    ensures Render(s, order, dump, env) == Outcome(s, Some(TypeError("to_dashboard_entry() missing kiwix_domain")))
  {
  }

  /**
   * On a consistent builder with the reverse proxy, no dashboard or no
   * card, and a dashboard file that validates, `render` succeeds, and the
   * reverse proxy's SERVICES and FILES_MAPPING carry the set and the
   * mapping; every other service is untouched.
   */
  lemma RenderSucceeds(s: BuilderState, order: seq<string>, dump: Value -> string, env: Env)
    requires multiset(order) == multiset(s.reversedServices)
    requires Consistent(s) && s.withReverseproxy
    requires s.config.services["reverse-proxy"].environment.Some?
    requires !s.withDashboard || (|s.dashboardEntries| == 0 && GenDashboardConfig(s, dump, env).error.None?)
    ensures var r := Render(s, order, dump, env);
            r.error.None?
            && r.state.config.services.Keys == s.config.services.Keys
            && r.state.config.services["reverse-proxy"].environment.Some?
            && var e := r.state.config.services["reverse-proxy"].environment.value;
               "SERVICES" in e && "FILES_MAPPING" in e
               && e["SERVICES"] == ServicesValue(order) && e["FILES_MAPPING"] == MappingValue(s.filesMapping)
    ensures var r := Render(s, order, dump, env);
            forall k :: k in s.config.services && k != "reverse-proxy" ==>
              r.state.config.services[k] == s.config.services[k]
  {
    RenderSteps(s, order, dump, env);
    var d := Prepared(s, dump, env);
    assert d.error.None?;
  }

  /** SERVICES splits back on commas into the reverse-proxied services, each once. */
  lemma ServicesRoundTrip(services: set<string>, order: seq<string>)
    requires multiset(order) == multiset(services)
    requires |services| > 0
    requires forall name :: name in services ==> ',' !in name
    ensures multiset(Split(ServicesValue(order), ',')) == multiset(services)
  {
    assert |order| == |multiset(order)| == |multiset(services)| == |services|;
    forall k | 0 <= k < |order|
      ensures ',' !in order[k]
    {
      assert order[k] in multiset(order);
    }
    JoinSplit(order, ',');
  }

  /** One `domain:folder` pair reads back as its domain and folder. */
  lemma PairRoundTrip(domain: string, folder: string)
    requires ':' !in domain
    ensures SplitN(domain + ":" + folder, ':', 1) == [domain, folder]
  {
    SplitNConcat(domain, ':', folder, 1);
  }

  /**
   * FILES_MAPPING reads back as the files mapping itself, in order, when
   * no domain holds ':' or ',' and no folder holds ','.
   */
  lemma MappingRoundTrip(items: Items)
    requires forall i :: 0 <= i < |items| ==> ':' !in items[i].0 && ',' !in items[i].0 && ',' !in items[i].1
    ensures ParseMapping(MappingValue(items)) == items
  {
    var pairs := MappingPairs(items);
    if |items| > 0 {
      forall k | 0 <= k < |pairs|
        ensures ',' !in pairs[k]
      {
        assert pairs[k] == items[k].0 + ":" + items[k].1;
      }
      JoinSplit(pairs, ',');
      assert MappingValue(items) != "" by {
        assert Split(MappingValue(items), ',') == pairs;
        assert |pairs| == 1 ==> Join(pairs, ",") == pairs[0];
        assert |pairs[0]| > 0;
        SplitJoin("", ',');
      }
      var parsed := ParseMapping(MappingValue(items));
      assert |parsed| == |items|;
      forall i | 0 <= i < |items|
        ensures parsed[i] == items[i]
      {
        PairRoundTrip(items[i].0, items[i].1);
      }
    }
  }
}
