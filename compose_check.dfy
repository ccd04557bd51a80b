/**
 * `is_valid_compose`: a docker-compose document must define services, each
 * with an image when asked, and must publish every required TCP port on the
 * host. The loop that marks required ports as exposed is a method over the
 * `exposes` dict, proved against the recursive specification `ComposeCheck`.
 */
module ComposeCheck {
  import opened Wrappers
  import opened Strings
  import opened Values
  import opened Checks

  function Get(entries: map<string, Value>, key: string): Option<Value>
  {
    if key in entries then Some(entries[key]) else None
  }

  /** `d.get(key, default)`. */
  function GetOr(entries: map<string, Value>, key: string, default: Value): Value
  {
    if key in entries then entries[key] else default
  }

  /**
   * `str(v)` as far as `port_in_range` can tell: numbers and texts exactly;
   * every other value prints with a letter or a bracket first, so it never
   * reads as a port.
   */
  function StrOf(v: Value): string
  {
    match v
    case Str(s) => s
    case Int(i) => IntToString(i)
    case Null => "None"
    case Bool(b) => if b then "True" else "False"
    case List(_) => "[…]"
    case Dict(_) => "{…}"
  }

  function TypeName(v: Value): string
  {
    match v
    case Null => "NoneType"
    case Bool(_) => "bool"
    case Int(_) => "int"
    case Str(_) => "str"
    case List(_) => "list"
    case Dict(_) => "dict"
  }

  /**
   * The host-port text of one `ports:` entry when it counts: the `published`
   * value of a long-syntax TCP entry, or, for a short-syntax entry holding
   * ':' that is TCP (no protocol, or "/tcp"), the part before the last ':'
   * with any IP address before it dropped. Other entries are skipped.
   */
  function HostPortOf(port: Value): (r: Option<string>)
    ensures !port.Dict? && !port.Str? ==> r.None?
    ensures port.Dict? ==>
              (r.Some? <==> GetOr(port.entries, "protocol", Str("tcp")) == Str("tcp"))
              && (r.Some? ==> r.value == StrOf(GetOr(port.entries, "published", Str(""))))
    ensures port.Str? ==>
              (r.Some? <==> ':' in port.s && ('/' in port.s ==> AfterLast(port.s, '/') == "tcp"))
              && (r.Some? ==> r.value == ShortHostPort(port.s))
  {
    match port
    case Dict(e) =>
      if GetOr(e, "protocol", Str("tcp")) != Str("tcp") then None
      else Some(StrOf(GetOr(e, "published", Str(""))))
    case Str(p) =>
      if ':' !in p then None
      else if '/' in p && AfterLast(p, '/') != "tcp" then None
      else Some(ShortHostPort(p))
    case _ => None
  }

  /**
   * The host port of a short-syntax entry: the field just before the last
   * ':', so that "ip:host:container" and "host:container" both give `host`.
   */
  function ShortHostPort(p: string): (r: string)
    requires ':' in p
    ensures ':' !in r
    ensures exists pre :: p == pre + r + [':'] + AfterLast(p, ':') && (pre == [] || pre[|pre| - 1] == ':')
  {
    var host := RSplit1(p, ':')[0];
    var post := AfterLast(p, ':');
    assert p == host + [':'] + post;
    if ':' in host then
      var pre := RSplit1(host, ':')[0] + [':'];
      var r := AfterLast(host, ':');
      assert host == pre + r;
      assert p == pre + r + [':'] + post;
      r
    else
      assert p == [] + host + [':'] + post;
      host
  }

  /** `required_ports` as the keys of `exposes`: first occurrences, in order. */
  function Dedup(ports: seq<int>): (r: seq<int>)
    ensures forall p :: p in r <==> p in ports
    ensures forall i, j :: 0 <= i < j < |r| ==> r[i] != r[j]
    decreases |ports|
  {
    if |ports| == 0 then []
    else
      var rest := Dedup(ports[..|ports| - 1]);
      if ports[|ports| - 1] in rest then rest else rest + [ports[|ports| - 1]]
  }

  /** `[key for key, st in exposes.items() if st is False]`. */
  function Pending(keys: seq<int>, exposes: map<int, bool>): (r: seq<int>)
    ensures forall p :: p in r <==> p in keys && p in exposes && !exposes[p]
    decreases |keys|
  {
    if |keys| == 0 then []
    else
      var rest := Pending(keys[..|keys| - 1], exposes);
      var k := keys[|keys| - 1];
      if k in exposes && !exposes[k] then rest + [k] else rest
  }

  /** The inner loop: ask `port_in_range` about each pending port, in order, and mark the ones it matches. */
  function ExposeFrom(exposes: map<int, bool>, pending: seq<int>, text: string): Result<map<int, bool>>
    decreases |pending|
  {
    if |pending| == 0 then Ok(exposes)
    else
      match PortInRange(text, pending[0])
      case Err(e) => Err(e)
      case Ok(hit) => ExposeFrom(if hit then exposes[pending[0] := true] else exposes, pending[1..], text)
  }

  /** The loop over one service's `ports:` list. */
  function PortsScan(exposes: map<int, bool>, keys: seq<int>, ports: seq<Value>): Result<map<int, bool>>
    decreases |ports|
  {
    if |ports| == 0 then Ok(exposes)
    else
      match HostPortOf(ports[0])
      case None => PortsScan(exposes, keys, ports[1..])
      case Some(text) =>
        match ExposeFrom(exposes, Pending(keys, exposes), text)
        case Err(e) => Err(e)
        case Ok(next) => PortsScan(next, keys, ports[1..])
  }

  /** Where the loop over the services ends: the exposes reached, a failed check, or an exception. */
  datatype Scan = Exposed(exposes: map<int, bool>) | Refused(response: CheckResponse) | Raised(error: Error)

  /** What one service's `ports:` entry holds, seen by the services loop. */
  function PortsEntry(service: map<string, Value>): Option<Value>
  {
    match Get(service, "ports")
    case Some(Null) => None
    case other => other
  }

  /** The loop over the services, in the dict's order `names`. */
  function ServicesScan(exposes: map<int, bool>, keys: seq<int>, services: map<string, Value>, names: seq<string>)
    : Scan
    requires forall k :: 0 <= k < |names| ==> names[k] in services
    decreases |names|
  {
    if |names| == 0 then Exposed(exposes)
    else
      var name := names[0];
      var service := services[name];
      if !service.Dict? then Scan.Raised(AttributeError("'" + TypeName(service) + "' object has no attribute 'get'"))
      else
        var ports := Get(service.entries, "ports");
        if Get(service.entries, "network_mode") == Some(Str("host")) && ports.Some? && Truthy(ports.value) then
          Refused(Failed("Service `" + name + "`: Host network mode is incompatible with `ports`"))
        else if PortsEntry(service.entries).None? then ServicesScan(exposes, keys, services, names[1..])
        else if !ports.value.List? then Refused(Failed("Service `" + name + "`: ports must be a list"))
        else
          match PortsScan(exposes, keys, ports.value.items)
          case Err(e) => Scan.Raised(e)
          case Ok(next) => ServicesScan(next, keys, services, names[1..])
  }

  /** The image checks, when `require_image`: the first service that is not a dict or lacks a text image. */
  function ImageFailure(services: map<string, Value>, names: seq<string>): (r: Option<CheckResponse>)
    requires forall k :: 0 <= k < |names| ==> names[k] in services
    ensures r.None? <==> forall k :: 0 <= k < |names| ==> HasImage(services[names[k]])
    ensures r.Some? ==> !r.value.passed
    decreases |names|
  {
    if |names| == 0 then None
    else
      var name := names[0];
      var service := services[name];
      if !service.Dict? then Some(Failed("Service `" + name + ":` is not a dict"))
      else if !Truthy(GetOr(service.entries, "image", Null)) then
        Some(Failed("Service `" + name + "` has no `image`. `build` is not supported"))
      else if !service.entries["image"].Str? then Some(Failed("Service `" + name + "` image format is invalid"))
      else ImageFailure(services, names[1..])
  }

  predicate HasImage(service: Value)
  {
    service.Dict? && "image" in service.entries && service.entries["image"].Str?
    && service.entries["image"].s != ""
  }

  /** `[str(key) for key, st in exposes.items() if st is False]`. */
  function Missing(keys: seq<int>, exposes: map<int, bool>): (r: seq<string>)
    ensures |r| == |Pending(keys, exposes)|
    ensures forall i :: 0 <= i < |r| ==> r[i] == IntToString(Pending(keys, exposes)[i])
  {
    var pending := Pending(keys, exposes);
    seq(|pending|, i requires 0 <= i < |pending| => IntToString(pending[i]))
  }

  /** `names` lists the keys of the services dict once each, in the dict's order. */
  predicate ServiceOrder(compose: Value, names: seq<string>)
  {
    compose.Dict? && "services" in compose.entries && compose.entries["services"].Dict? ==>
      (forall n :: n in names ==> n in compose.entries["services"].entries)
      && (forall n :: n in compose.entries["services"].entries ==> n in names)
      && forall i, j :: 0 <= i < j < |names| ==> names[i] != names[j]
  }

  /** The outcome `is_valid_compose` reaches: a response, or the exception it lets through. */
  function ComposeCheck(compose: Value, requireServices: bool, requireImage: bool, requiredPorts: seq<int>,
                        names: seq<string>): Result<CheckResponse>
    requires ServiceOrder(compose, names)
  {
    if !compose.Dict? then Ok(Failed("Incorrect type"))
    else
      var services := GetOr(compose.entries, "services", Null);
      if services == Null then Ok(Failed("Missing `services:`"))
      else if requireServices && !Truthy(services) then Ok(Failed("No services defined"))
      else if !services.Dict? then Ok(Failed("`services:` is not a dict"))
      else
        assert forall k :: 0 <= k < |names| ==> names[k] in services.entries;
        if requireImage && ImageFailure(services.entries, names).Some? then Ok(ImageFailure(services.entries, names).value)
        else
          var keys := Dedup(requiredPorts);
          var start := map p | p in keys :: false;
          match ServicesScan(start, keys, services.entries, names)
          case Raised(e) => Err(e)
          case Refused(response) => Ok(response)
          case Exposed(exposes) =>
            var missing := Missing(keys, exposes);
            if |missing| > 0 then Ok(Failed("Required TCP port·s (" + Join(missing, ",") + ") missing"))
            else Ok(Passed)
  }

  // ------------------------------------------------------------- the loops

  /** The inner loop of `is_valid_compose` for one counted port entry. */
  method ExposeText(exposes: map<int, bool>, keys: seq<int>, text: string) returns (r: Result<map<int, bool>>)
    ensures r == ExposeFrom(exposes, Pending(keys, exposes), text)
  {
    var pending := Pending(keys, exposes);
    var current := exposes;
    for k := 0 to |pending|
      invariant ExposeFrom(exposes, pending, text) == ExposeFrom(current, pending[k..], text)
    {
      assert pending[k..][1..] == pending[k + 1..];
      var hit := PortInRange(text, pending[k]);
      if hit.Err? {
        return Err(hit.error);
      }
      if hit.value {
        current := current[pending[k] := true];
      }
    }
    return Ok(current);
  }

  /** The loop over one service's `ports:` list. */
  method ScanPorts(exposes: map<int, bool>, keys: seq<int>, ports: seq<Value>) returns (r: Result<map<int, bool>>)
    ensures r == PortsScan(exposes, keys, ports)
  {
    var current := exposes;
    for j := 0 to |ports|
      invariant PortsScan(exposes, keys, ports) == PortsScan(current, keys, ports[j..])
    {
      assert ports[j..][1..] == ports[j + 1..];
      var text := HostPortOf(ports[j]);
      if text.Some? {
        var next := ExposeText(current, keys, text.value);
        if next.Err? {
          return Err(next.error);
        }
        current := next.value;
      }
    }
    return Ok(current);
  }

  /** The loop of `is_valid_compose` over the services, in their order. */
  method ScanServices(start: map<int, bool>, keys: seq<int>, services: map<string, Value>, names: seq<string>)
    returns (r: Scan)
    requires forall k :: 0 <= k < |names| ==> names[k] in services
    ensures r == ServicesScan(start, keys, services, names)
  {
    var exposes := start;
    for i := 0 to |names|
      invariant ServicesScan(start, keys, services, names) == ServicesScan(exposes, keys, services, names[i..])
    {
      assert names[i..][1..] == names[i + 1..];
      var name := names[i];
      var service := services[name];
      if !service.Dict? {
        return Scan.Raised(AttributeError("'" + TypeName(service) + "' object has no attribute 'get'"));
      }
      var ports := Get(service.entries, "ports");
      if Get(service.entries, "network_mode") == Some(Str("host")) && ports.Some? && Truthy(ports.value) {
        return Refused(Failed("Service `" + name + "`: Host network mode is incompatible with `ports`"));
      }
      if PortsEntry(service.entries).Some? {
        if !ports.value.List? {
          return Refused(Failed("Service `" + name + "`: ports must be a list"));
        }
        var next := ScanPorts(exposes, keys, ports.value.items);
        if next.Err? {
          return Scan.Raised(next.error);
        }
        exposes := next.value;
      }
    }
    return Exposed(exposes);
  }

  /** `is_valid_compose(compose, require_services=…, require_image=…, required_ports=…)`. */
  method IsValidCompose(compose: Value, requireServices: bool, requireImage: bool, requiredPorts: seq<int>,
                        names: seq<string>) returns (r: Result<CheckResponse>)
    requires ServiceOrder(compose, names)
    ensures r == ComposeCheck(compose, requireServices, requireImage, requiredPorts, names)
  {
    if !compose.Dict? {
      return Ok(Failed("Incorrect type"));
    }
    var services := GetOr(compose.entries, "services", Null);
    if services == Null {
      return Ok(Failed("Missing `services:`"));
    }
    if requireServices && !Truthy(services) {
      return Ok(Failed("No services defined"));
    }
    if !services.Dict? {
      return Ok(Failed("`services:` is not a dict"));
    }
    var entries := services.entries;
    if requireImage {
      var failure := ImageFailure(entries, names);
      if failure.Some? {
        return Ok(failure.value);
      }
    }
    var keys := Dedup(requiredPorts);
    var scan := ScanServices(map p | p in keys :: false, keys, entries, names);
    match scan
    case Raised(e) =>
      return Err(e);
    case Refused(response) =>
      return Ok(response);
    case Exposed(exposes) =>
      var missing := Missing(keys, exposes);
      if |missing| > 0 {
        return Ok(Failed("Required TCP port·s (" + Join(missing, ",") + ") missing"));
      }
      return Ok(Passed);
  }

  // ---------------------------------------------------------------- lemmas

  /** A port entry that counts and whose host part matches `rp`. */
  predicate Matches(port: Value, rp: int)
  {
    HostPortOf(port).Some? && PortInRange(HostPortOf(port).value, rp) == Ok(true)
  }

  /** Some port entry of some service in `names` matches `rp`. */
  predicate Published(rp: int, services: map<string, Value>, names: seq<string>)
    requires forall k :: 0 <= k < |names| ==> names[k] in services
  {
    exists i, j :: 0 <= i < |names| && services[names[i]].Dict?
                   && PortsEntry(services[names[i]].entries).Some?
                   && PortsEntry(services[names[i]].entries).value.List?
                   && 0 <= j < |PortsEntry(services[names[i]].entries).value.items|
                   && Matches(PortsEntry(services[names[i]].entries).value.items[j], rp)
  }

  /** A service in host network mode that also declares ports. */
  predicate HostWithPorts(service: Value)
  {
    service.Dict? && Get(service.entries, "network_mode") == Some(Str("host"))
    && "ports" in service.entries && Truthy(service.entries["ports"])
  }

  lemma {:induction false} ExposeFromMarks(exposes: map<int, bool>, pending: seq<int>, text: string)
    requires ExposeFrom(exposes, pending, text).Ok?
    ensures var x := ExposeFrom(exposes, pending, text).value;
            exposes.Keys <= x.Keys
            && forall k :: k in x && x[k] ==> (k in exposes && exposes[k]) || PortInRange(text, k) == Ok(true)
    decreases |pending|
  {
    if |pending| > 0 {
      var hit := PortInRange(text, pending[0]).value;
      ExposeFromMarks(if hit then exposes[pending[0] := true] else exposes, pending[1..], text);
    }
  }

  lemma {:induction false} PortsScanMarks(exposes: map<int, bool>, keys: seq<int>, ports: seq<Value>)
    requires PortsScan(exposes, keys, ports).Ok?
    ensures var x := PortsScan(exposes, keys, ports).value;
            exposes.Keys <= x.Keys
            && forall k :: k in x && x[k] ==>
                 (k in exposes && exposes[k]) || exists j :: 0 <= j < |ports| && Matches(ports[j], k)
    decreases |ports|
  {
    if |ports| > 0 {
      var x := PortsScan(exposes, keys, ports).value;
      var next := exposes;
      if HostPortOf(ports[0]).Some? {
        var text := HostPortOf(ports[0]).value;
        ExposeFromMarks(exposes, Pending(keys, exposes), text);
        next := ExposeFrom(exposes, Pending(keys, exposes), text).value;
      }
      assert x == PortsScan(next, keys, ports[1..]).value;
      PortsScanMarks(next, keys, ports[1..]);
      forall k | k in x && x[k] && !(k in exposes && exposes[k])
        ensures exists j :: 0 <= j < |ports| && Matches(ports[j], k)
      {
        if k in next && next[k] {
          assert Matches(ports[0], k);
        } else {
          var j :| 0 <= j < |ports[1..]| && Matches(ports[1..][j], k);
          assert Matches(ports[j + 1], k);
        }
      }
    }
  }

  lemma {:induction false} ServicesScanMarks(exposes: map<int, bool>, keys: seq<int>, services: map<string, Value>,
                                             names: seq<string>)
    requires forall k :: 0 <= k < |names| ==> names[k] in services
    requires ServicesScan(exposes, keys, services, names).Exposed?
    ensures var x := ServicesScan(exposes, keys, services, names).exposes;
            exposes.Keys <= x.Keys
            && (forall k :: k in x && x[k] ==> (k in exposes && exposes[k]) || Published(k, services, names))
            && forall i :: 0 <= i < |names| ==> services[names[i]].Dict? && !HostWithPorts(services[names[i]])
    decreases |names|
  {
    if |names| > 0 {
      var x := ServicesScan(exposes, keys, services, names).exposes;
      var service := services[names[0]].entries;
      var next := exposes;
      if PortsEntry(service).Some? {
        PortsScanMarks(exposes, keys, PortsEntry(service).value.items);
        next := PortsScan(exposes, keys, PortsEntry(service).value.items).value;
      }
      assert x == ServicesScan(next, keys, services, names[1..]).exposes;
      ServicesScanMarks(next, keys, services, names[1..]);
      forall k | k in x && x[k] && !(k in exposes && exposes[k])
        ensures Published(k, services, names)
      {
        if k in next && next[k] {
          var j :| 0 <= j < |PortsEntry(service).value.items| && Matches(PortsEntry(service).value.items[j], k);
          assert Published(k, services, names) by {
            assert 0 < |names|;
          }
        } else {
          var i, j :| 0 <= i < |names[1..]| && services[names[1..][i]].Dict?
                      && PortsEntry(services[names[1..][i]].entries).Some?
                      && PortsEntry(services[names[1..][i]].entries).value.List?
                      && 0 <= j < |PortsEntry(services[names[1..][i]].entries).value.items|
                      && Matches(PortsEntry(services[names[1..][i]].entries).value.items[j], k);
          assert names[1..][i] == names[i + 1];
        }
      }
      forall i | 0 <= i < |names|
        ensures services[names[i]].Dict? && !HostWithPorts(services[names[i]])
      {
        if i > 0 {
          assert names[i] == names[1..][i - 1];
        }
      }
    }
  }

  /**
   * A compose document passes only when its services are dicts, none of them
   * pairs host network mode with ports, and every required port is published
   * by a TCP port entry of some service.
   */
  lemma PassedMeansPublished(compose: Value, requireServices: bool, requireImage: bool, requiredPorts: seq<int>,
                             names: seq<string>)
    requires ServiceOrder(compose, names)
    ensures var r := ComposeCheck(compose, requireServices, requireImage, requiredPorts, names);
            r.Ok? && r.value.passed ==>
              compose.Dict? && "services" in compose.entries && compose.entries["services"].Dict?
              && var services := compose.entries["services"].entries;
                 (forall k :: 0 <= k < |names| ==> services[names[k]].Dict? && !HostWithPorts(services[names[k]]))
                 && forall rp :: rp in requiredPorts ==> Published(rp, services, names)
  {
    var r := ComposeCheck(compose, requireServices, requireImage, requiredPorts, names);
    if r.Ok? && r.value.passed {
      var services := compose.entries["services"].entries;
      var keys := Dedup(requiredPorts);
      var start := map p | p in keys :: false;
      var scan := ServicesScan(start, keys, services, names);
      if scan.Refused? {
        RefusedFails(start, keys, services, names);
      }
      assert scan.Exposed?;
      ServicesScanMarks(start, keys, services, names);
      var x := scan.exposes;
      assert |Pending(keys, x)| == 0;
      forall rp | rp in requiredPorts
        ensures Published(rp, services, names)
      {
        assert rp in keys && rp in start && !start[rp];
        assert rp in x && x[rp];
      }
    }
  }

  lemma {:induction false} RefusedFails(exposes: map<int, bool>, keys: seq<int>, services: map<string, Value>,
                                        names: seq<string>)
    requires forall k :: 0 <= k < |names| ==> names[k] in services
    requires ServicesScan(exposes, keys, services, names).Refused?
    ensures !ServicesScan(exposes, keys, services, names).response.passed
    decreases |names|
  {
    if |names| > 0 {
      var service := services[names[0]].entries;
      if PortsEntry(service).Some? && PortsEntry(service).value.List?
         && !(Get(service, "network_mode") == Some(Str("host")) && Get(service, "ports").Some? && Truthy(Get(service, "ports").value)) {
        var next := PortsScan(exposes, keys, PortsEntry(service).value.items);
        if next.Ok? {
          RefusedFails(next.value, keys, services, names[1..]);
        }
      } else if PortsEntry(service).None? {
        RefusedFails(exposes, keys, services, names[1..]);
      }
    }
  }
}
