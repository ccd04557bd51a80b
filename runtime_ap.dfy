/**
 * The WiFi access-point command of `offspot_runtime/ap.py`: the DHCP range
 * it derives from the address, the defaults `main` fills in before checking
 * the settings, the normalisation of the spoof setting, the spoof
 * configuration line, and the fields `write_dnsmasq_conf` derives. Writing
 * the hostapd, dnsmasq and firewall files and every subprocess are left out.
 */
module RuntimeAp {
  import opened Wrappers
  import opened Strings
  import opened IPv4
  import opened Checks
  import opened Lines

  const DefaultDns: seq<string> := ["8.8.8.8", "1.1.1.1"]
  const SpoofAddressLine := "address=/#/1.1.1.1"

  // ---------------------------------------------------------- dhcp_range_for

  /**
   * The first and last address of `dhcp_range_for(address)`: the hosts of the
   * address's /24 on the far side of it, so the range never holds the address.
   * The hosts of the /24 run from `first` to `last` (`Network24`); the network
   * and broadcast addresses are not among them, and `hosts.index` raises.
   */
  function RangeBounds(a: Addr): (r: Result<(Addr, Addr)>)
    ensures r.Err? <==> a % 256 == 0 || a % 256 == 255
    ensures r.Ok? ==> var (s, e) := r.value;
              s < e && s / 256 == a / 256 && e / 256 == a / 256 && 1 <= s % 256 && e % 256 <= 254
              && !(s <= a <= e) && e - s + 1 >= 126 && (s % 256 == 1 || e % 256 == 254)
  {
    var first := a / 256 * 256 + 1;
    var last := a / 256 * 256 + 254;
    DivModOf(first, 256, a / 256, 1);
    DivModOf(last, 256, a / 256, 254);
    if !(first <= a <= last) then Err(NotInList(a))
    else
      var index := a - first;
      if index >= 256 / 2 then
        DivModOf(a - 1, 256, a / 256, a % 256 - 1);
        Ok((first, a - 1))
      else
        DivModOf(a + 1, 256, a / 256, a % 256 + 1);
        Ok((a + 1, last))
  }

  /** A text `is_valid_ipv4(address)` accepts: an address that is a usable host (`IPv4Meaning`). */
  predicate UsableAddress(address: string)
  {
    ParseAddress(address).Some? && UsableHost(ParseAddress(address).value)
  }

  /**
   * `dhcp_range_for(address)`: "start,end,netmask,1h" for the /24 of the
   * address. An address `IPv4Address` refuses raises its ValueError.
   */
  function DhcpRangeFor(address: string): Result<string>
  {
    match ParseAddress(address)
    case None => Err(ValueError(address))
    case Some(a) =>
      match RangeBounds(a)
      case Err(e) => Err(e)
      case Ok((s, e)) => Ok(Format(s) + "," + Format(e) + "," + Format(PrefixMask(24)) + ",1h")
  }

  /** The dotted quad of an address holds neither ',' nor '/'. */
  lemma FormatPlain(x: Addr)
    ensures ',' !in Format(x) && '/' !in Format(x)
  {
    FormatParses(x);
    ParsedIsDigitsAndDots(Format(x));
  }

  /** `dhcp_range_for` fails exactly for a text that is not an address, or for the /24's network or broadcast address. */
  lemma DhcpRangeForFails(address: string)
    ensures DhcpRangeFor(address).Err? <==>
              ParseAddress(address).None? || ParseAddress(address).value % 256 in {0, 255}
  {
  }

  /** Four comma-free fields joined by commas split back into themselves. */
  lemma FourFields(w: string, x: string, y: string, z: string)
    requires ',' !in w && ',' !in x && ',' !in y && ',' !in z
    ensures Split(w + "," + x + "," + y + "," + z, ',') == [w, x, y, z]
  {
    assert w + "," + x + "," + y + "," + z == w + [','] + (x + [','] + (y + [','] + z));
    SplitConcat(w, ',', x + [','] + (y + [','] + z));
    SplitConcat(x, ',', y + [','] + z);
    SplitConcat(y, ',', z);
    SplitNoSeparator(z, ',');
  }

  /** The four fields of the range: the two bounds, the /24 netmask and a one-hour lease. */
  lemma DhcpRangeForFields(address: string)
    requires DhcpRangeFor(address).Ok?
    ensures ParseAddress(address).Some? && RangeBounds(ParseAddress(address).value).Ok?
    ensures var (s, e) := RangeBounds(ParseAddress(address).value).value;
            Split(DhcpRangeFor(address).value, ',') == [Format(s), Format(e), "255.255.255.0", "1h"]
  {
    var (s, e) := RangeBounds(ParseAddress(address).value).value;
    var m := "255.255.255.0";
    assert DhcpRangeFor(address).value == Format(s) + "," + Format(e) + "," + m + "," + "1h" by {
      Netmask24();
    }
    FormatPlain(s);
    FormatPlain(e);
    FourFields(Format(s), Format(e), m, "1h");
  }

  /** A usable address is one of its /24's hosts in none of the special ranges; so is every host of that /24. */
  lemma UsableNeighbour(a: Addr, x: Addr)
    requires UsableHost(a) && x / 256 == a / 256 && x % 256 != 0 && x % 256 != 255
    ensures UsableHost(x)
  {
    SameNet24(x, a);
  }

  /** The final step of `RangeInHostNetwork`, once each check's facts are known. */
  lemma RangeOfChecks(a: Addr, s: Addr, e: Addr, m: Addr, ttl: string, message: string)
    requires s < e && !(s <= a <= e)
    requires MaskPrefix(m) == Some(24)
    requires InNetwork(e, NetworkOf(s, 24), 24) && InNetwork(a, NetworkOf(s, 24), 24)
    requires Hosts(NetworkOf(s, 24), 24).0 <= s <= Hosts(NetworkOf(s, 24), 24).1
    requires Hosts(NetworkOf(s, 24), 24).0 <= e <= Hosts(NetworkOf(s, 24), 24).1
    requires message == NatToString(e - s) + " available addresses"
    requires LeaseTime(ttl, message) == CheckResponse(true, message)
    ensures DhcpRangeOf(s, e, m, a, ttl) == Ok(CheckResponse(true, message))
  {
  }

  /**
   * A range of hosts of the address's /24 that leaves the address out passes
   * the checks of a range for it with the /24 netmask and a one-hour lease,
   * and every address from start up to end is available.
   */
  lemma RangeInHostNetwork(a: Addr, s: Addr, e: Addr)
    requires s < e && !(s <= a <= e)
    requires s / 256 == a / 256 && e / 256 == a / 256 && 1 <= s % 256 && e % 256 <= 254
    ensures DhcpRangeOf(s, e, PrefixMask(24), a, "1h") == Ok(CheckResponse(true, NatToString(e - s) + " available addresses"))
  {
    var net := NetworkOf(s, 24);
    assert MaskPrefix(PrefixMask(24)) == Some(24) by {
      MaskPrefixOfMask(24);
    }
    assert InNetwork(e, net, 24) && InNetwork(a, net, 24) by {
      InNetwork24(s, e);
      InNetwork24(s, a);
    }
    assert Hosts(net, 24).0 <= s <= Hosts(net, 24).1 && Hosts(net, 24).0 <= e <= Hosts(net, 24).1 by {
      Network24(s);
      DivModOf(s, 256, s / 256, s % 256);
      DivModOf(e, 256, e / 256, e % 256);
    }
    var message := NatToString(e - s) + " available addresses";
    assert LeaseTime("1h", message) == CheckResponse(true, message) by {
      LeaseTextPasses(1, 'h', message);
      assert NatToString(1) + ['h'] == "1h";
    }
    RangeOfChecks(a, s, e, PrefixMask(24), "1h", message);
  }

  /** A range text of four fields whose three addresses pass their checks comes down to the checks on the parsed values. */
  lemma RangeTextChecks(text: string, address: string, s: Addr, e: Addr, m: Addr, a: Addr, ttl: string)
    requires Split(text, ',') == [Format(s), Format(e), Format(m), ttl]
    requires IsValidIPv4(Format(s), true).passed && IsValidIPv4(Format(e), true).passed
    requires IsValidIPv4(Format(m), false).passed && IsValidIPv4(address, true).passed
    requires ParseAddress(Format(s)) == Some(s) && ParseAddress(Format(e)) == Some(e)
    requires ParseAddress(Format(m)) == Some(m) && ParseAddress(address) == Some(a)
    ensures IsValidDhcpRange(text, address) == DhcpRangeOf(s, e, m, a, ttl)
  {
    SplitCount(text, ',');
  }

  /**
   * A range text for the host `address` whose four fields are the dotted
   * quads of `s` and `e`, the /24 netmask and a one-hour lease, each passing
   * its own check, with `s` and `e` hosts of the host's /24 on one side of it.
   */
  predicate CheckedRangeFields(text: string, address: string, a: Addr, s: Addr, e: Addr)
  {
    ParseAddress(address) == Some(a) && IsValidIPv4(address, true).passed
    && Split(text, ',') == [Format(s), Format(e), Format(PrefixMask(24)), "1h"]
    && IsValidIPv4(Format(s), true).passed && IsValidIPv4(Format(e), true).passed
    && IsValidIPv4(Format(PrefixMask(24)), false).passed
    && ParseAddress(Format(s)) == Some(s) && ParseAddress(Format(e)) == Some(e)
    && ParseAddress(Format(PrefixMask(24))) == Some(PrefixMask(24))
    && s < e && !(s <= a <= e) && s / 256 == a / 256 && e / 256 == a / 256 && 1 <= s % 256 && e % 256 <= 254
  }

  /** Such a range text passes for the host, with every address from start up to end available. */
  lemma RangeTextValid(text: string, address: string, a: Addr, s: Addr, e: Addr)
    requires CheckedRangeFields(text, address, a, s, e)
    ensures IsValidDhcpRange(text, address) == Ok(CheckResponse(true, NatToString(e - s) + " available addresses"))
  {
    RangeTextChecks(text, address, s, e, PrefixMask(24), a, "1h");
    RangeInHostNetwork(a, s, e);
  }

  /** The default range of a usable address has such fields. */
  lemma DefaultRangeFields(address: string, a: Addr, s: Addr, e: Addr)
    requires UsableAddress(address)
    requires ParseAddress(address) == Some(a) && RangeBounds(a) == Ok((s, e))
    ensures DhcpRangeFor(address).Ok?
    ensures CheckedRangeFields(DhcpRangeFor(address).value, address, a, s, e)
  {
    IPv4Meaning(address, true);
    var m := PrefixMask(24);
    DhcpRangeForFields(address);
    Netmask24();
    UsableNeighbour(a, s);
    UsableNeighbour(a, e);
    UsableHostPasses(s);
    UsableHostPasses(e);
    FormatParses(m);
    IPv4Meaning(Format(m), false);
    FormatParses(s);
    FormatParses(e);
  }

  /**
   * The default range of a usable address passes `is_valid_dhcp_range` for
   * that address, reporting every address from start up to end as available.
   */
  lemma DefaultRangeValid(address: string) returns (s: Addr, e: Addr)
    requires UsableAddress(address)
    ensures ParseAddress(address).Some? && RangeBounds(ParseAddress(address).value) == Ok((s, e))
    ensures DhcpRangeFor(address).Ok?
    ensures IsValidDhcpRange(DhcpRangeFor(address).value, address)
              == Ok(CheckResponse(true, NatToString(e - s) + " available addresses"))
  {
    var a := ParseAddress(address).value;
    s, e := RangeBounds(a).value.0, RangeBounds(a).value.1;
    DefaultRangeReport(address, a, s, e);
  }

  /** A usable address has a default range. */
  lemma DefaultRangeOk(address: string)
    requires UsableAddress(address)
    ensures DhcpRangeFor(address).Ok?
  {
    var a := ParseAddress(address).value;
    assert RangeBounds(a).Ok?;
  }

  /** The report on the default range of a usable address, with its bounds named. */
  lemma DefaultRangeReport(address: string, a: Addr, s: Addr, e: Addr)
    requires UsableAddress(address)
    requires ParseAddress(address) == Some(a) && RangeBounds(a) == Ok((s, e))
    ensures DhcpRangeFor(address).Ok?
    ensures IsValidDhcpRange(DhcpRangeFor(address).value, address)
              == Ok(CheckResponse(true, NatToString(e - s) + " available addresses"))
  {
    DefaultRangeFields(address, a, s, e);
    RangeTextValid(DhcpRangeFor(address).value, address, a, s, e);
  }

  // --------------------------------------------------------------- networks

  /** `IPv4Network(...).with_prefixlen`: the network address, '/', and the prefix length. */
  function CidrText(net: Addr, p: nat): string
  {
    Format(net) + "/" + NatToString(p)
  }

  /** The default network of `main`: the /24 of the address. */
  function DefaultNetwork(a: Addr): string
  {
    CidrText(NetworkOf(a, 24), 24)
  }

  /** `IPv4Network(network).with_prefixlen` for a network the checks accepted. */
  function NormaliseNetwork(network: string): (r: Option<string>)
  {
    match ParseNetwork(network)
    case None => None
    case Some((net, p)) => Some(CidrText(net, p))
  }

  /** The CIDR text of a network parses back to that network. */
  lemma CidrParses(net: Addr, p: nat)
    requires p <= 32 && NetworkOf(net, p) == net
    ensures ParseNetwork(CidrText(net, p)) == Some((net, p))
  {
    var digits := NatToString(p);
    assert IsDigits(digits) && ParseDigits(digits) == p by {
      NatToStringRoundTrip(p);
    }
    assert Split(CidrText(net, p), '/') == [Format(net), digits] by {
      FormatPlain(net);
      assert '/' !in digits by {
        assert forall i :: 0 <= i < |digits| ==> IsDigitChar(digits[i]);
      }
      assert CidrText(net, p) == Format(net) + ['/'] + digits;
      SplitConcat(Format(net), '/', digits);
      SplitNoSeparator(digits, '/');
    }
    assert ParseAddress(Format(net)) == Some(net) by {
      FormatParses(net);
    }
    assert ParseMaskText(digits) == Some(p);
  }

  /** Normalising a network twice gives what normalising it once gave. */
  lemma NormaliseIdempotent(network: string)
    requires NormaliseNetwork(network).Some?
    ensures NormaliseNetwork(NormaliseNetwork(network).value) == NormaliseNetwork(network)
  {
    var (net, p) := ParseNetwork(network).value;
    CidrParses(net, p);
  }

  /**
   * The default network of a usable address passes `is_valid_network` for
   * it, and is already in the normal form `main` rewrites networks into.
   */
  lemma DefaultNetworkValid(address: string)
    requires UsableAddress(address)
    ensures ParseAddress(address).Some?
    ensures var a := ParseAddress(address).value;
            IsValidNetwork(DefaultNetwork(a), address, false).passed
            && NormaliseNetwork(DefaultNetwork(a)) == Some(DefaultNetwork(a))
  {
    IPv4Meaning(address, true);
    var a := ParseAddress(address).value;
    var n := NetworkOf(a, 24);
    Network24(a);
    Network24(n);
    DivModOf(n, 256, n / 256, 0);
    CidrParses(n, 24);
    SameNet24(n, a);
    assert !SpecialNetwork(n, 24);
  }

  // ------------------------------------------------------------------ spoof

  /** `str(spoof)`: a flag prints as "True" or "False". */
  function SpoofStr(spoof: Spoof): string
  {
    match spoof
    case SpoofFlag(b) => if b then "True" else "False"
    case SpoofText(t) => t
  }

  /** The `auto_spoof` and `spoof` settings `main` derives from the spoof setting. */
  datatype SpoofMode = SpoofMode(auto: bool, spoof: bool)

  /** `str(spoof).strip().lower()` compared with "auto", then with "true". */
  function NormaliseSpoof(spoof: Spoof): (r: SpoofMode)
    ensures !(r.auto && r.spoof)
  {
    var text := Lower(Strip(SpoofStr(spoof)));
    SpoofMode(text == "auto", text != "auto" && text == "true")
  }

  /** A flag keeps its value and is never automatic. */
  lemma FlagMode(b: bool)
    ensures NormaliseSpoof(SpoofFlag(b)) == SpoofMode(false, b)
  {
    if b {
      assert Strip("True") == "True";
      assert Lower("True") == "true";
    } else {
      assert Strip("False") == "False";
      assert Lower("False") == "false";
    }
  }

  /** A spoof setting `is_valid_ap_config` accepts: a text one is "auto", which is automatic; a flag keeps its value. */
  lemma AcceptedSpoofMode(spoof: Spoof)
    requires spoof.SpoofText? ==> spoof.text == "auto"
    ensures NormaliseSpoof(spoof) == if spoof.SpoofText? then SpoofMode(true, false) else SpoofMode(false, spoof.flag)
  {
    if spoof.SpoofText? {
      assert Strip("auto") == "auto";
      assert Lower("auto") == "auto";
    } else {
      FlagMode(spoof.flag);
    }
  }

  /** `write_dnsmasq_spoof_conf`: the spoof address line, commented out unless spoofing. */
  function SpoofConf(spoof: bool): string
  {
    (if spoof then SpoofAddressLine else "# " + SpoofAddressLine) + "\n"
  }

  // --------------------------------------------------------- dnsmasq fields

  /** `[f"{prefix}{item}" for item in items]`. */
  function Prefixed(prefix: string, items: seq<string>): (r: seq<string>)
    ensures |r| == |items| && forall k :: 0 <= k < |items| ==> r[k] == prefix + items[k]
  {
    if |items| == 0 then [] else [prefix + items[0]] + Prefixed(prefix, items[1..])
  }

  /** `dhcp_range_for(get_ip_address(iface))` for each interface, from the address `addressOf` says it holds. */
  function InterfaceRanges(ifaces: seq<string>, addressOf: string -> string): (r: seq<Result<string>>)
    ensures |r| == |ifaces| && forall k :: 0 <= k < |ifaces| ==> r[k] == DhcpRangeFor(addressOf(ifaces[k]))
  {
    seq(|ifaces|, k requires 0 <= k < |ifaces| => DhcpRangeFor(addressOf(ifaces[k])))
  }

  /** The "dhcp-range=" lines of the ranges, in order; the first range that raised stops the list comprehension. */
  function RangeLines(ranges: seq<Result<string>>): (r: Result<seq<string>>)
    ensures r.Ok? <==> forall k :: 0 <= k < |ranges| ==> ranges[k].Ok?
    ensures r.Ok? ==> |r.value| == |ranges|
                      && forall k :: 0 <= k < |ranges| ==> r.value[k] == "dhcp-range=" + ranges[k].value
    ensures r.Err? ==> exists k :: 0 <= k < |ranges| && ranges[k].Err? && r == Err(ranges[k].error)
                                   && forall j :: 0 <= j < k ==> ranges[j].Ok?
  {
    if |ranges| == 0 then Ok([])
    else
      match ranges[0]
      case Err(e) => Err(e)
      case Ok(range) =>
        var rest := RangeLines(ranges[1..]);
        assert forall k :: 1 <= k < |ranges| ==> ranges[k] == ranges[1..][k - 1];
        match rest
        case Err(e) =>
          var k :| 0 <= k < |ranges[1..]| && ranges[1..][k].Err? && rest == Err(ranges[1..][k].error)
                   && forall j :: 0 <= j < k ==> ranges[1..][j].Ok?;
          assert rest == Err(ranges[k + 1].error);
          Err(e)
        case Ok(lines) => Ok(["dhcp-range=" + range] + lines)
  }

  /** The upstream DNS servers: one "server=" line each when acting as a gateway, else none. */
  function Servers(asGateway: bool, dns: seq<string>): string
  {
    if asGateway then Join(Prefixed("server=", dns), "\n") else ""
  }

  /** Each gateway DNS server gets its own "server=" line. */
  lemma ServersLines(asGateway: bool, dns: seq<string>)
    requires forall k :: 0 <= k < |dns| ==> '\n' !in dns[k]
    ensures SplitLines(Servers(asGateway, dns)) == if asGateway then Prefixed("server=", dns) else []
  {
    var lines := Prefixed("server=", dns);
    if asGateway && |dns| > 0 {
      forall k | 0 <= k < |lines|
        ensures '\n' !in lines[k]
      {
        assert lines[k] == "server=" + dns[k];
      }
      JoinedLines(lines);
    }
  }

  /** The values `write_dnsmasq_conf` adds to its settings before filling the template. */
  datatype DnsmasqFields = DnsmasqFields(
    otherInterfacesLines: string,
    otherInterfacesRangesLines: string,
    exceptInterfacesLines: string,
    nodhcpInterfacesLines: string,
    servers: string,
    fqdn: string,
    welcomeFqdn: string)

  /** `write_dnsmasq_conf`'s derived fields; a range for another interface can raise. */
  function DnsmasqFieldsOf(c: ApSettings, asGateway: bool, addressOf: string -> string): Result<DnsmasqFields>
  {
    match RangeLines(InterfaceRanges(c.otherInterfaces, addressOf))
    case Err(e) => Err(e)
    case Ok(ranges) =>
      Ok(DnsmasqFields(
        Join(Prefixed("interface=", c.otherInterfaces + c.nodhcpInterfaces), "\n"),
        Join(ranges, "\n"),
        Join(Prefixed("except-interface=", c.exceptInterfaces), "\n"),
        Join(Prefixed("no-dhcp-interface=", c.nodhcpInterfaces), "\n"),
        Servers(asGateway, c.dns),
        c.domain + "." + c.tld,
        c.welcome + "." + c.tld))
  }

  /** What settings that pass `is_valid_ap_config` are known to satisfy, as far as `main` relies on it. */
  lemma AcceptedSettings(c: ApSettings, countries: set<string>)
    requires IsValidApConfig(c, countries).Ok? && IsValidApConfig(c, countries).value.passed
    ensures c.spoof.SpoofText? ==> c.spoof.text == "auto"
    ensures IsValidDomain(c.domain).passed && IsValidTld(c.tld).passed
    ensures IsValidIPv4(c.address, true).passed
    ensures IsValidNetwork(c.network, c.address, false).passed
    ensures IsValidDhcpRange(c.dhcpRange, c.address).Ok? && IsValidDhcpRange(c.dhcpRange, c.address).value.passed
  {
    assert ApSettingsFailure(c, countries).None?;
  }

  /**
   * The local record of the domain under the TLD is a valid hostname once the
   * settings are checked, provided the TLD ends with a letter or digit and the
   * whole name keeps within the hostname limits.
   */
  lemma DnsmasqNames(c: ApSettings, countries: set<string>, asGateway: bool, addressOf: string -> string)
    requires IsValidApConfig(c, countries).Ok? && IsValidApConfig(c, countries).value.passed
    requires DnsmasqFieldsOf(c, asGateway, addressOf).Ok?
    requires NoFinalNewline(c.domain) && NoFinalNewline(c.tld) && 0 < |c.tld| <= 63 && IsAlnumChar(c.tld[|c.tld| - 1])
    requires |c.domain| + 1 + |c.tld| <= 255 && |Split(c.domain, '.')| < 64
    ensures var f := DnsmasqFieldsOf(c, asGateway, addressOf).value;
            f.fqdn == c.domain + "." + c.tld && IsValidHostname(f.fqdn).passed
  {
    AcceptedSettings(c, countries);
    FqdnIsHostname(c.domain, c.tld);
  }

  // ------------------------------------------------------------------- main

  /** The command line of `ap`: `dhcp_range` and `network` may be missing. */
  datatype ApRequest = ApRequest(
    ssid: string,
    hide: bool,
    passphrase: string,
    address: string,
    asGateway: bool,
    spoof: Spoof,
    tld: string,
    domain: string,
    welcome: string,
    channel: int,
    country: string,
    interface: string,
    dhcpRange: Option<string>,
    network: Option<string>,
    dns: seq<string>,
    otherInterfaces: seq<string>,
    exceptInterfaces: seq<string>,
    nodhcpInterfaces: seq<string>)

  /** What `main` settles on before writing the configuration files. */
  datatype ApPlan = ApPlan(
    settings: ApSettings,
    network: string,
    mode: SpoofMode,
    spoofConf: string,
    dnsmasq: DnsmasqFields)

  /**
   * The settings `main` checks: the request with the default DNS servers when
   * it names none, the address's /24 when it names no network, and the
   * default range when it gives none or an empty one.
   */
  function WithDefaults(req: ApRequest): (c: ApSettings)
    requires UsableAddress(req.address)
    ensures c.address == req.address && c.spoof == req.spoof && |c.dns| > 0
  {
    var a := ParseAddress(req.address).value;
    var dhcpRange :=
      if req.dhcpRange.None? || req.dhcpRange == Some("") then
        DefaultRangeOk(req.address);
        DhcpRangeFor(req.address).value
      else req.dhcpRange.value;
    ApSettings(req.ssid, req.passphrase, req.address, req.spoof, req.tld, req.domain, req.welcome,
               req.channel, req.country, req.interface, dhcpRange,
               if req.network.None? then DefaultNetwork(a) else req.network.value,
               if req.dns == [] then DefaultDns else req.dns,
               req.otherInterfaces, req.exceptInterfaces, req.nodhcpInterfaces)
  }

  /** A text of four equal non-zero digits separated by dots parses to the address with those four octets. */
  lemma RepeatedDigitParses(d: char)
    requires '1' <= d <= '9'
    ensures ParseAddress([d, '.', d, '.', d, '.', d]) == Some(FromOctets(DigitValue(d), DigitValue(d), DigitValue(d), DigitValue(d)))
  {
    var o := [d];
    var text := [d, '.', d, '.', d, '.', d];
    assert Split(text, '.') == [o, o, o, o] by {
      assert text == o + ['.'] + (o + ['.'] + (o + ['.'] + o));
      SplitConcat(o, '.', o + ['.'] + (o + ['.'] + o));
      SplitConcat(o, '.', o + ['.'] + o);
      SplitConcat(o, '.', o);
      SplitNoSeparator(o, '.');
    }
    assert ParseOctet(o) == Some(DigitValue(d)) by {
      assert o[..0] == [];
      assert ParseDigits(o) == 10 * ParseDigits(o[..0]) + DigitValue(d);
    }
  }

  /** The address with four equal octets from 1 to 9 is a usable host. */
  lemma RepeatedOctetUsable(v: nat)
    requires 1 <= v <= 9
    ensures FromOctets(v, v, v, v) < Size && UsableHost(FromOctets(v, v, v, v))
  {
    var x := FromOctets(v, v, v, v);
    DivModOf(x, 256, v * 0x1_0101, v);
    DivModOf(x, 0x100_0000, v, v * 0x1_0101);
    DivModOf(x, 0x1_0000, v * 0x101, v * 0x101);
  }

  /** An address whose four octets are the same non-zero digit, such as the default DNS servers, is a usable host. */
  lemma RepeatedDigitPasses(d: char)
    requires '1' <= d <= '9'
    ensures IsValidIPv4([d, '.', d, '.', d, '.', d], true).passed
  {
    RepeatedDigitParses(d);
    RepeatedOctetUsable(DigitValue(d));
    IPv4Meaning([d, '.', d, '.', d, '.', d], true);
  }

  /** The default DNS servers are usable hosts. */
  lemma DefaultDnsPass()
    ensures forall k :: 0 <= k < |DefaultDns| ==> IsValidIPv4(DefaultDns[k], true).passed
  {
    RepeatedDigitPasses('8');
    RepeatedDigitPasses('1');
    assert DefaultDns == [['8', '.', '8', '.', '8', '.', '8'], ['1', '.', '1', '.', '1', '.', '1']];
  }

  /** The defaults never make the checks fail: with a usable address, the range and network checks pass on them. */
  lemma DefaultsPass(req: ApRequest)
    requires UsableAddress(req.address)
    ensures var c := WithDefaults(req);
            (req.dhcpRange.None? || req.dhcpRange == Some("") ==>
               IsValidDhcpRange(c.dhcpRange, c.address).Ok? && IsValidDhcpRange(c.dhcpRange, c.address).value.passed)
            && (req.network.None? ==> IsValidNetwork(c.network, c.address, false).passed)
            && (req.dns == [] ==> forall k :: 0 <= k < |c.dns| ==> IsValidIPv4(c.dns[k], true).passed)
  {
    IPv4Meaning(req.address, true);
    var s, e := DefaultRangeValid(req.address);
    DefaultNetworkValid(req.address);
    DefaultDnsPass();
  }

  /**
   * `main(**kwargs)` up to the files it writes: the address check, the
   * defaults, `is_valid_ap_config`, the network's normal form, the spoof
   * mode and the dnsmasq fields, each failure ending the command.
   */
  method Configure(req: ApRequest, countries: set<string>, addressOf: string -> string) returns (r: Run<ApPlan>)
    ensures !IsValidIPv4(req.address, true).passed ==> r == Invalid("Invalid IPv4 address")
    ensures IsValidIPv4(req.address, true).passed ==>
              UsableAddress(req.address) &&
              var c := WithDefaults(req);
              match IsValidApConfig(c, countries)
              case Err(e) => r == Raised(e)
              case Ok(check) =>
                if !check.passed then r == Invalid(check.helpText)
                else
                  var mode := if req.spoof.SpoofText? then SpoofMode(true, false) else SpoofMode(false, req.spoof.flag);
                  match DnsmasqFieldsOf(c, req.asGateway, addressOf)
                  case Err(e) => r == Raised(e)
                  case Ok(fields) =>
                    NormaliseNetwork(c.network).Some?
                    && r == Done(ApPlan(c, NormaliseNetwork(c.network).value, mode, SpoofConf(mode.spoof), fields))
  {
    if !IsValidIPv4(req.address, true).passed {
      return Invalid("Invalid IPv4 address");
    }
    IPv4Meaning(req.address, true);
    var settings := WithDefaults(req);
    var check := IsValidApConfig(settings, countries);
    if check.Err? {
      return Raised(check.error);
    }
    if !check.value.passed {
      return Invalid(check.value.helpText);
    }
    AcceptedSettings(settings, countries);
    var normal := NormaliseNetwork(settings.network).value;
    AcceptedSpoofMode(req.spoof);
    var mode := NormaliseSpoof(req.spoof);
    var fields := DnsmasqFieldsOf(settings, req.asGateway, addressOf);
    if fields.Err? {
      return Raised(fields.error);
    }
    return Done(ApPlan(settings, normal, mode, SpoofConf(mode.spoof), fields.value));
  }
}
