/**
 * The WiFi access-point command of the older configuration scripts
 * (`offspot_runtime_config/ap.py`): its text-based DHCP range, the default
 * network rewrite, the choice of DNS servers, the fields of the dnsmasq
 * configuration and the input checks of `main`. Writing hostapd, dnsmasq,
 * interface and firewall files and every subprocess are left out.
 */
module ConfigAp {
  import opened Wrappers
  import opened Strings
  import opened Lines
  import opened IPv4
  import opened Checks
  import ConfigLib
  import RuntimeAp

  const DefaultDns: seq<string> := ["8.8.8.8", "1.1.1.1"]

  // ---------------------------------------------------------- dhcp_range_for

  /** `dhcp_range_for(address)`: .100 to .240 of the text before the last '.', a /24 mask, 12-hour leases. */
  function DhcpRangeFor(address: string): string
  {
    var network := RSplit1(address, '.')[0];
    network + ".100," + network + ".240,255.255.255.0,12h"
  }

  /** Splitting at the last '.' of "p.q" gives p back when q holds no '.'. */
  lemma RSplitAt(p: string, q: string)
    requires '.' !in q
    ensures RSplit1(p + "." + q, '.') == [p, q]
  {
    var s := p + "." + q;
    assert s[|p|] == '.';
    assert s[..|p|] == p && s[|p| + 1..] == q;
  }

  /** The dotted quad of an address is its /24 prefix, a dot, and the digits of its last byte. */
  lemma QuadText(x: Addr)
    ensures Format(x) == Prefix24(x) + "." + NatToString(x % 256)
    ensures '.' !in NatToString(x % 256) && IsDigits(NatToString(x % 256))
  {
    FormatSplit(x);
    NatToStringRoundTrip(x % 256);
  }

  /** The address `k` of the /24 of `x`, as dotted text, is that /24's prefix, a dot and `k`. */
  lemma HostOf24Text(x: Addr, k: nat)
    requires k < 256
    ensures x / 256 * 256 + k < Size
    ensures Format(x / 256 * 256 + k) == Prefix24(x) + "." + NatToString(k)
  {
    var y := x / 256 * 256 + k;
    DivModOf(y, 256, x / 256, k);
    SameNet24(x, y);
    FormatSplit(y);
  }

  /** The range text of "p.q" holds p's .100 and .240 hosts, a /24 mask and a 12h lease. */
  lemma RangeText(p: string, q: string, first: string, last: string)
    requires '.' !in q && first == p + ".100" && last == p + ".240" && ',' !in first && ',' !in last
    ensures Split(DhcpRangeFor(p + "." + q), ',') == [first, last, "255.255.255.0", "12h"]
  {
    RangeTextParts(p, q);
    RuntimeAp.FourFields(first, last, "255.255.255.0", "12h");
  }

  lemma RangeTextParts(p: string, q: string)
    requires '.' !in q
    ensures DhcpRangeFor(p + "." + q) == (p + ".100") + "," + (p + ".240") + "," + "255.255.255.0" + "," + "12h"
  {
    RSplitAt(p, q);
  }

  lemma RangeHostTexts(x: Addr)
    ensures x / 256 * 256 + 240 < Size
    ensures Format(x / 256 * 256 + 100) == Prefix24(x) + ".100"
    ensures Format(x / 256 * 256 + 240) == Prefix24(x) + ".240"
  {
    HundredTexts();
    HostOf24Text(x, 100);
    HostOf24Text(x, 240);
  }

  lemma HundredTexts()
    ensures NatToString(100) == "100" && NatToString(240) == "240"
  {
    assert NatToString(10) == "10";
    assert NatToString(24) == "24";
  }

  /** The range of a dotted quad runs from .100 to .240 of its /24, with the /24 netmask and a 12h lease. */
  lemma DhcpRangeFields(x: Addr)
    ensures var net := x / 256 * 256;
      net + 240 < Size
      && Split(DhcpRangeFor(Format(x)), ',') == [Format(net + 100), Format(net + 240), "255.255.255.0", "12h"]
  {
    var net := x / 256 * 256;
    QuadText(x);
    RangeHostTexts(x);
    RuntimeAp.FormatPlain(net + 100);
    RuntimeAp.FormatPlain(net + 240);
    RangeText(Prefix24(x), NatToString(x % 256), Format(net + 100), Format(net + 240));
  }

  // ------------------------------------------------------- default network

  /** The text `$` lets a pattern end on: the whole text, or the text before one final newline. */
  function EndBody(s: string): (r: string)
    ensures s == r || s == r + "\n"
  {
    if |s| > 0 && s[|s| - 1] == '\n' then s[..|s| - 1] else s
  }

  /**
   * `re.sub(r"\.\d+$", ".0/24", address)`: the last '.' followed by nothing
   * but digits up to the end (or up to one final newline) becomes ".0/24".
   */
  function DefaultNetwork(address: string): string
  {
    var body := EndBody(address);
    if '.' in body && IsDigits(AfterLast(body, '.'))
    then RSplit1(body, '.')[0] + ".0/24" + address[|body|..]
    else address
  }

  /** "p.<digits>" becomes "p.0/24". */
  lemma DefaultNetworkText(p: string, t: string)
    requires '.' !in t && IsDigits(t)
    ensures DefaultNetwork(p + "." + t) == p + ".0/24"
  {
    var a := p + "." + t;
    assert a[|a| - 1] == t[|t| - 1];
    assert EndBody(a) == a;
    RSplitAt(p, t);
    assert a[|a|..] == "";
  }

  /** The runtime command's default network of an address is its /24 prefix followed by ".0/24". */
  lemma RuntimeDefaultText(x: Addr)
    ensures RuntimeAp.DefaultNetwork(x) == Prefix24(x) + ".0/24"
  {
    Network24(x);
    HostOf24Text(x, 0);
    assert NatToString(0) == "0";
    assert NatToString(24) == "24" by {
      assert NatToString(2) == "2";
    }
  }

  /** On a dotted quad the rewrite gives the /24 network the runtime command defaults to. */
  lemma DefaultNetworkOf(x: Addr)
    ensures DefaultNetwork(Format(x)) == RuntimeAp.DefaultNetwork(x)
  {
    QuadText(x);
    DefaultNetworkText(Prefix24(x), NatToString(x % 256));
    RuntimeDefaultText(x);
  }

  /** A text that does not end in ".<digits>" is kept as the network. */
  lemma DefaultNetworkKeeps(address: string)
    requires !('.' in EndBody(address) && IsDigits(AfterLast(EndBody(address), '.')))
    ensures DefaultNetwork(address) == address
  {
  }

  // ---------------------------------------------------------------- servers

  const SpoofPrefix := "address=/#/"

  /** The `servers` setting: spoofing answers every name with the address; a gateway forwards to the DNS servers. */
  function Servers(spoof: bool, asGateway: bool, address: string, dns: seq<string>): string
  {
    if spoof then SpoofPrefix + address
    else if asGateway then Join(RuntimeAp.Prefixed("server=", dns), "\n")
    else ""
  }

  /** Spoofing gives the one line that answers every name with the address. */
  lemma SpoofServersLines(asGateway: bool, address: string, dns: seq<string>)
    requires '\n' !in address
    ensures SplitLines(Servers(true, asGateway, address, dns)) == [SpoofPrefix + address]
  {
    JoinedLines([SpoofPrefix + address]);
  }

  /** Without spoofing, a gateway gets one "server=" line per DNS server, and otherwise none. */
  lemma GatewayServersLines(asGateway: bool, address: string, dns: seq<string>)
    requires forall k :: 0 <= k < |dns| ==> '\n' !in dns[k]
    ensures SplitLines(Servers(false, asGateway, address, dns)) ==
            if asGateway then RuntimeAp.Prefixed("server=", dns) else []
  {
    RuntimeAp.ServersLines(asGateway, dns);
  }

  /** Without spoofing both commands choose the same servers. */
  lemma ServersAsRuntime(asGateway: bool, address: string, dns: seq<string>)
    ensures Servers(false, asGateway, address, dns) == RuntimeAp.Servers(asGateway, dns)
  {
  }

  // ------------------------------------------------------------------ main

  /** The arguments of the command, with `dhcp_range` and `network` absent when not given. */
  datatype ApArgs = ApArgs(
    ssid: string,
    hideSsid: bool,
    passphrase: string,
    address: string,
    asGateway: bool,
    tld: string,
    domain: string,
    welcomeDomain: string,
    channel: int,
    countryCode: string,
    iface: string,
    dhcpRange: Option<string>,
    network: Option<string>,
    dns: seq<string>,
    otherInterfaces: seq<string>,
    exceptInterfaces: seq<string>,
    nodhcpInterfaces: seq<string>,
    spoof: bool)

  /** The message of the first input check of `main` that fails, if any. */
  function InputFailure(args: ApArgs): (r: Option<string>)
    ensures r.None? <==>
      FullMatch(args.ssid, SsidPattern)
      && (args.passphrase == "" || FullMatch(args.passphrase, PassphrasePattern))
      && 1 <= args.channel <= 14
      && ConfigLib.ValidIp(args.address)
  {
    if !FullMatch(args.ssid, SsidPattern) then Some("Invalid SSID. Use 32 chars max without: !#;+]/")
    else if args.passphrase != "" && !FullMatch(args.passphrase, PassphrasePattern)
    then Some("Invalid Passphrase. Must be 8-63 long ASCII chars")
    else if args.channel < 1 || args.channel > 14 then Some("Invalid channel. Must be 1-14 (1-11 for most places)")
    else if !ConfigLib.ValidIp(args.address) then Some("Invalid IPv4 address")
    else None
  }

  /** The input checks of `main` as written, whose `is_valid_ip` accepts whatever RE_IP matches. */
  function InputFailureAsWritten(args: ApArgs): (r: Option<string>)
    ensures r.None? <==>
      FullMatch(args.ssid, SsidPattern)
      && (args.passphrase == "" || FullMatch(args.passphrase, PassphrasePattern))
      && 1 <= args.channel <= 14
      && FullMatch(args.address, ConfigLib.IpPattern)
  {
    if !FullMatch(args.ssid, SsidPattern) then Some("Invalid SSID. Use 32 chars max without: !#;+]/")
    else if args.passphrase != "" && !FullMatch(args.passphrase, PassphrasePattern)
    then Some("Invalid Passphrase. Must be 8-63 long ASCII chars")
    else if args.channel < 1 || args.channel > 14 then Some("Invalid channel. Must be 1-14 (1-11 for most places)")
    else if !FullMatch(args.address, ConfigLib.IpPattern) then Some("Invalid IPv4 address")
    else None
  }

  /**
   * As written, the command configures an access point on the unspecified
   * address "0.0.0.0", which the corrected check refuses.
   */
  lemma UnspecifiedAcceptedAsWritten(args: ApArgs)
    requires args.address == "0.0.0.0" && FullMatch(args.ssid, SsidPattern) && args.passphrase == ""
    requires 1 <= args.channel <= 14
    ensures InputFailureAsWritten(args).None?
    ensures InputFailure(args) == Some("Invalid IPv4 address")
  {
    ConfigLib.AsWrittenAcceptsUnspecified();
  }

  /** What the command goes on to configure once its inputs passed. */
  datatype ApPlan = ApPlan(
    settings: ApArgs,
    channelWarning: bool,
    dnsmasq: RuntimeAp.DnsmasqFields,
    masquerade: bool,
    forwarding: bool)

  /** The settings after `main`'s defaults: DNS servers, the /24 network, and always the derived DHCP range. */
  function WithDefaults(args: ApArgs): (r: ApArgs)
    ensures |r.dns| > 0 && r.network.Some? && r.dhcpRange == Some(DhcpRangeFor(args.address))
    ensures args.dns != [] ==> r.dns == args.dns
    ensures args.network.Some? ==> r.network == args.network
  {
    var dns := if args.dns == [] then DefaultDns else args.dns;
    var network := if args.network.None? then DefaultNetwork(args.address) else args.network.value;
    args.(dns := dns, network := Some(network), dhcpRange := Some(DhcpRangeFor(args.address)))
  }

  /** The "dhcp-range=" line of every other interface, from the address `addressOf` gives it. */
  function RangeLines(ifaces: seq<string>, addressOf: string -> string): (r: seq<string>)
    ensures |r| == |ifaces|
    ensures forall k :: 0 <= k < |ifaces| ==> r[k] == "dhcp-range=" + DhcpRangeFor(addressOf(ifaces[k]))
  {
    seq(|ifaces|, k requires 0 <= k < |ifaces| => "dhcp-range=" + DhcpRangeFor(addressOf(ifaces[k])))
  }

  /** `write_dnsmasq_conf`'s derived fields. */
  function DnsmasqFieldsOf(c: ApArgs, addressOf: string -> string): RuntimeAp.DnsmasqFields
  {
    RuntimeAp.DnsmasqFields(
      Join(RuntimeAp.Prefixed("interface=", c.otherInterfaces + c.nodhcpInterfaces), "\n"),
      Join(RangeLines(c.otherInterfaces, addressOf), "\n"),
      Join(RuntimeAp.Prefixed("except-interface=", c.exceptInterfaces), "\n"),
      Join(RuntimeAp.Prefixed("no-dhcp-interface=", c.nodhcpInterfaces), "\n"),
      Servers(c.spoof, c.asGateway, c.address, c.dns),
      c.domain + "." + c.tld,
      c.welcomeDomain + "." + c.tld)
  }

  /** The input checks of `main`, in order; the first that fails ends the run as invalid. */
  method CheckInputs(args: ApArgs) returns (failure: Option<string>)
    ensures failure == InputFailure(args)
  {
    if !FullMatch(args.ssid, SsidPattern) {
      return Some("Invalid SSID. Use 32 chars max without: !#;+]/");
    }
    if args.passphrase != "" && !FullMatch(args.passphrase, PassphrasePattern) {
      return Some("Invalid Passphrase. Must be 8-63 long ASCII chars");
    }
    if args.channel < 1 || args.channel > 14 {
      return Some("Invalid channel. Must be 1-14 (1-11 for most places)");
    }
    var valid := ConfigLib.IsValidIp(args.address);
    if !valid {
      return Some("Invalid IPv4 address");
    }
    return None;
  }

  /** `main`'s updates of its settings: DNS servers and network when missing, then the DHCP range. */
  method ApplyDefaults(args: ApArgs) returns (kwargs: ApArgs)
    ensures kwargs == WithDefaults(args)
  {
    kwargs := args;
    if kwargs.dns == [] {
      kwargs := kwargs.(dns := DefaultDns);
    }
    if kwargs.network.None? {
      kwargs := kwargs.(network := Some(DefaultNetwork(kwargs.address)));
    }
    kwargs := kwargs.(dhcpRange := Some(DhcpRangeFor(kwargs.address)));
  }

  /**
   * `main` past its input checks. `get_ip_address` is the parameter
   * `addressOf`; the `is_valid_ip` it calls is the corrected one.
   */
  method Configure(args: ApArgs, addressOf: string -> string) returns (r: Run<ApPlan>)
    ensures InputFailure(args).Some? ==> r == Invalid(InputFailure(args).value)
    ensures InputFailure(args).None? ==>
      var c := WithDefaults(args);
      r == Done(ApPlan(c, 11 < args.channel, DnsmasqFieldsOf(c, addressOf), args.asGateway,
                       args.asGateway || args.otherInterfaces != [] || args.nodhcpInterfaces != []))
  {
    var failure := CheckInputs(args);
    if failure.Some? {
      return Invalid(failure.value);
    }
    var warning := args.channel > 11;
    var kwargs := ApplyDefaults(args);
    var fields := DnsmasqFieldsOf(kwargs, addressOf);
    var forwarding := kwargs.asGateway || kwargs.otherInterfaces != [] || kwargs.nodhcpInterfaces != [];
    r := Done(ApPlan(kwargs, warning, fields, kwargs.asGateway, forwarding));
  }

  /** A user-given DHCP range has no effect on the plan. */
  lemma RangeIgnored(args: ApArgs, range: Option<string>, addressOf: string -> string)
    ensures WithDefaults(args.(dhcpRange := range)) == WithDefaults(args)
    ensures DnsmasqFieldsOf(WithDefaults(args.(dhcpRange := range)), addressOf)
         == DnsmasqFieldsOf(WithDefaults(args), addressOf)
  {
  }

  /** For a dotted quad and no network given, the default network is the runtime command's /24. */
  lemma DefaultsOfQuad(args: ApArgs, x: Addr)
    requires args.address == Format(x) && args.network.None?
    ensures WithDefaults(args).network == Some(RuntimeAp.DefaultNetwork(x))
    ensures WithDefaults(args).dhcpRange == Some(DhcpRangeFor(Format(x)))
  {
    DefaultNetworkOf(x);
  }
}
