// The `offspot_runtime_config` ethernet command: its own checks of the
// settings with `is_valid_ip`, then the same armor repair and splice of the
// dhcpcd configuration as the runtime command. The file's text is a parameter
// and the new text a result; the dhcpcd restart and the wait that follows it
// are not part of this model.

module ConfigEthernet {
  import opened Wrappers
  import opened Strings
  import opened Lines
  import opened Checks
  import opened ConfigLib
  import opened Dhcpcd
  import opened DhcpcdProperties
  import opened RuntimeEthernet

  /** The index of the first item `is_valid_ip` refuses, if any. */
  function FirstInvalid(items: seq<string>): (r: Option<nat>)
    ensures r.None? <==> forall k :: 0 <= k < |items| ==> ValidIp(items[k])
    ensures r.Some? ==> r.value < |items| && !ValidIp(items[r.value])
                        && forall k :: 0 <= k < r.value ==> ValidIp(items[k])
    decreases |items|
  {
    if |items| == 0 then None
    else if !ValidIp(items[0]) then Some(0)
    else
      match FirstInvalid(items[1..])
      case None => None
      case Some(k) => Some(k + 1)
  }

  /** A `for` loop over the items that stops at the first one `is_valid_ip` refuses. */
  method FindInvalid(items: seq<string>) returns (r: Option<nat>)
    ensures r == FirstInvalid(items)
  {
    var i := 0;
    while i < |items|
      invariant 0 <= i <= |items|
      invariant forall k :: 0 <= k < i ==> ValidIp(items[k])
    {
      var ok := IsValidIp(items[i]);
      if !ok {
        FirstInvalidAt(items, i);
        return Some(i);
      }
      i := i + 1;
    }
    return None;
  }

  /** The first refused item is the one `FirstInvalid` names. */
  lemma {:induction false} FirstInvalidAt(items: seq<string>, i: nat)
    requires i < |items| && !ValidIp(items[i]) && forall k :: 0 <= k < i ==> ValidIp(items[k])
    ensures FirstInvalid(items) == Some(i)
    decreases i
  {
    if i > 0 {
      assert ValidIp(items[0]);
      var rest := items[1..];
      assert rest[i - 1] == items[i];
      assert forall k :: 0 <= k < i - 1 ==> rest[k] == items[k + 1];
      FirstInvalidAt(rest, i - 1);
    }
  }

  /**
   * The message `main` stops with, checking in its order: the type, then for
   * a static configuration the address, the routers and the DNS servers.
   */
  function InputFailure(networkType: string, address: string, routers: seq<string>, servers: seq<string>)
    : (r: Option<string>)
    ensures r.None? <==>
      networkType == "dhcp"
      || (networkType == "static" && ValidIp(address)
          && |routers| > 0 && (forall k :: 0 <= k < |routers| ==> ValidIp(routers[k]))
          && |servers| > 0 && (forall k :: 0 <= k < |servers| ==> ValidIp(servers[k])))
  {
    if networkType != "dhcp" && networkType != "static" then Some("Incorrect network type: " + networkType)
    else if networkType == "dhcp" then None
    else if address == "" then Some("Missing static address")
    else if !ValidIp(address) then Some("Incorrect static address: " + address)
    else if routers == [] then Some("Missing static router")
    else
      match FirstInvalid(routers)
      case Some(k) => Some("Invalid router address: " + routers[k])
      case None =>
        if servers == [] then Some("Missing static dns")
        else
          match FirstInvalid(servers)
          case Some(k) => Some("Invalid dns address: " + servers[k])
          case None => None
  }

  /** The checks of `main`, step by step. */
  method CheckInputs(networkType: string, address: string, routers: seq<string>, servers: seq<string>)
    returns (failure: Option<string>)
    ensures failure == InputFailure(networkType, address, routers, servers)
  {
    if networkType != "dhcp" && networkType != "static" {
      return Some("Incorrect network type: " + networkType);
    }
    if networkType == "static" {
      if address == "" {
        return Some("Missing static address");
      }
      var ok := IsValidIp(address);
      if !ok {
        return Some("Incorrect static address: " + address);
      }
      if routers == [] {
        return Some("Missing static router");
      }
      var bad := FindInvalid(routers);
      if bad.Some? {
        return Some("Invalid router address: " + routers[bad.value]);
      }
      if servers == [] {
        return Some("Missing static dns");
      }
      bad := FindInvalid(servers);
      if bad.Some? {
        return Some("Invalid dns address: " + servers[bad.value]);
      }
    }
    return None;
  }

  // ------------------------------------------------------------ DNS servers

  /** Each item between single quotes, as Python's `repr` writes a plain string. */
  function Quoted(items: seq<string>): (r: seq<string>)
    ensures |r| == |items| && forall k :: 0 <= k < |r| ==> r[k] == "'" + items[k] + "'"
  {
    if |items| == 0 then [] else ["'" + items[0] + "'"] + Quoted(items[1..])
  }

  /** `str(dns)`: the list's text, between brackets. */
  function ListText(items: seq<string>): (r: string)
    ensures |r| >= 2 && r[0] == '[' && r[|r| - 1] == ']'
  {
    "[" + Join(Quoted(items), ", ") + "]"
  }

  /** `str(dns).split(" ")`: the servers as `main` checks and writes them. */
  function ServersAsWritten(dns: seq<string>): seq<string>
  {
    Split(ListText(dns), ' ')
  }

  /** The first piece of a split starts with the text's first character when that is not the separator. */
  lemma SplitFirst(s: string, c: char)
    requires |s| > 0 && s[0] != c
    ensures var parts := Split(s, c); |parts[0]| > 0 && parts[0][0] == s[0]
  {
    var parts := Split(s, c);
    SplitJoin(s, c);
    if |parts| > 1 {
      assert Join(parts, [c]) == parts[0] + [c] + Join(parts[1..], [c]);
    }
  }

  /** A text that starts with `[` is not four octet groups: the first group starts with a digit. */
  lemma BracketNoPattern(t: string)
    requires |t| > 0 && t[0] == '['
    ensures !IpPattern(t)
  {
    SplitFirst(t, '.');
  }

  /** A text that starts with `[` does not match RE_IP, so `is_valid_ip` refuses it. */
  lemma BracketRefused(s: string)
    requires |s| > 0 && s[0] == '['
    ensures !ValidIp(s)
  {
    BracketNoPattern(s);
    if |s| > 1 {
      BracketNoPattern(s[..|s| - 1]);
    }
  }

  /**
   * As written, `main` checks the pieces of the list's text, the first of
   * which starts with `[`: static settings whose address, routers and DNS
   * servers all pass `is_valid_ip` are refused with the first piece, while
   * checking the servers themselves accepts them.
   */
  lemma StaticRefusedAsWritten(address: string, routers: seq<string>, dns: seq<string>)
    requires ValidIp(address) && |routers| > 0 && (forall k :: 0 <= k < |routers| ==> ValidIp(routers[k]))
    requires |dns| > 0 && forall k :: 0 <= k < |dns| ==> ValidIp(dns[k])
    ensures InputFailure("static", address, routers, dns) == None
    ensures var servers := ServersAsWritten(dns);
            InputFailure("static", address, routers, servers) == Some("Invalid dns address: " + servers[0])
  {
    var servers := ServersAsWritten(dns);
    SplitFirst(ListText(dns), ' ');
    BracketRefused(servers[0]);
    assert FirstInvalid(servers) == Some(0);
  }

  /** As written, no static settings pass the checks. */
  lemma NoStaticAsWritten(address: string, routers: seq<string>, dns: seq<string>)
    ensures InputFailure("static", address, routers, ServersAsWritten(dns)).Some?
  {
    var servers := ServersAsWritten(dns);
    SplitFirst(ListText(dns), ' ');
    BracketRefused(servers[0]);
  }

  // ------------------------------------------------------------------ main

  /**
   * How `main` ends with the DNS servers checked as given: `fail_invalid`
   * with the first failed check, `fail_error` on the ValueError of a missing
   * armor line, or the file's new text.
   */
  function Outcome(networkType: string, address: string, routers: seq<string>, dns: seq<string>, conf: string)
    : Run<string>
  {
    match InputFailure(networkType, address, routers, dns)
    case Some(message) => Invalid(message)
    case None =>
      match Spliced(AfterArmor(conf), NetworkConf(networkType, address, routers, dns))
      case Ok(text) => Done(text)
      case Err(e) => Raised(e)
  }

  /** `main` on the dhcpcd file's text `conf`, with the DNS servers checked as given. */
  method Configure(networkType: string, address: string, routers: seq<string>, dns: seq<string>, conf: string)
    returns (r: Run<string>)
    ensures r == Outcome(networkType, address, routers, dns, conf)
  {
    var failure := CheckInputs(networkType, address, routers, dns);
    if failure.Some? {
      return Invalid(failure.value);
    }
    var networkConf := "dhcp";
    if networkType == "static" {
      networkConf := "static ip_address=" + address + "/24\n"
        + "static routers=" + Join(routers, " ") + "\n"
        + "static domain_name_servers=" + Join(dns, " ") + "\n";
    }
    var fixed, written := EnsureArmor(conf);
    var current := conf;
    if fixed {
      current := written.value;
    }
    var w := WriteConf(current, networkConf);
    match w {
      case Ok(text) => r := Done(text);
      case Err(e) => r := Raised(e);
    }
  }

  /**
   * `main` writes the file exactly when the checks pass, never raises, and
   * the written file reads back as the repaired file with the directive
   * lines between its first armor lines.
   */
  lemma OutcomeMeaning(networkType: string, address: string, routers: seq<string>, dns: seq<string>, conf: string)
    ensures var out := Outcome(networkType, address, routers, dns, conf);
            (out.Done? <==> InputFailure(networkType, address, routers, dns).None?)
            && (out.Invalid? <==> InputFailure(networkType, address, routers, dns).Some?)
            && (out.Done? ==>
                  SplitLines(out.value)
                  == ReadBack(SplitLines(AfterArmor(conf)), NetworkConf(networkType, address, routers, dns)))
  {
    if InputFailure(networkType, address, routers, dns).None? {
      ArmorThenSpliceOk(conf, NetworkConf(networkType, address, routers, dns));
      SplicedReadBack(AfterArmor(conf), NetworkConf(networkType, address, routers, dns));
    }
  }

  /** The DHCP configuration is accepted whatever the other settings, and writes the single `dhcp` line. */
  lemma DhcpApplied(address: string, routers: seq<string>, dns: seq<string>, conf: string)
    ensures var out := Outcome("dhcp", address, routers, dns, conf);
            var lines := SplitLines(AfterArmor(conf));
            ArmorStart in lines && ArmorEnd in lines
            && out.Done?
            && SplitLines(out.value)
               == lines[..IndexIn(lines, ArmorStart)] + [ArmorStart] + ["dhcp"]
                  + [ArmorEnd] + After(lines, IndexIn(lines, ArmorEnd))
  {
    OutcomeMeaning("dhcp", address, routers, dns, conf);
    ArmorThenSpliceOk(conf, NetworkConf("dhcp", address, routers, dns));
    NetworkConfLines("dhcp", address, routers, dns);
  }
}
