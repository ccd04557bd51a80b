/**
 * The validators of the runtime helpers. Each returns a `CheckResponse`;
 * the ones that can hit an uncaught exception return it inside a `Result`.
 * Regular expressions are stated as the languages they match: a pattern
 * anchored with `^…$` and applied with `re.match` also accepts one final
 * newline, which `FullMatch` spells out.
 */
module Checks {
  import opened Wrappers
  import opened Strings
  import opened IPv4

  /** `CheckResponse(passed, help_text)`: truthy exactly when it passed. */
  datatype CheckResponse = CheckResponse(passed: bool, helpText: string)
  {
    /** `raise_for_status()`: a ValueError with the help text unless it passed. */
    function RaiseForStatus(): (r: Option<Error>)
      ensures r.None? <==> passed
      ensures r.Some? ==> r.value == ValueError(helpText)
    {
      if passed then None else Some(ValueError(helpText))
    }
  }

  const Passed := CheckResponse(true, "")

  function Failed(text: string): CheckResponse
  {
    CheckResponse(false, text)
  }

  /** `re.match(r"^…$", s)` for the language `lang` of the pattern between the anchors. */
  predicate FullMatch(s: string, lang: string -> bool)
  {
    lang(s) || (|s| > 0 && s[|s| - 1] == '\n' && lang(s[..|s| - 1]))
  }

  predicate NoFinalNewline(s: string)
  {
    |s| == 0 || s[|s| - 1] != '\n'
  }

  /** The text less one final newline, if it has one. */
  function Unended(s: string): (r: string)
    ensures NoFinalNewline(s) ==> r == s
    ensures !NoFinalNewline(s) ==> r + "\n" == s
  {
    if NoFinalNewline(s) then s else s[..|s| - 1]
  }

  /** For a language without a final newline, the anchored match is the language on the text less its newline. */
  lemma FullMatchUnended(s: string, lang: string -> bool)
    requires !NoFinalNewline(s) ==> !lang(s)
    ensures FullMatch(s, lang) <==> lang(Unended(s))
  {
  }

  // ------------------------------------------------------------------ ports

  /**
   * `port_in_range(range_or_port, expected)` for a text range and an int
   * port, the only types the compose check passes: every '-'-separated part
   * must be digits; a single port must equal `expected`; "a-b" is inclusive.
   * With a second '-', `int()` of the text after the first one raises.
   */
  function PortInRange(rangeOrPort: string, expected: int): (r: Result<bool>)
  {
    var parts := Split(rangeOrPort, '-');
    if !(forall k :: 0 <= k < |parts| ==> IsDigits(parts[k])) then Ok(false)
    else if '-' !in rangeOrPort then
      SplitNoSeparator(rangeOrPort, '-');
      assert parts == [rangeOrPort] && IsDigits(parts[0]);
      Ok(ParseDigits(rangeOrPort) == expected)
    else
      var i := IndexOf(rangeOrPort, '-');
      var start, rest := rangeOrPort[..i], rangeOrPort[i + 1..];
      assert rangeOrPort == start + ['-'] + rest;
      SplitConcat(start, '-', rest);
      assert IsDigits(parts[0]);
      if '-' in rest then Err(ValueError("invalid literal for int() with base 10: '" + rest + "'"))
      else
        SplitNoSeparator(rest, '-');
        assert IsDigits(parts[1]);
        Ok(ParseDigits(start) <= expected <= ParseDigits(rest))
  }

  /** The text of a single port matches exactly that port. */
  lemma PortTextMatches(port: nat, expected: int)
    ensures PortInRange(NatToString(port), expected) == Ok(port == expected)
  {
    NatToStringRoundTrip(port);
    assert '-' !in NatToString(port) by {
      assert forall i :: 0 <= i < |NatToString(port)| ==> IsDigitChar(NatToString(port)[i]);
    }
    SplitNoSeparator(NatToString(port), '-');
  }

  /** The text "a-b" matches exactly the ports from a to b, both included. */
  lemma RangeTextMatches(a: nat, b: nat, expected: int)
    ensures PortInRange(NatToString(a) + "-" + NatToString(b), expected) == Ok(a <= expected <= b)
  {
    var sa, sb := NatToString(a), NatToString(b);
    NatToStringRoundTrip(a);
    NatToStringRoundTrip(b);
    assert '-' !in sa by {
      assert forall i :: 0 <= i < |sa| ==> IsDigitChar(sa[i]);
    }
    assert '-' !in sb by {
      assert forall i :: 0 <= i < |sb| ==> IsDigitChar(sb[i]);
    }
    var s := sa + "-" + sb;
    assert s == sa + ['-'] + sb;
    SplitConcat(sa, '-', sb);
    SplitNoSeparator(sb, '-');
    IndexOfAfterFree(sa, '-', sb);
    assert s[..|sa|] == sa && s[|sa| + 1..] == sb;
  }

  /** Text with a part that is not digits (an empty one included) matches no port. */
  lemma NonDigitPartRefused(rangeOrPort: string, expected: int, k: nat)
    requires k < |Split(rangeOrPort, '-')| && !IsDigits(Split(rangeOrPort, '-')[k])
    ensures PortInRange(rangeOrPort, expected) == Ok(false)
  {
  }

  // -------------------------------------------------------------- hostnames

  predicate HostnameChar(c: char)
  {
    IsAlnumChar(c) || c == '-' || c == '.'
  }

  /** A '.' of `s` is neither first nor last, not after a '-' and not before a '-' or '.'. */
  predicate DotAllowedAt(s: string, i: int)
    requires 0 <= i < |s|
  {
    s[i] == '.' ==> 0 < i < |s| - 1 && s[i - 1] != '-' && s[i + 1] != '-' && s[i + 1] != '.'
  }

  /**
   * The language of RE_HOSTNAME between its anchors: an alphanumeric, then
   * optionally letters, digits, '-' and lone dots ending in an alphanumeric.
   */
  predicate HostnamePattern(s: string)
  {
    |s| >= 1 && IsAlnumChar(s[0]) && IsAlnumChar(s[|s| - 1])
    && forall i :: 0 <= i < |s| ==> HostnameChar(s[i]) && DotAllowedAt(s, i)
  }

  /** `is_valid_hostname(name)`: lengths of the name and of its labels, then RE_HOSTNAME. */
  function IsValidHostname(name: string): CheckResponse
  {
    var labels := Split(name, '.');
    if |name| > 255 || |labels| > 64
       || (exists k :: 0 <= k < |labels| && (|labels[k]| < 1 || |labels[k]| > 63))
       || !FullMatch(name, HostnamePattern)
    then Failed("Invalid hostname “" + name + "”")
    else Passed
  }

  /**
   * A label in the preferred name syntax of section 2.3.1 of RFC 1035, with
   * the leading digit that section 2.1 of RFC 1123 allows: letters, digits
   * and hyphens, starting and ending with a letter or digit.
   */
  predicate LdhLabel(l: string)
  {
    |l| >= 1 && IsAlnumChar(l[0]) && IsAlnumChar(l[|l| - 1])
    && forall i :: 0 <= i < |l| ==> IsAlnumChar(l[i]) || l[i] == '-'
  }

  lemma LabelPattern(l: string)
    requires '.' !in l
    ensures HostnamePattern(l) <==> LdhLabel(l)
  {
  }

  lemma ConcatPattern(l: string, t: string)
    requires '.' !in l
    ensures HostnamePattern(l + "." + t) <==> LdhLabel(l) && HostnamePattern(t)
  {
    if HostnamePattern(l + "." + t) {
      ConcatPatternParts(l, t);
    }
    if LdhLabel(l) && HostnamePattern(t) {
      ConcatPatternWhole(l, t);
    }
  }

  lemma ConcatPatternParts(l: string, t: string)
    requires '.' !in l && HostnamePattern(l + "." + t)
    ensures LdhLabel(l) && HostnamePattern(t)
  {
    var s := l + "." + t;
    var n := |l|;
    assert s[n] == '.';
    assert DotAllowedAt(s, n);
    assert n > 0 && s[n - 1] == l[n - 1];
    assert HostnameChar(s[n - 1]);
    forall i | 0 <= i < n
      ensures IsAlnumChar(l[i]) || l[i] == '-'
    {
      assert s[i] == l[i];
      assert HostnameChar(s[i]);
    }
    assert s[0] == l[0];
    forall j | 0 <= j < |t|
      ensures HostnameChar(t[j]) && DotAllowedAt(t, j)
    {
      assert s[n + 1 + j] == t[j];
      assert HostnameChar(s[n + 1 + j]) && DotAllowedAt(s, n + 1 + j);
      if t[j] == '.' {
        assert j != 0;
        assert s[n + j] == t[j - 1];
        assert j + 1 < |t| && s[n + 2 + j] == t[j + 1];
      }
    }
    assert s[n + 1] == t[0];
    assert HostnameChar(s[n + 1]);
    assert s[|s| - 1] == t[|t| - 1];
  }

  lemma ConcatPatternWhole(l: string, t: string)
    requires '.' !in l && LdhLabel(l) && HostnamePattern(t)
    ensures HostnamePattern(l + "." + t)
  {
    var s := l + "." + t;
    var n := |l|;
    forall i | 0 <= i < |s|
      ensures HostnameChar(s[i]) && DotAllowedAt(s, i)
    {
      if i < n {
        assert s[i] == l[i];
      } else if i == n {
        assert s[i - 1] == l[n - 1] && s[i + 1] == t[0];
      } else {
        var j := i - n - 1;
        assert s[i] == t[j];
        assert HostnameChar(t[j]) && DotAllowedAt(t, j);
        if t[j] == '.' {
          assert s[i - 1] == t[j - 1] && s[i + 1] == t[j + 1];
        }
      }
    }
    assert s[0] == l[0] && s[|s| - 1] == t[|t| - 1];
  }

  lemma {:induction false} JoinPattern(labels: seq<string>)
    requires |labels| >= 1 && forall k :: 0 <= k < |labels| ==> '.' !in labels[k]
    ensures HostnamePattern(Join(labels, ".")) <==> forall k :: 0 <= k < |labels| ==> LdhLabel(labels[k])
    decreases |labels|
  {
    if |labels| == 1 {
      LabelPattern(labels[0]);
    } else {
      JoinPattern(labels[1..]);
      ConcatPattern(labels[0], Join(labels[1..], "."));
      assert forall k :: 1 <= k < |labels| ==> labels[k] == labels[1..][k - 1];
    }
  }

  /**
   * Without a final newline, a hostname passes exactly when it has at most
   * 255 characters, at most 64 labels, and every label is a letter-digit-
   * hyphen label of at most 63 characters (section 2.3.4 of RFC 1035).
   */
  lemma HostnameLabels(name: string)
    requires NoFinalNewline(name)
    ensures IsValidHostname(name).passed <==>
              |name| <= 255 && |Split(name, '.')| <= 64
              && forall k :: 0 <= k < |Split(name, '.')| ==>
                   LdhLabel(Split(name, '.')[k]) && |Split(name, '.')[k]| <= 63
  {
    var labels := Split(name, '.');
    assert FullMatch(name, HostnamePattern) <==> HostnamePattern(name);
    SplitJoin(name, '.');
    JoinPattern(labels);
    assert (forall k :: 0 <= k < |labels| ==> LdhLabel(labels[k]))
           ==> !(exists k :: 0 <= k < |labels| && |labels[k]| < 1);
  }

  /** RE_HOSTNAME's `$` lets one final newline through: "offspot\n" passes. */
  lemma HostnameFinalNewline()
    ensures IsValidHostname("offspot\n").passed
  {
    var name := "offspot\n";
    SplitNoSeparator(name, '.');
    assert HostnamePattern(name[..|name| - 1]);
  }

  // ------------------------------------------------------ TLDs and domains

  /** The names `is_valid_tld` refuses: those of section 2 of RFC 2606, plus "local" and "onion". */
  const ReservedTlds: seq<string> := ["example", "invalid", "local", "localhost", "onion", "test"]

  /** RE_HOTSPOT_TLD between its anchors: a letter, then letters, digits and '-'. */
  predicate TldPattern(s: string)
  {
    |s| >= 1 && IsAlphaChar(s[0]) && forall i :: 0 <= i < |s| ==> IsAlnumChar(s[i]) || s[i] == '-'
  }

  /** `is_valid_tld(tld)`. */
  function IsValidTld(tld: string): (r: CheckResponse)
    ensures r.passed <==>
              tld !in ReservedTlds
              && var t := Unended(tld);
                 |t| >= 1 && IsAlphaChar(t[0]) && forall i :: 0 <= i < |t| ==> IsAlnumChar(t[i]) || t[i] == '-'
    ensures !r.passed && tld in ReservedTlds ==> r.helpText == "Unauthorized tld `" + tld + "`"
  {
    FullMatchUnended(tld, TldPattern);
    if tld in ReservedTlds then Failed("Unauthorized tld `" + tld + "`")
    else if !FullMatch(tld, TldPattern) then Failed("Invalid hotspot tld `" + tld + "`")
    else Passed
  }

  /** `is_valid_domain(domain)`: a valid hostname. */
  function IsValidDomain(domain: string): (r: CheckResponse)
    ensures r.passed <==> IsValidHostname(domain).passed
  {
    if !IsValidHostname(domain).passed then Failed("Invalid domain `" + domain + "`") else Passed
  }

  /**
   * A valid domain and a valid TLD ending in a letter or digit make a valid
   * fully qualified name `domain.tld`, within the overall limits.
   */
  lemma FqdnIsHostname(domain: string, tld: string)
    requires IsValidDomain(domain).passed && IsValidTld(tld).passed
    requires NoFinalNewline(domain) && NoFinalNewline(tld)
    requires IsAlnumChar(tld[|tld| - 1]) && |tld| <= 63
    requires |domain| + 1 + |tld| <= 255 && |Split(domain, '.')| < 64
    ensures IsValidHostname(domain + "." + tld).passed
  {
    HostnameLabels(domain);
    var name := domain + "." + tld;
    assert name == domain + ['.'] + tld;
    assert '.' !in tld by {
      assert forall i :: 0 <= i < |tld| ==> IsAlnumChar(tld[i]) || tld[i] == '-';
    }
    SplitAppend(domain, '.', tld);
    var labels := Split(name, '.');
    assert labels == Split(domain, '.') + [tld];
    assert LdhLabel(tld);
    forall k | 0 <= k < |labels|
      ensures LdhLabel(labels[k]) && |labels[k]| <= 63
    {
      if k < |labels| - 1 {
        assert labels[k] == Split(domain, '.')[k];
      }
    }
    HostnameLabels(name);
  }

  // ----------------------------------------------------- wifi and interfaces

  /** RE_SSID between its anchors: 1 to 32 characters, none of `+]/"` or a tab, and not `!#;` first. */
  predicate SsidPattern(s: string)
  {
    1 <= |s| <= 32 && s[0] !in "!#;+]/\"\t" && forall i :: 1 <= i < |s| ==> s[i] !in "+]/\"\t"
  }

  /**
   * `is_valid_ssid(ssid)`: 1 to 32 characters without `+]/"` or a tab, the
   * first also not `!#;`; a newline is an ordinary character of the class,
   * and one more may end a 32-character name.
   */
  function IsValidSsid(ssid: string): (r: CheckResponse)
    ensures r.passed <==>
              1 <= |ssid| <= 33 && (|ssid| == 33 ==> ssid[32] == '\n')
              && ssid[0] !in "!#;+]/\"\t" && forall i :: 1 <= i < |ssid| ==> ssid[i] !in "+]/\"\t"
  {
    if !FullMatch(ssid, SsidPattern) then Failed("Must be 32 chars max without: !#;+]/") else Passed
  }

  /** RE_PASSPHRASE between its anchors: 8 to 63 printable ASCII characters. */
  predicate PassphrasePattern(s: string)
  {
    8 <= |s| <= 63 && forall i :: 0 <= i < |s| ==> ' ' <= s[i] <= '~'
  }

  /** `is_valid_wpa2_passphrase(passphrase)`: 8 to 63 printable ASCII characters, and an optional final newline. */
  function IsValidWpa2Passphrase(passphrase: string): (r: CheckResponse)
    ensures r.passed <==>
              var p := Unended(passphrase);
              8 <= |p| <= 63 && forall i :: 0 <= i < |p| ==> ' ' <= p[i] <= '~'
  {
    FullMatchUnended(passphrase, PassphrasePattern);
    if !FullMatch(passphrase, PassphrasePattern) then Failed("Must be 8-63 long latin chars and symbols") else Passed
  }

  /** `is_valid_wifi_channel(channel)`: 1 to 14, with a warning for the channels not allowed everywhere. */
  function IsValidWifiChannel(channel: int): (r: CheckResponse)
    ensures r.passed <==> 1 <= channel <= 14
    ensures r.passed ==> (r.helpText != "" <==> 12 <= channel)
  {
    if channel < 1 || channel > 14 then Failed("Must be 1-14 (1-11 for most places)")
    else CheckResponse(true, if channel > 11 then "Channels 12-14 are not allowed everywhere" else "")
  }

  /** RE_IFACE_NAME between its anchors: a lower-case letter, lower-case letters and digits, a final digit. */
  predicate InterfacePattern(s: string)
  {
    |s| >= 3 && IsLowerChar(s[0]) && IsDigitChar(s[|s| - 1])
    && forall i :: 1 <= i < |s| ==> IsLowerChar(s[i]) || IsDigitChar(s[i])
  }

  /** `is_valid_interface_name(name)`: as `eth0` or `wlan0`, and an optional final newline. */
  function IsValidInterfaceName(name: string): (r: CheckResponse)
    ensures r.passed <==>
              var n := Unended(name);
              |n| >= 3 && IsLowerChar(n[0]) && IsDigitChar(n[|n| - 1])
              && forall i :: 1 <= i < |n| ==> IsLowerChar(n[i]) || IsDigitChar(n[i])
  {
    FullMatchUnended(name, InterfacePattern);
    if !FullMatch(name, InterfacePattern) then Failed("Invalid interface name format “" + name + "”") else Passed
  }

  /**
   * `is_valid_wifi_country_code(code)`: "00" or an ISO 3166 alpha-2 code;
   * `countries` stands for the codes the `iso3166` package lists.
   */
  function IsValidWifiCountryCode(code: string, countries: set<string>): (r: CheckResponse)
    ensures r.passed <==> code == "00" || code in countries
  {
    if code == "00" then Passed
    else if code !in countries then Failed("Country code `" + code + "` not found")
    else Passed
  }

  /** RE_TIMEZONE between its anchors: 1 to 80 letters, digits, '-', '_' or '/'. */
  predicate TimezonePattern(s: string)
  {
    1 <= |s| <= 80 && forall i :: 0 <= i < |s| ==> IsAlnumChar(s[i]) || s[i] in "-_/"
  }

  /** `is_valid_timezone(name)`; `zones` stands for `zoneinfo.available_timezones()`. */
  function IsValidTimezone(name: string, zones: set<string>): (r: CheckResponse)
    ensures r.passed <==>
              name in zones
              && var z := Unended(name);
                 1 <= |z| <= 80 && forall i :: 0 <= i < |z| ==> IsAlnumChar(z[i]) || z[i] in "-_/"
  {
    FullMatchUnended(name, TimezonePattern);
    if !FullMatch(name, TimezonePattern) then Failed("Invalid zone format “" + name + "”")
    else if name !in zones then Failed("Zone “" + name + "” not found")
    else Passed
  }

  // ---------------------------------------------------------------- IPv4

  /** `^[0-9\.]+$` between its anchors. */
  predicate DigitsAndDots(s: string)
  {
    |s| >= 1 && forall i :: 0 <= i < |s| ==> IsDigitChar(s[i]) || s[i] == '.'
  }

  /** A host address of its /24 outside the link-local, loopback, multicast, reserved and unspecified ranges. */
  predicate UsableHost(a: Addr)
  {
    a % 256 != 0 && a % 256 != 255
    && !(IsLinkLocal(a) || IsLoopback(a) || IsMulticast(a) || IsReserved(a) || IsUnspecified(a))
  }

  /** `is_valid_ipv4(ip, usable=usable)`. */
  function IsValidIPv4(ip: string, usable: bool): CheckResponse
  {
    if !FullMatch(ip, DigitsAndDots) then Failed("Incorrect format")
    else
      match ParseAddress(ip)
      case None => Failed("Not a valid IPv4: `" + ip + "`")
      case Some(a) =>
        if !usable then Passed
        else if a % 256 == 0 then Failed("Network address not accepted")
        else if a % 256 == 255 then Failed("Broadcast address not accepted")
        else if IsLinkLocal(a) || IsLoopback(a) || IsMulticast(a) || IsReserved(a) || IsUnspecified(a)
        then Failed("Unauthorized network")
        else Passed
  }

  lemma {:induction false} JoinedDigits(parts: seq<string>)
    requires |parts| >= 1 && forall k :: 0 <= k < |parts| ==> IsDigits(parts[k])
    ensures DigitsAndDots(Join(parts, "."))
    decreases |parts|
  {
    if |parts| > 1 {
      JoinedDigits(parts[1..]);
      var s := Join(parts, ".");
      assert s == parts[0] + "." + Join(parts[1..], ".");
      forall i | 0 <= i < |s|
        ensures IsDigitChar(s[i]) || s[i] == '.'
      {
        if i < |parts[0]| {
          assert s[i] == parts[0][i];
        } else if i > |parts[0]| {
          assert s[i] == Join(parts[1..], ".")[i - |parts[0]| - 1];
        }
      }
    }
  }

  /** An address the parser accepts is written with digits and dots only. */
  lemma ParsedIsDigitsAndDots(ip: string)
    requires ParseAddress(ip).Some?
    ensures DigitsAndDots(ip)
  {
    var parts := Split(ip, '.');
    SplitJoin(ip, '.');
    assert ParseOctet(parts[0]).Some? && ParseOctet(parts[1]).Some?;
    assert ParseOctet(parts[2]).Some? && ParseOctet(parts[3]).Some?;
    JoinedDigits(parts);
  }

  /** An address passes exactly when it parses and, when `usable`, is a usable host. */
  lemma IPv4Meaning(ip: string, usable: bool)
    ensures IsValidIPv4(ip, usable).passed <==>
              ParseAddress(ip).Some? && (usable ==> UsableHost(ParseAddress(ip).value))
  {
    if ParseAddress(ip).Some? {
      ParsedIsDigitsAndDots(ip);
    }
  }

  /** The dotted quad of every usable host passes. */
  lemma UsableHostPasses(a: Addr)
    requires UsableHost(a)
    ensures IsValidIPv4(Format(a), true).passed
  {
    FormatParses(a);
    IPv4Meaning(Format(a), true);
  }

  function UsableCheck(ip: string): CheckResponse
  {
    IsValidIPv4(ip, true)
  }

  /** The index of the first item `check` refuses, if any: the early return of a `for` loop of checks. */
  function FirstFailure(items: seq<string>, check: string -> CheckResponse): (r: Option<nat>)
    ensures r.None? <==> forall k :: 0 <= k < |items| ==> check(items[k]).passed
    ensures r.Some? ==> r.value < |items| && !check(items[r.value]).passed
                        && forall k :: 0 <= k < r.value ==> check(items[k]).passed
    decreases |items|
  {
    if |items| == 0 then None
    else if !check(items[0]).passed then Some(0)
    else
      match FirstFailure(items[1..], check)
      case None => None
      case Some(k) => Some(k + 1)
  }

  // ---------------------------------------------------------------- ethernet

  /** `is_valid_ethernet_config(network_type, address, routers, dns)`. */
  function IsValidEthernetConfig(networkType: string, address: string, routers: seq<string>, dns: seq<string>)
    : CheckResponse
  {
    if networkType != "dhcp" && networkType != "static" then Failed("Incorrect network type: " + networkType)
    else if networkType == "dhcp" then Passed
    else if address == "" then Failed("Missing IP address")
    else if !IsValidIPv4(address, true).passed then Failed("IP address is not correct")
    else if routers == [] then Failed("`routers` must be a non-empty list")
    else
      match FirstFailure(routers, UsableCheck)
      case Some(k) => Failed("Invalid router address: " + routers[k])
      case None =>
        if dns == [] then Failed("`dns` must be a list")
        else
          match FirstFailure(dns, UsableCheck)
          case Some(k) => Failed("Invalid DNS server address: " + dns[k])
          case None => Passed
  }

  /**
   * "dhcp" always passes; "static" passes exactly with a usable address and
   * non-empty lists of usable routers and DNS servers; nothing else passes.
   */
  lemma EthernetMeaning(networkType: string, address: string, routers: seq<string>, dns: seq<string>)
    ensures IsValidEthernetConfig(networkType, address, routers, dns).passed <==>
              networkType == "dhcp"
              || (networkType == "static" && IsValidIPv4(address, true).passed
                  && |routers| > 0 && (forall k :: 0 <= k < |routers| ==> IsValidIPv4(routers[k], true).passed)
                  && |dns| > 0 && (forall k :: 0 <= k < |dns| ==> IsValidIPv4(dns[k], true).passed))
  {
    var _ := FirstFailure(routers, UsableCheck);
    var _ := FirstFailure(dns, UsableCheck);
  }

  // ------------------------------------------------------------- DHCP ranges

  /** The ValueError `list.index` raises for an address that is not a host of the network. */
  function NotInList(x: Addr): Error
  {
    ValueError("IPv4Address('" + Format(x) + "') is not in list")
  }

  /** A lease time dnsmasq accepts: "infinite", or digits and one of s, m, h, d, w. */
  predicate ValidLeaseTime(ttl: string)
  {
    ttl == "infinite" || (|ttl| >= 2 && ttl[|ttl| - 1] in "smhdw" && IsDigits(ttl[..|ttl| - 1]))
  }

  /** The lease-time part of a DHCP range, with the message it passes with. */
  function LeaseTime(ttl: string, message: string): (r: CheckResponse)
    ensures r.passed <==> ValidLeaseTime(ttl)
    ensures r.passed ==> r.helpText == message
  {
    if |ttl| < 2 then Failed("Missing DHCP lease-time")
    else if ttl == "infinite" then CheckResponse(true, message)
    else if ttl[|ttl| - 1] !in "smhdw" then Failed("Inccorect DHCP lease-time suffix `" + [ttl[|ttl| - 1]] + "`")
    else if !IsDigits(ttl[..|ttl| - 1]) then Failed("Incorrect DHCP lease-time value " + ttl)
    else CheckResponse(true, message)
  }

  /** A number followed by a unit is a lease time that passes. */
  lemma LeaseTextPasses(n: nat, unit: char, message: string)
    requires unit in "smhdw"
    ensures LeaseTime(NatToString(n) + [unit], message) == CheckResponse(true, message)
  {
    NatToStringRoundTrip(n);
    var ttl := NatToString(n) + [unit];
    assert ttl[..|ttl| - 1] == NatToString(n);
  }

  /**
   * The checks of `is_valid_dhcp_range` once the four addresses are parsed:
   * distinct start, end and host, a netmask or hostmask, end and host in
   * start's network, start not after end, then the lease time. `list.index`
   * raises when start or end is not a host of that network (the network or
   * broadcast address of a network narrower than /24).
   */
  function DhcpRangeOf(start: Addr, end: Addr, mask: Addr, host: Addr, ttl: string): (r: Result<CheckResponse>)
    ensures r.Ok? && r.value.passed ==>
              start < end && host != start && host != end && MaskPrefix(mask).Some?
              && var p := MaskPrefix(mask).value;
                 InNetwork(end, NetworkOf(start, p), p) && InNetwork(host, NetworkOf(start, p), p)
    ensures r.Ok? && r.value.passed ==>
              var available := end - start - (if start <= host < end then 1 else 0);
              available >= 0 && r.value.helpText == NatToString(available) + " available addresses"
    ensures r.Ok? && r.value.passed ==>
              var p := MaskPrefix(mask).value;
              Hosts(NetworkOf(start, p), p).0 <= start && end <= Hosts(NetworkOf(start, p), p).1
              && ValidLeaseTime(ttl)
    ensures r.Err? ==> r.error.ValueError?
    ensures start < end && host != start && host != end && MaskPrefix(mask).Some?
            && (var p := MaskPrefix(mask).value;
                var net := NetworkOf(start, p);
                InNetwork(end, net, p) && InNetwork(host, net, p)
                && Hosts(net, p).0 <= start && end <= Hosts(net, p).1)
            && ValidLeaseTime(ttl)
            ==> r.Ok? && r.value.passed
  {
    if start == end then Ok(Failed("Start and end of range are identical"))
    else if start == host then Ok(Failed("Range start cannot be same as host"))
    else if end == host then Ok(Failed("Range end cannot be same as host"))
    else
      match MaskPrefix(mask)
      case None => Ok(Failed("Range netmask is not a valid netmask"))
      case Some(p) =>
        var net := NetworkOf(start, p);
        if !InNetwork(end, net, p) then Ok(Failed("Range end is incorrect for netmask"))
        else if !InNetwork(host, net, p) then Ok(Failed("Range network is different from host network"))
        else
          var (first, last) := Hosts(net, p);
          if !(first <= start <= last) then Err(NotInList(start))
          else if !(first <= end <= last) then Err(NotInList(end))
          else if start > end then Ok(Failed("Range start is after end"))
          else
            var available := end - start - (if start <= host < end then 1 else 0);
            Ok(LeaseTime(ttl, NatToString(available) + " available addresses"))
  }

  /** `is_valid_dhcp_range(range_str, with_address)`: "start,end,netmask,ttl" for the host `with_address`. */
  function IsValidDhcpRange(rangeStr: string, withAddress: string): (r: Result<CheckResponse>)
    ensures r.Ok? && r.value.passed ==>
              |Split(rangeStr, ',') | == 4
              && RangeFieldsUsable(Split(rangeStr, ','), withAddress)
              && r == DhcpRangeOf(ParseAddress(Split(rangeStr, ',')[0]).value, ParseAddress(Split(rangeStr, ',')[1]).value,
                                  ParseAddress(Split(rangeStr, ',')[2]).value, ParseAddress(withAddress).value,
                                  Split(rangeStr, ',')[3])
    ensures |Split(rangeStr, ',')| == 4 && RangeFieldsUsable(Split(rangeStr, ','), withAddress) ==>
              r == DhcpRangeOf(ParseAddress(Split(rangeStr, ',')[0]).value, ParseAddress(Split(rangeStr, ',')[1]).value,
                               ParseAddress(Split(rangeStr, ',')[2]).value, ParseAddress(withAddress).value,
                               Split(rangeStr, ',')[3])
  {
    SplitCount(rangeStr, ',');
    if CountChar(rangeStr, ',') != 3 then Ok(Failed("Incorrect range-string format"))
    else
      var parts := Split(rangeStr, ',');
      var startText, endText, maskText, ttl := parts[0], parts[1], parts[2], parts[3];
      IPv4Meaning(startText, true);
      IPv4Meaning(endText, true);
      IPv4Meaning(maskText, false);
      IPv4Meaning(withAddress, true);
      if !IsValidIPv4(startText, true).passed then Ok(Failed("Range start is not a valid IPv4: `" + startText + "`"))
      else if !IsValidIPv4(endText, true).passed then Ok(Failed("Range end is not a valid IPv4"))
      else if !IsValidIPv4(maskText, false).passed then Ok(Failed("Range netmask is not a valid IPv4"))
      else if !IsValidIPv4(withAddress, true).passed then Ok(Failed("Range host address is not valid IPv4"))
      else
        DhcpRangeOf(ParseAddress(startText).value, ParseAddress(endText).value,
                    ParseAddress(maskText).value, ParseAddress(withAddress).value, ttl)
  }

  /**
   * The address fields of a split range, as `is_valid_dhcp_range` tests them:
   * start, end and the host are usable hosts, and the netmask parses.
   */
  predicate RangeFieldsUsable(parts: seq<string>, withAddress: string)
    requires |parts| == 4
  {
    ParseAddress(parts[0]).Some? && UsableHost(ParseAddress(parts[0]).value)
    && ParseAddress(parts[1]).Some? && UsableHost(ParseAddress(parts[1]).value)
    && ParseAddress(parts[2]).Some?
    && ParseAddress(withAddress).Some? && UsableHost(ParseAddress(withAddress).value)
  }

  // ---------------------------------------------------------------- networks

  /** A network whose network and broadcast addresses both lie in one of the special ranges. */
  predicate SpecialNetwork(net: Addr, p: nat)
    requires p <= 32
  {
    var b := Broadcast(net, p);
    (IsLinkLocal(net) && IsLinkLocal(b)) || (IsLoopback(net) && IsLoopback(b))
    || (IsMulticast(net) && IsMulticast(b)) || (IsReserved(net) && IsReserved(b))
    || (IsUnspecified(net) && IsUnspecified(b))
  }

  /** `is_valid_network(network, with_address=…, allow_any=…)`. */
  function IsValidNetwork(network: string, withAddress: string, allowAny: bool): (r: CheckResponse)
    ensures r.passed <==> ParseNetwork(network).Some? && ParseNetwork(network).value.1 < 32
                          && ParseAddress(withAddress).Some? && UsableHost(ParseAddress(withAddress).value)
                          && var (net, p) := ParseNetwork(network).value;
                             InNetwork(ParseAddress(withAddress).value, net, p)
                             && (!allowAny ==> !SpecialNetwork(net, p))
  {
    IPv4Meaning(withAddress, true);
    match ParseNetwork(network)
    case None => Failed("Invalid network `" + network)
    case Some((net, p)) =>
      if p == 32 then Failed("Not enough hosts in network `" + network + "`")
      else if !allowAny && SpecialNetwork(net, p) then Failed("Unauthorized network")
      else if !IsValidIPv4(withAddress, true).passed then Failed("with_address is not a valid IPv4")
      else if !InNetwork(ParseAddress(withAddress).value, net, p) then Failed("Network is not compatible with address")
      else Passed
  }

  // ------------------------------------------------------------ access point

  /** The `spoof` setting: a boolean, or a text of which only "auto" is accepted. */
  datatype Spoof = SpoofFlag(flag: bool) | SpoofText(text: string)

  /** The arguments of `is_valid_ap_config` (`hide` and `as_gateway` are typed booleans here). */
  datatype ApSettings = ApSettings(
    ssid: string,
    passphrase: string,
    address: string,
    spoof: Spoof,
    tld: string,
    domain: string,
    welcome: string,
    channel: int,
    country: string,
    interface: string,
    dhcpRange: string,
    network: string,
    dns: seq<string>,
    otherInterfaces: seq<string>,
    exceptInterfaces: seq<string>,
    nodhcpInterfaces: seq<string>)

  /** The checks of the interface lists, each reporting the index of its first bad name. */
  function InterfaceLists(c: ApSettings): (r: CheckResponse)
    ensures r.passed <==> (forall k :: 0 <= k < |c.otherInterfaces| ==> IsValidInterfaceName(c.otherInterfaces[k]).passed)
                          && (forall k :: 0 <= k < |c.exceptInterfaces| ==> IsValidInterfaceName(c.exceptInterfaces[k]).passed)
                          && (forall k :: 0 <= k < |c.nodhcpInterfaces| ==> IsValidInterfaceName(c.nodhcpInterfaces[k]).passed)
  {
    match FirstFailure(c.otherInterfaces, IsValidInterfaceName)
    case Some(k) =>
      Failed("Other-interfaces #" + NatToString(k) + ": " + IsValidInterfaceName(c.otherInterfaces[k]).helpText)
    case None =>
      match FirstFailure(c.exceptInterfaces, IsValidInterfaceName)
      case Some(k) =>
        Failed("Except-interfaces #" + NatToString(k) + ": " + IsValidInterfaceName(c.exceptInterfaces[k]).helpText)
      case None =>
        match FirstFailure(c.nodhcpInterfaces, IsValidInterfaceName)
        case Some(k) =>
          Failed("NoDHCPD-interfaces #" + NatToString(k) + ": " + IsValidInterfaceName(c.nodhcpInterfaces[k]).helpText)
        case None => Passed
  }

  /** The checks after the DHCP range: network, DNS servers, interface lists. */
  function ApNetworkChecks(c: ApSettings): (r: CheckResponse)
    ensures r.passed <==> IsValidNetwork(c.network, c.address, false).passed
                          && (forall k :: 0 <= k < |c.dns| ==> IsValidIPv4(c.dns[k], true).passed)
                          && InterfaceLists(c).passed
  {
    var network := IsValidNetwork(c.network, c.address, false);
    if !network.passed then Failed("Network: " + network.helpText)
    else
      match FirstFailure(c.dns, UsableCheck)
      case Some(k) => Failed("DNS #" + NatToString(k) + ": " + UsableCheck(c.dns[k]).helpText)
      case None => InterfaceLists(c)
  }

  /** The checks before the DHCP range, in the source's order; None when they all pass. */
  function ApSettingsFailure(c: ApSettings, countries: set<string>): (r: Option<CheckResponse>)
    ensures r.Some? ==> !r.value.passed
    ensures r.None? <==>
              IsValidSsid(c.ssid).passed
              && (c.passphrase != "" ==> IsValidWpa2Passphrase(c.passphrase).passed)
              && IsValidIPv4(c.address, true).passed
              && (c.spoof.SpoofText? ==> c.spoof.text == "auto")
              && IsValidTld(c.tld).passed && IsValidDomain(c.domain).passed
              && (c.welcome != "" ==> IsValidDomain(c.welcome).passed)
              && IsValidWifiChannel(c.channel).passed
              && IsValidWifiCountryCode(c.country, countries).passed
              && IsValidInterfaceName(c.interface).passed
  {
    var ssid := IsValidSsid(c.ssid);
    var passphrase := IsValidWpa2Passphrase(c.passphrase);
    var tld := IsValidTld(c.tld);
    var domain := IsValidDomain(c.domain);
    var channel := IsValidWifiChannel(c.channel);
    var country := IsValidWifiCountryCode(c.country, countries);
    var iface := IsValidInterfaceName(c.interface);
    if !ssid.passed then Some(Failed("SSID: " + ssid.helpText))
    else if c.passphrase != "" && !passphrase.passed then Some(Failed("Passphrase: " + passphrase.helpText))
    else if !IsValidIPv4(c.address, true).passed then Some(Failed("Invalid IPv4 address"))
    else if c.spoof.SpoofText? && c.spoof.text != "auto" then Some(Failed("Invalid spoof value `" + c.spoof.text + "`"))
    else if !tld.passed then Some(Failed("TLD: " + tld.helpText))
    else if !domain.passed then Some(Failed("Domain: " + domain.helpText))
    // the source reports the help text of the domain check, which passed: it is empty
    else if c.welcome != "" && !IsValidDomain(c.welcome).passed then Some(Failed("Welcome Domain: " + domain.helpText))
    else if !channel.passed then Some(Failed("Channel: " + channel.helpText))
    else if !country.passed then Some(Failed("Country: " + country.helpText))
    else if !iface.passed then Some(Failed("Interface: " + iface.helpText))
    else None
  }

  /** `is_valid_ap_config(...)`: the first failing check, prefixed with what it is about. */
  function IsValidApConfig(c: ApSettings, countries: set<string>): (r: Result<CheckResponse>)
    ensures r.Ok? && r.value.passed <==>
              ApSettingsFailure(c, countries).None?
              && IsValidDhcpRange(c.dhcpRange, c.address).Ok? && IsValidDhcpRange(c.dhcpRange, c.address).value.passed
              && ApNetworkChecks(c).passed
  {
    match ApSettingsFailure(c, countries)
    case Some(failure) => Ok(failure)
    case None =>
      match IsValidDhcpRange(c.dhcpRange, c.address)
      case Err(e) => Err(e)
      case Ok(range) =>
        if !range.passed then Ok(Failed("DHCP-range: " + range.helpText))
        else Ok(ApNetworkChecks(c))
  }
}
