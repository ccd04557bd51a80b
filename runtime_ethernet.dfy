// The `offspot_runtime` ethernet command: once `is_valid_ethernet_config`
// accepts the settings, it repairs the armor of the dhcpcd configuration and
// writes the settings between the armor lines. The file's text is a
// parameter and the new text a result; the dhcpcd restart and the wait that
// follows it are not part of this model.

module RuntimeEthernet {
  import opened Wrappers
  import opened Strings
  import opened Lines
  import opened Checks
  import opened Dhcpcd
  import opened DhcpcdProperties

  /** The dhcpcd directives `main` places between the armor lines. */
  function NetworkConf(networkType: string, address: string, routers: seq<string>, dns: seq<string>): string
  {
    if networkType == "static" then
      "static ip_address=" + address + "/24\n"
      + "static routers=" + Join(routers, " ") + "\n"
      + "static domain_name_servers=" + Join(dns, " ") + "\n"
    else "dhcp"
  }

  /** The three `static` directive lines, as dhcpcd reads them. */
  function StaticLines(address: string, routers: seq<string>, dns: seq<string>): seq<string>
  {
    ["static ip_address=" + address + "/24",
     "static routers=" + Join(routers, " "),
     "static domain_name_servers=" + Join(dns, " ")]
  }

  predicate NoNewline(items: seq<string>)
  {
    forall k :: 0 <= k < |items| ==> '\n' !in items[k]
  }

  /** A character found neither in the parts nor in the separator is not in their join. */
  lemma {:induction false} JoinLeavesOut(parts: seq<string>, sep: string, c: char)
    requires c !in sep && forall k :: 0 <= k < |parts| ==> c !in parts[k]
    ensures c !in Join(parts, sep)
    decreases |parts|
  {
    if |parts| > 1 {
      JoinLeavesOut(parts[1..], sep, c);
      assert Join(parts, sep) == parts[0] + sep + Join(parts[1..], sep);
    }
  }

  /** Three lines without newlines, each followed by one, split back into the three. */
  lemma ThreeLines(a: string, b: string, c: string)
    requires '\n' !in a && '\n' !in b && '\n' !in c
    ensures SplitLines(a + "\n" + (b + "\n" + (c + "\n"))) == [a, b, c]
  {
    var ls := [a, b, c] + [""];
    assert ls[1..][1..][1..] == [""];
    assert Join(ls[1..][1..], "\n") == c + "\n";
    assert Join(ls[1..], "\n") == b + "\n" + (c + "\n");
    assert Join(ls, "\n") == a + "\n" + (b + "\n" + (c + "\n"));
    JoinedLinesNewline([a, b, c]);
  }

  /** The static directives are the three lines of `StaticLines`, each ended by a newline. */
  lemma StaticText(address: string, routers: seq<string>, dns: seq<string>)
    ensures var ls := StaticLines(address, routers, dns);
            NetworkConf("static", address, routers, dns) == ls[0] + "\n" + (ls[1] + "\n" + (ls[2] + "\n"))
  {
    assert "/24\n" == "/24" + "\n";
  }

  /** Without newlines in the settings, the directives are the three `static` lines or the one `dhcp` line. */
  lemma NetworkConfLines(networkType: string, address: string, routers: seq<string>, dns: seq<string>)
    requires networkType == "static" ==> '\n' !in address && NoNewline(routers) && NoNewline(dns)
    ensures SplitLines(NetworkConf(networkType, address, routers, dns))
            == if networkType == "static" then StaticLines(address, routers, dns) else ["dhcp"]
  {
    if networkType == "static" {
      JoinLeavesOut(routers, " ", '\n');
      JoinLeavesOut(dns, " ", '\n');
      var ls := StaticLines(address, routers, dns);
      StaticText(address, routers, dns);
      ThreeLines(ls[0], ls[1], ls[2]);
    } else {
      JoinedLines(["dhcp"]);
    }
  }

  /** No directive line is an armor line: each starts with `s` or is `dhcp`. */
  lemma NetworkConfNoArmor(networkType: string, address: string, routers: seq<string>, dns: seq<string>)
    requires networkType == "static" ==> '\n' !in address && NoNewline(routers) && NoNewline(dns)
    ensures var ls := SplitLines(NetworkConf(networkType, address, routers, dns));
            ArmorStart !in ls && ArmorEnd !in ls
  {
    NetworkConfLines(networkType, address, routers, dns);
    assert ArmorStart[0] == '#' && ArmorEnd[0] == '#';
  }

  /** An address `is_valid_ipv4` accepts is digits and dots, so it holds no newline. */
  lemma PassedNoNewline(ip: string)
    requires IsValidIPv4(ip, true).passed
    ensures '\n' !in ip
  {
    IPv4Meaning(ip, true);
    ParsedIsDigitsAndDots(ip);
  }

  /** Settings that pass the check hold no newline. */
  lemma PassedSettingsSingle(networkType: string, address: string, routers: seq<string>, dns: seq<string>)
    requires networkType == "static" && IsValidEthernetConfig(networkType, address, routers, dns).passed
    ensures '\n' !in address && NoNewline(routers) && NoNewline(dns)
  {
    EthernetMeaning(networkType, address, routers, dns);
    PassedNoNewline(address);
    forall k | 0 <= k < |routers| ensures '\n' !in routers[k] {
      PassedNoNewline(routers[k]);
    }
    forall k | 0 <= k < |dns| ensures '\n' !in dns[k] {
      PassedNoNewline(dns[k]);
    }
  }

  /**
   * How `main` ends: `fail_invalid` with the check's help text, `fail_error`
   * on the ValueError of a missing armor line, or the file's new text.
   */
  function Outcome(networkType: string, address: string, routers: seq<string>, dns: seq<string>, conf: string)
    : Run<string>
  {
    var check := IsValidEthernetConfig(networkType, address, routers, dns);
    if !check.passed then Invalid(check.helpText)
    else
      match Spliced(AfterArmor(conf), NetworkConf(networkType, address, routers, dns))
      case Ok(text) => Done(text)
      case Err(e) => Raised(e)
  }

  /** `main` on the dhcpcd file's text `conf`. */
  method Configure(networkType: string, address: string, routers: seq<string>, dns: seq<string>, conf: string)
    returns (r: Run<string>)
    ensures r == Outcome(networkType, address, routers, dns, conf)
  {
    var check := IsValidEthernetConfig(networkType, address, routers, dns);
    if !check.passed {
      return Invalid(check.helpText);
    }
    var networkConf := "dhcp";
    if networkType == "static" {
      networkConf := "static ip_address=" + address + "/24\n"
        + "static routers=" + Join(routers, " ") + "\n"
        + "static domain_name_servers=" + Join(dns, " ") + "\n";
    }
    var fixed, written := EnsureArmor(conf);
    var current := conf;
    if fixed {
      current := written.value;
    }
    var w := WriteConf(current, networkConf);
    match w {
      case Ok(text) => r := Done(text);
      case Err(e) => r := Raised(e);
    }
  }

  /**
   * `main` writes the file exactly when the settings pass the check, never
   * raises, and the written file reads back as the repaired file with the
   * directive lines between its first armor lines.
   */
  lemma OutcomeMeaning(networkType: string, address: string, routers: seq<string>, dns: seq<string>, conf: string)
    ensures var check := IsValidEthernetConfig(networkType, address, routers, dns);
            var out := Outcome(networkType, address, routers, dns, conf);
            (out.Done? <==> check.passed) && (out.Invalid? <==> !check.passed)
            && (out.Done? ==>
                  SplitLines(out.value)
                  == ReadBack(SplitLines(AfterArmor(conf)), NetworkConf(networkType, address, routers, dns)))
  {
    if IsValidEthernetConfig(networkType, address, routers, dns).passed {
      ArmorThenSpliceOk(conf, NetworkConf(networkType, address, routers, dns));
      SplicedReadBack(AfterArmor(conf), NetworkConf(networkType, address, routers, dns));
    }
  }

  /**
   * For accepted static settings, the lines between the armor are exactly the
   * three directives: the address with its /24 prefix, the routers and the
   * DNS servers, each list joined by spaces.
   */
  lemma StaticApplied(address: string, routers: seq<string>, dns: seq<string>, conf: string)
    requires IsValidEthernetConfig("static", address, routers, dns).passed
    ensures var out := Outcome("static", address, routers, dns, conf);
            var lines := SplitLines(AfterArmor(conf));
            ArmorStart in lines && ArmorEnd in lines
            && out.Done?
            && SplitLines(out.value)
               == lines[..IndexIn(lines, ArmorStart)] + [ArmorStart] + StaticLines(address, routers, dns)
                  + [ArmorEnd] + After(lines, IndexIn(lines, ArmorEnd))
  {
    OutcomeMeaning("static", address, routers, dns, conf);
    ArmorThenSpliceOk(conf, NetworkConf("static", address, routers, dns));
    PassedSettingsSingle("static", address, routers, dns);
    NetworkConfLines("static", address, routers, dns);
  }

  /**
   * Applying accepted settings to a file whose armor is in order (the start
   * line before the stop line, an interface line) and whose last line is not
   * empty, then applying them again to the written file, writes the same text.
   */
  lemma ReapplyStable(networkType: string, address: string, routers: seq<string>, dns: seq<string>, conf: string)
    requires IsValidEthernetConfig(networkType, address, routers, dns).passed
    requires Armored(SplitLines(conf))
    requires SplitLines(conf)[|SplitLines(conf)| - 1] != ""
    ensures var out := Outcome(networkType, address, routers, dns, conf);
            out.Done? && Spliced(out.value, NetworkConf(networkType, address, routers, dns)) == Ok(out.value)
  {
    var nc := NetworkConf(networkType, address, routers, dns);
    if networkType == "static" {
      PassedSettingsSingle(networkType, address, routers, dns);
    }
    NetworkConfNoArmor(networkType, address, routers, dns);
    SplicedIdempotent(conf, nc);
    AppliedAs(networkType, address, routers, dns, conf, conf, nc);
  }

  /** With the armor step computed, the outcome of accepted settings is the splice of the directives. */
  lemma AppliedAs(networkType: string, address: string, routers: seq<string>, dns: seq<string>, conf: string,
                  armored: string, nc: string)
    requires IsValidEthernetConfig(networkType, address, routers, dns).passed
    requires armored == AfterArmor(conf) && nc == NetworkConf(networkType, address, routers, dns)
    requires Spliced(armored, nc).Ok?
    ensures Outcome(networkType, address, routers, dns, conf) == Done(Spliced(armored, nc).value)
  {
  }
}
