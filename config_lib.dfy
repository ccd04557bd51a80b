/**
 * The shared helpers of the older configuration scripts: the IPv4 check
 * `is_valid_ip` over the RE_IP pattern, terminal colouring, the sub-command
 * path and the script-name normalisation of `Config.init`.
 */
module ConfigLib {
  import opened Wrappers
  import opened Strings
  import opened Lines
  import opened IPv4
  import opened Checks

  // ------------------------------------------------------------------ RE_IP

  /** One `(?:25[0-5]|2[0-4][0-9]|[01]?[0-9][0-9]?)` group of RE_IP, alternative by alternative. */
  predicate OctetPattern(s: string)
  {
    (|s| == 3 && s[0] == '2' && s[1] == '5' && '0' <= s[2] <= '5')
    || (|s| == 3 && s[0] == '2' && '0' <= s[1] <= '4' && IsDigitChar(s[2]))
    || (|s| == 3 && (s[0] == '0' || s[0] == '1') && IsDigitChar(s[1]) && IsDigitChar(s[2]))
    || (|s| == 2 && IsDigitChar(s[0]) && IsDigitChar(s[1]))
    || (|s| == 1 && IsDigitChar(s[0]))
  }

  /** RE_IP between its anchors: four octet groups joined by '.'. */
  predicate IpPattern(s: string)
  {
    var parts := Split(s, '.');
    |parts| == 4 && OctetPattern(parts[0]) && OctetPattern(parts[1])
    && OctetPattern(parts[2]) && OctetPattern(parts[3])
  }

  /** The octet alternatives accept exactly the one- to three-digit texts of 0 to 255, leading zeros included. */
  lemma OctetPatternValue(s: string)
    ensures OctetPattern(s) <==> IsDigits(s) && |s| <= 3 && ParseDigits(s) <= 255
  {
    if IsDigits(s) && |s| == 3 {
      ThreeDigits(s);
    } else if IsDigits(s) && |s| == 2 {
      assert s[..1][..0] == "";
      assert ParseDigits(s[..1]) == DigitValue(s[0]);
      assert ParseDigits(s) == 10 * DigitValue(s[0]) + DigitValue(s[1]);
    }
  }

  lemma ThreeDigits(s: string)
    requires IsDigits(s) && |s| == 3
    ensures ParseDigits(s) == 100 * DigitValue(s[0]) + 10 * DigitValue(s[1]) + DigitValue(s[2])
  {
    var two := s[..2];
    var one := s[..1];
    assert two[..1] == one && one[..0] == "";
    assert ParseDigits(one) == DigitValue(s[0]);
    assert ParseDigits(two) == 10 * DigitValue(s[0]) + DigitValue(s[1]);
  }

  /** The text RE_IP matched: `$` also lets one final newline follow it. */
  function MatchedText(address: string): (r: string)
    requires FullMatch(address, IpPattern)
    ensures IpPattern(r)
    ensures r == address || address == r + "\n"
  {
    if IpPattern(address) then address else address[..|address| - 1]
  }

  /** The octet rule of the loop in `is_valid_ip`: numeric, at most 254, and not 0 in the first or last place. */
  predicate GroupValid(index: nat, sub: string)
  {
    IsDigits(sub) && ParseDigits(sub) <= 254 && !((index == 0 || index == 3) && ParseDigits(sub) == 0)
  }

  predicate GroupsValid(groups: seq<string>)
  {
    forall k :: 0 <= k < |groups| ==> GroupValid(k, groups[k])
  }

  /** The loop over `match.groups()`: false at the first group that breaks the octet rule. */
  method CheckGroups(groups: seq<string>) returns (ok: bool)
    ensures ok <==> GroupsValid(groups)
  {
    var index := 0;
    while index < |groups|
      invariant 0 <= index <= |groups|
      invariant forall k :: 0 <= k < index ==> GroupValid(k, groups[k])
    {
      var sub := groups[index];
      if !IsDigits(sub) {
        return false;
      }
      var dsub := ParseDigits(sub);
      if dsub < 0 || dsub > 254 {
        return false;
      }
      if (index == 0 || index == 3) && dsub == 0 {
        return false;
      }
      index := index + 1;
    }
    return true;
  }

  /**
   * `is_valid_ip(address)` as written: every group of RE_IP is non-capturing,
   * so `match.groups()` is empty and the octet loop runs on nothing.
   */
  method IsValidIpAsWritten(address: string) returns (ok: bool)
    ensures ok <==> FullMatch(address, IpPattern)
  {
    if !FullMatch(address, IpPattern) {
      return false;
    }
    var groups: seq<string> := [];
    ok := CheckGroups(groups);
  }

  /** What `is_valid_ip` evidently intends: RE_IP matches and its four octets pass the loop. */
  predicate ValidIp(address: string)
  {
    FullMatch(address, IpPattern) && GroupsValid(Split(MatchedText(address), '.'))
  }

  /** `is_valid_ip` with the four octets captured, so that the loop checks them. */
  method IsValidIp(address: string) returns (ok: bool)
    ensures ok <==> ValidIp(address)
  {
    if !FullMatch(address, IpPattern) {
      return false;
    }
    var groups := Split(MatchedText(address), '.');
    ok := CheckGroups(groups);
  }

  /** The dotted quad of every address matches RE_IP. */
  lemma FormatMatches(x: Addr)
    ensures IpPattern(Format(x))
    ensures Split(Format(x), '.') == [NatToString(Octets(x)[0]), NatToString(Octets(x)[1]),
                                      NatToString(Octets(x)[2]), NatToString(Octets(x)[3])]
  {
    var o := Octets(x);
    var parts := [NatToString(o[0]), NatToString(o[1]), NatToString(o[2]), NatToString(o[3])];
    ByteText(o[0]);
    ByteText(o[1]);
    ByteText(o[2]);
    ByteText(o[3]);
    JoinSplit(parts, '.');
    OctetPatternValue(parts[0]);
    OctetPatternValue(parts[1]);
    OctetPatternValue(parts[2]);
    OctetPatternValue(parts[3]);
  }

  /** The intended check accepts a dotted quad iff no octet is 255 and the first and last are not 0. */
  lemma FormatValid(x: Addr)
    ensures ValidIp(Format(x)) <==>
      (forall k :: 0 <= k < 4 ==> Octets(x)[k] <= 254) && Octets(x)[0] != 0 && Octets(x)[3] != 0
  {
    var o := Octets(x);
    FormatMatches(x);
    NatToStringRoundTrip(o[0]);
    NatToStringRoundTrip(o[1]);
    NatToStringRoundTrip(o[2]);
    NatToStringRoundTrip(o[3]);
  }

  /** Every accepted address is four octets of at most 254, the first and last not 0. */
  lemma ValidIpOctets(address: string)
    requires ValidIp(address)
    ensures var g := Split(MatchedText(address), '.');
      |g| == 4 && (forall k :: 0 <= k < 4 ==> IsDigits(g[k]) && ParseDigits(g[k]) <= 254)
      && ParseDigits(g[0]) != 0 && ParseDigits(g[3]) != 0
  {
    var g := Split(MatchedText(address), '.');
    assert GroupValid(0, g[0]) && GroupValid(1, g[1]) && GroupValid(2, g[2]) && GroupValid(3, g[3]);
  }

  /** As written, the unspecified address passes; the intended check refuses it. */
  lemma AsWrittenAcceptsUnspecified()
    ensures FullMatch("0.0.0.0", IpPattern) && !ValidIp("0.0.0.0")
  {
    FormatMatches(0);
    FormatValid(0);
    assert Octets(0) == [0, 0, 0, 0];
    assert Format(0) == Join(["0", "0", "0", "0"], ".");
    assert Format(0) == "0.0.0.0";
  }

  /** As written, the broadcast address passes; the intended check refuses it. */
  lemma AsWrittenAcceptsBroadcast()
    ensures FullMatch("255.255.255.255", IpPattern) && !ValidIp("255.255.255.255")
  {
    var x := 0xFFFF_FFFF;
    BroadcastText();
    FormatMatches(x);
    FormatValid(x);
    assert Octets(x)[0] == 255;
  }

  lemma BroadcastText()
    ensures Format(0xFFFF_FFFF) == "255.255.255.255"
  {
    var x := 0xFFFF_FFFF;
    assert Octets(x) == [255, 255, 255, 255];
    assert NatToString(255) == "255";
    assert Format(x) == Join(["255", "255", "255", "255"], ".");
  }

  /** A quad whose first part is not an octet group does not match RE_IP. */
  lemma FirstPartRefused(a: string, b: string, c: string, d: string)
    requires '.' !in a && '.' !in b && '.' !in c && '.' !in d
    requires !OctetPattern(a) && |d| > 0 && d[|d| - 1] != '\n'
    ensures !FullMatch(a + "." + b + "." + c + "." + d, IpPattern)
  {
    JoinSplit([a, b, c, d], '.');
    assert [a, b, c, d][1..] == [b, c, d] && [b, c, d][1..] == [c, d] && [c, d][1..] == [d];
    assert Join([c, d], ".") == c + "." + d;
    assert Join([b, c, d], ".") == b + "." + (c + "." + d);
    assert Join([a, b, c, d], ".") == a + "." + (b + "." + (c + "." + d));
    var s := a + "." + b + "." + c + "." + d;
    assert s == Join([a, b, c, d], ".");
    assert Split(s, '.')[0] == a;
    assert !IpPattern(s);
    assert s[|s| - 1] == d[|d| - 1];
  }

  /** An octet above 255 does not match RE_IP. */
  lemma PatternRefuses256()
    ensures !FullMatch("256.1.1.1", IpPattern)
  {
    OctetPatternValue("256");
    ThreeDigits("256");
    FirstPartRefused("256", "1", "1", "1");
    assert "256" + "." + "1" + "." + "1" + "." + "1" == "256.1.1.1";
  }

  // ------------------------------------------------------------- colouring

  const Escape: char := '\U{1B}'

  /** TERM_COLORS, with "39" (the default foreground) for any other colour. */
  function ColorCode(color: string): (r: string)
    ensures |r| == 2 && IsDigits(r)
    ensures r == "39" <==> color != "red" && color != "green" && color != "blue"
  {
    if color == "red" then "31"
    else if color == "green" then "32"
    else if color == "blue" then "34"
    else "39"
  }

  /** `colored(text, color)`: the text between the colour's escape sequence and the reset one. */
  function Colored(text: string, color: string): string
  {
    [Escape, '['] + ColorCode(color) + "m" + text + [Escape] + "[39m"
  }

  /** The colour code and the text of a coloured string, if it has that shape. */
  function Uncolored(s: string): (r: Option<(string, string)>)
  {
    if |s| >= 10 && s[..2] == [Escape, '['] && s[4] == 'm' && s[|s| - 5..] == [Escape] + "[39m"
    then Some((s[2..4], s[5..|s| - 5]))
    else None
  }

  /** Colouring keeps the text and its colour code recoverable. */
  lemma ColoredRoundTrip(text: string, color: string)
    ensures Uncolored(Colored(text, color)) == Some((ColorCode(color), text))
  {
    var s := Colored(text, color);
    assert s[..2] == [Escape, '['];
    assert s[2..4] == ColorCode(color);
    assert s[5..|s| - 5] == text;
    assert s[|s| - 5..] == [Escape] + "[39m";
  }

  // ----------------------------------------------------------- sub-commands

  const BinPrefix := "offspot-config-"

  /** `get_bin(name)`: the argv that runs the `offspot-config-<name>` script through env. */
  function GetBin(name: string): (r: seq<string>)
    ensures |r| == 2 && r[0] == "/usr/bin/env" && StartsWith(r[1], BinPrefix)
  {
    ["/usr/bin/env", BinPrefix + name]
  }

  /** The sub-command name is recoverable from its argv, so different names run different scripts. */
  lemma GetBinName(name: string, other: string)
    ensures GetBin(name)[1][|BinPrefix|..] == name
    ensures GetBin(name) == GetBin(other) ==> name == other
  {
    assert GetBin(name)[1][|BinPrefix|..] == name;
    assert GetBin(other)[1][|BinPrefix|..] == other;
  }

  // ------------------------------------------------------------------ Config

  const ScriptPrefix := "offspot-"

  /** `re.sub(r"^offspot-", "", name)`: one leading "offspot-" removed. */
  function InitName(name: string): (r: string)
    ensures EndsWith(name, r)
    ensures |r| == |name| || ScriptPrefix + r == name
  {
    if StartsWith(name, ScriptPrefix) then name[|ScriptPrefix|..] else name
  }

  /** The name of script "offspot-x" is "x", and a name without the prefix is kept. */
  lemma InitNameOf(name: string)
    ensures InitName(ScriptPrefix + name) == name
    ensures !StartsWith(name, ScriptPrefix) ==> InitName(name) == name
  {
    assert (ScriptPrefix + name)[..|ScriptPrefix|] == ScriptPrefix;
  }

  /** The class-level settings of `Config`; the logger is not modelled. */
  class Config {
    var name: string
    var debug: bool

    constructor ()
      ensures name == "-" && !debug
    {
      name := "-";
      debug := false;
    }

    /** `Config.init(name)`: the script name without "offspot-"; `set_debug(debug)` keeps the flag. */
    method Init(scriptName: string)
      modifies this
      ensures name == InitName(scriptName) && debug == old(debug)
    {
      name := InitName(scriptName);
      SetDebug(debug);
    }

    method SetDebug(enabled: bool)
      modifies this
      ensures debug == enabled && name == old(name)
    {
      debug := enabled;
    }
  }
}
