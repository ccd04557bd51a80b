# offspot-config, modelled in Dafny

This project models the deterministic core of offspot-config, the toolkit that
assembles the manifest of a Kiwix Hotspot image and configures the hotspot at
run time. It has two halves.

- **Manifest assembly.** The `ConfigBuilder` class (`builder.dfy`) holds the
  manifest, its image set, files, compose services, dashboard cards,
  reverse-proxied names, file mappings and the `with_*` flags. Each `add_*`
  method updates them in place. Each method is proved to leave the state that
  a function of `builder_spec.dfy`, `builder_app.dfy` or `builder_render.dfy`
  describes, and lemmas about those functions state what the operations
  promise: idempotent guards, "nothing else changes", the three environment
  layers of an app, volume and sub-service parsing, the reverse-proxy
  settings `render` writes and how they read back, and the builder invariant
  that each set flag has its service.
- **Supporting records.** The model covers:
  - the package variants (`packages.dfy`) and the catalog (`catalog.dfy`);
  - the size estimator (`sizes.dfy`);
  - `OCIImage`, `File` and `Checksum`, with its lazy digest (`oci_images.dfy`, `files.dfy`, `checksums.dfy`);
  - the input records `FileConfig`, `BaseConfig`, `OutputConfig` and `MainConfig` (`file_configs.dfy`, `base_configs.dfy`, `output_configs.dfy`, `main_configs.dfy`);
  - the dashboard `Reader` and `Link` tuples (`dashboard.dfy`).
- **Runtime helpers.** The model covers:
  - the validators of `checks.py` (`checks.dfy`, `compose_check.dfy`, with IPv4 addresses as integers below 2^32 in `ipv4.dfy`);
  - the access-point commands (`runtime_ap.dfy`, `config_ap.dfy`);
  - the dhcpcd armor repair and splice (`dhcpcd.dfy`) and the two ethernet commands (`runtime_ethernet.dfy`, `config_ethernet.dfy`);
  - the dnsmasq spoof toggle (`dnsmasq_spoof.dfy`);
  - the `/etc/hosts` rewrite of the two hostname commands (`hosts.dfy`);
  - the helpers of `offspot_config_lib.py` (`config_lib.dfy`).

Configuration files are texts passed in and returned. A command's `main`
becomes a `Configure` method: its exit code is an out-parameter, and the exit
codes of the programs it runs are parameters. Network lookups and library
calls are fields of `Collaborators.Env`, left uninterpreted:
`get_online_rsc_size`, `read_checksum_from`, `get_base64_from`, humanfriendly's
`parse_size`, the ZIM ident helpers, `sanitize_filename`, `uuid4` and
`docker_export`'s image parser. Python's behaviour is modelled where the code
depends on it:
- `str.split`, `splitlines`, `strip` and `join` (`strings.dfy`, `lines.dfy`);
- a regular expression anchored with `$`, which also accepts one final newline;
- `pathlib` paths, folded lexically (`paths.dfy`);
- the ordered `dict`, as a list of items.

The older single-module `src/offspot_config/inputs.py` shares the models of
the input records. Where it differs, the model states the difference:
`LegacyGetBaseFrom`, the `shrink` field of `OutputConfig`, and `WAYS`.
`read_from` without the `write_config` injection is `PreparePayload` with
`inject` false.

## Model

| member | source | states |
|---|---|---|
| Checks.CheckResponse.RaiseForStatus | src/offspot_runtime/checks.py:44-46 | a ValueError carrying the help text is raised exactly when the check did not pass |
| Checks.PortTextMatches | src/offspot_runtime/checks.py:18-32 | the text of a single port matches exactly that port |
| Checks.RangeTextMatches | src/offspot_runtime/checks.py:18-32 | the text "a-b" matches exactly the ports from a to b, both ends included |
| Checks.NonDigitPartRefused | src/offspot_runtime/checks.py:23-24 | a range text with a part that is not all digits (an empty part included) matches no port |
| Checks.LabelPattern | src/offspot_runtime/checks.py:8-10 | on a text without dots, RE_HOSTNAME accepts exactly the letter-digit-hyphen labels |
| Checks.JoinPattern | src/offspot_runtime/checks.py:8-10 | RE_HOSTNAME accepts labels joined by dots exactly when every label is a letter-digit-hyphen label |
| Checks.HostnameLabels | src/offspot_runtime/checks.py:63-77 | without a final newline, a hostname passes exactly when it has at most 255 characters and at most 64 labels, each a letter-digit-hyphen label of 1 to 63 characters |
| Checks.HostnameFinalNewline | src/offspot_runtime/checks.py:8-10 | the pattern's `$` lets one final newline through: "offspot\n" passes |
| Checks.IsValidTld | src/offspot_runtime/checks.py:283-294 | a TLD passes exactly when it is none of the reserved names and, less one final newline, is a letter followed by letters, digits and '-'; a reserved name fails with the unauthorized message |
| Checks.IsValidDomain | src/offspot_runtime/checks.py:297-305 | a domain passes exactly when it is a valid hostname |
| Checks.FqdnIsHostname | src/offspot_runtime/checks.py:283-305 | a valid domain and a valid TLD ending in a letter or digit, within the length limits, make a valid hostname `domain.tld` |
| Checks.IsValidSsid | src/offspot_runtime/checks.py:249-257 | an SSID passes exactly when it has 1 to 32 characters (33 only with a final newline), none of them `+`, `]`, `/`, `"` or a tab, and the first also not `!`, `#` or `;` |
| Checks.IsValidWpa2Passphrase | src/offspot_runtime/checks.py:260-267 | a passphrase passes exactly when, less one final newline, it has 8 to 63 characters, all printable ASCII from space to `~` |
| Checks.IsValidWifiChannel | src/offspot_runtime/checks.py:270-280 | a channel passes exactly when it is 1 to 14, with a warning exactly for 12 to 14 |
| Checks.IsValidInterfaceName | src/offspot_runtime/checks.py:442-450 | a name passes exactly when, less one final newline, it has at least three characters: a lower-case letter, then lower-case letters and digits, ending with a digit |
| Checks.IsValidWifiCountryCode | src/offspot_runtime/checks.py:308-318 | a country code passes exactly when it is "00" or a listed ISO 3166 code |
| Checks.IsValidTimezone | src/offspot_runtime/checks.py:49-60 | a zone passes exactly when it is an available zone and, less one final newline, has 1 to 80 letters, digits, '-', '_' or '/' |
| Checks.IPv4Meaning | src/offspot_runtime/checks.py:176-213 | an address passes exactly when it parses and, when usable is asked, is neither the network nor the broadcast address of its /24 nor in a link-local, loopback, multicast, reserved or unspecified range |
| Checks.UsableHostPasses | src/offspot_runtime/checks.py:176-213 | the dotted quad of every usable host address passes |
| Checks.FirstFailure | src/offspot_runtime/checks.py:235-244 | the loop of checks stops at the first refused item, and runs to the end exactly when every item passes |
| Checks.EthernetMeaning | src/offspot_runtime/checks.py:216-246 | "dhcp" always passes; "static" passes exactly with a usable address and non-empty lists of usable routers and DNS servers; no other type passes |
| Checks.LeaseTime | src/offspot_runtime/checks.py:390-400 | a lease time passes exactly when it is "infinite" or digits followed by one of s, m, h, d, w |
| Checks.LeaseTextPasses | src/offspot_runtime/checks.py:390-400 | every number followed by a unit is a lease time that passes |
| Checks.DhcpRangeOf | src/offspot_runtime/checks.py:356-400 | a range that passes has distinct start, end and host, a valid netmask, end and host in start's network, start and end among its hosts with start before end, and a valid lease time; its message counts the addresses from start to end, less the host when inside; conversely every such range passes; the only exception is a ValueError |
| Checks.IsValidDhcpRange | src/offspot_runtime/checks.py:321-400 | a range that passes has four comma-separated parts whose start and end, like the host address, are usable host addresses and whose netmask parses; conversely, for four such parts the verdict is that of the checks on the parsed addresses |
| Checks.IsValidNetwork | src/offspot_runtime/checks.py:403-439 | a network passes exactly when it parses with at least two addresses, holds the usable host address and, unless any network is allowed, is not a special-purpose network |
| Checks.InterfaceLists | src/offspot_runtime/checks.py:534-557 | the interface lists pass exactly when every name of the three lists passes |
| Checks.ApNetworkChecks | src/offspot_runtime/checks.py:523-557 | the checks after the DHCP range pass exactly when the network, every DNS server and every interface list pass |
| Checks.ApSettingsFailure | src/offspot_runtime/checks.py:475-517 | the checks before the DHCP range report a failure exactly when one of them refuses its setting |
| Checks.IsValidApConfig | src/offspot_runtime/checks.py:453-559 | the access-point settings pass exactly when every check in order passes, the DHCP range included |
| IPv4.ParseOctet | src/offspot_runtime/checks.py:189-193 | an octet the address parser accepts is one to three digits worth less than 256 |
| IPv4.FormatParses | src/offspot_runtime/checks.py:189-193 | the dotted quad of every address parses back to that address |
| IPv4.ParsedIsFormat | src/offspot_runtime/checks.py:186-193 | a text the parser accepts is the dotted quad of its value: the accepted notation is canonical |
| IPv4.MaskPrefix | src/offspot_runtime/checks.py:364-368 | a mask text is accepted only as the netmask or the hostmask of a prefix of at most 32 bits |
| IPv4.MaskPrefixOfMask | src/offspot_runtime/checks.py:364-368 | the netmask of a /p network reads back as prefix p |
| IPv4.ParseNetwork | src/offspot_runtime/checks.py:413-416 | a network text that parses names a network address without host bits and a prefix of at most 32 bits |
| IPv4.NetworkContains | src/offspot_runtime/checks.py:370-375 | the /p network made from an address contains that address, between its network and broadcast addresses |
| ConfigLib.OctetPatternValue | src/offspot_runtime_config/offspot_config_lib.py:26-31 | an octet alternative of RE_IP accepts exactly the one- to three-digit texts of 0 to 255, leading zeros included |
| ConfigLib.MatchedText | src/offspot_runtime_config/offspot_config_lib.py:89-92 | the matched text is four octet groups, the address itself or the address less one final newline |
| ConfigLib.CheckGroups | src/offspot_runtime_config/offspot_config_lib.py:93-101 | the octet loop returns true exactly when every group is numeric, at most 254, and the first and last are not 0 |
| ConfigLib.IsValidIpAsWritten | src/offspot_runtime_config/offspot_config_lib.py:89-101 | as written, an address passes exactly when RE_IP matches: the octet loop sees no groups |
| ConfigLib.IsValidIp | src/offspot_runtime_config/offspot_config_lib.py:89-101 | with the octets captured, an address passes exactly when RE_IP matches and its four octets pass the loop |
| ConfigLib.FormatMatches | src/offspot_runtime_config/offspot_config_lib.py:26-31 | the dotted quad of every address matches RE_IP, its parts being the decimal texts of its bytes |
| ConfigLib.FormatValid | src/offspot_runtime_config/offspot_config_lib.py:93-101 | the intended check accepts a dotted quad exactly when no byte is 255 and the first and last bytes are not 0 |
| ConfigLib.ValidIpOctets | src/offspot_runtime_config/offspot_config_lib.py:93-101 | every accepted address is four octets of at most 254, the first and last not 0 |
| ConfigLib.AsWrittenAcceptsUnspecified | src/offspot_runtime_config/offspot_config_lib.py:89-101 | as written "0.0.0.0" passes, while the intended check refuses it |
| ConfigLib.AsWrittenAcceptsBroadcast | src/offspot_runtime_config/offspot_config_lib.py:89-101 | as written "255.255.255.255" passes, while the intended check refuses it |
| ConfigLib.FirstPartRefused | src/offspot_runtime_config/offspot_config_lib.py:26-31 | a quad whose first part is not an octet group does not match RE_IP |
| ConfigLib.PatternRefuses256 | src/offspot_runtime_config/offspot_config_lib.py:26-31 | an octet above 255 does not match RE_IP |
| ConfigLib.ColorCode | src/offspot_runtime_config/offspot_config_lib.py:34-40 | the colour code is two digits, "39" exactly for a colour other than red, green and blue |
| ConfigLib.ColoredRoundTrip | src/offspot_runtime_config/offspot_config_lib.py:37-40 | the coloured text gives back its colour code and the text |
| ConfigLib.GetBin | src/offspot_runtime_config/offspot_config_lib.py:125-127 | the argv runs `/usr/bin/env` with the `offspot-config-` script |
| ConfigLib.GetBinName | src/offspot_runtime_config/offspot_config_lib.py:125-127 | the sub-command name is recoverable from the argv, so different names run different scripts |
| ConfigLib.InitName | src/offspot_runtime_config/offspot_config_lib.py:58 | the name keeps its end and loses at most one leading "offspot-" |
| ConfigLib.InitNameOf | src/offspot_runtime_config/offspot_config_lib.py:58 | "offspot-x" becomes "x" and a name without the prefix is kept |
| ConfigLib.Config.constructor | src/offspot_runtime_config/offspot_config_lib.py:50-54 | a new configuration has the name "-" and debugging off |
| ConfigLib.Config.Init | src/offspot_runtime_config/offspot_config_lib.py:56-60 | init sets the name without its "offspot-" prefix and keeps the debug flag |
| ConfigLib.Config.SetDebug | src/offspot_runtime_config/offspot_config_lib.py:62-66 | set_debug sets the flag and keeps the name |
| RuntimeAp.RangeBounds | src/offspot_runtime/ap.py:147-157 | the default range lies among the hosts of the address's /24, leaves the address out, holds at least 126 addresses and reaches the first or the last host; it fails exactly for the /24's network and broadcast addresses, which `hosts.index` does not find |
| RuntimeAp.DhcpRangeForFails | src/offspot_runtime/ap.py:147-158 | `dhcp_range_for` fails exactly for a text that is not an address, or for the network or broadcast address of its /24 |
| RuntimeAp.DhcpRangeForFields | src/offspot_runtime/ap.py:158 | the range text is four comma-separated fields: the two bounds, the /24 netmask and a one-hour lease |
| RuntimeAp.RangeInHostNetwork | src/offspot_runtime/checks.py:321-400 | a range of hosts of the address's /24 that leaves the address out passes the range checks with the /24 netmask and a one-hour lease, reporting every address from start to end as available |
| RuntimeAp.RangeTextValid | src/offspot_runtime/checks.py:321-400 | a four-field range text whose fields are such a range passes `is_valid_dhcp_range` for the address |
| RuntimeAp.DefaultRangeValid | src/offspot_runtime/ap.py:324-325 | the default range of a usable address passes `is_valid_dhcp_range` for that address, reporting every address from start to end as available |
| RuntimeAp.DefaultRangeOk | src/offspot_runtime/ap.py:147-158 | a usable address has a default range |
| RuntimeAp.DefaultRangeReport | src/offspot_runtime/ap.py:324-325 | the report on the default range of a usable address, with its bounds named |
| RuntimeAp.CidrParses | src/offspot_runtime/ap.py:351 | the CIDR text of a network parses back to that network |
| RuntimeAp.NormaliseIdempotent | src/offspot_runtime/ap.py:351 | rewriting a network in its normal CIDR form twice gives what rewriting it once gave |
| RuntimeAp.DefaultNetworkValid | src/offspot_runtime/ap.py:319-322 | the default network of a usable address, its /24, passes `is_valid_network` for it and is already in the normal form `main` rewrites networks into |
| RuntimeAp.NormaliseSpoof | src/offspot_runtime/ap.py:368-370 | spoofing is never both automatic and unconditional |
| RuntimeAp.FlagMode | src/offspot_runtime/ap.py:368-370 | a boolean spoof flag keeps its value and is never automatic |
| RuntimeAp.AcceptedSpoofMode | src/offspot_runtime/ap.py:368-370 | for a spoof setting the checks accept, "auto" is automatic and a flag keeps its value |
| RuntimeAp.Prefixed | src/offspot_runtime/ap.py:213-226 | each item gets the prefix, in order, one line per item |
| RuntimeAp.InterfaceRanges | src/offspot_runtime/ap.py:219-224 | each other interface gets the default range of the address it holds, in order |
| RuntimeAp.RangeLines | src/offspot_runtime/ap.py:219-224 | the range lines succeed exactly when every range does, one line per interface; otherwise the error is that of a failed range |
| RuntimeAp.ServersLines | src/offspot_runtime/ap.py:231-235 | as a gateway every DNS server gets its own "server=" line; otherwise there are none |
| RuntimeAp.AcceptedSettings | src/offspot_runtime/checks.py:453-559 | settings that pass `is_valid_ap_config` have a valid address, domain, TLD, network and DHCP range, and a text spoof setting is "auto" |
| RuntimeAp.DnsmasqNames | src/offspot_runtime/ap.py:237-239 | the local record `domain.tld` of checked settings is a valid hostname when the TLD ends with a letter or digit and the name keeps within the hostname limits |
| RuntimeAp.WithDefaults | src/offspot_runtime/ap.py:316-325 | the defaults keep the address and spoof setting and always leave at least one DNS server |
| RuntimeAp.DefaultDnsPass | src/offspot_runtime/ap.py:316-317 | the default DNS servers pass the IPv4 check as usable hosts |
| RuntimeAp.DefaultsPass | src/offspot_runtime/ap.py:316-325 | with a usable address, the defaults never make the range, network or DNS checks fail |
| RuntimeAp.Configure | src/offspot_runtime/ap.py:308-382 | `main` fails with "Invalid IPv4 address" for a bad address; otherwise it checks the settings with their defaults, stops with the check's help text or the raised error, and else plans the normalised network, the spoof mode, the spoof file and the dnsmasq fields |
| ConfigAp.RSplitAt | src/offspot_runtime_config/ap.py:156 | splitting "p.q" at its last dot gives p back when q holds no dot |
| ConfigAp.RangeText | src/offspot_runtime_config/ap.py:154-157 | the range text of "p.q" is the .100 and .240 addresses of p, the /24 netmask and a 12-hour lease, as four comma-separated fields |
| ConfigAp.DhcpRangeFields | src/offspot_runtime_config/ap.py:154-157 | on a dotted quad the range runs from host .100 to host .240 of its /24, with the /24 netmask and a 12h lease |
| ConfigAp.DefaultNetworkText | src/offspot_runtime_config/ap.py:321-322 | the rewrite turns "p.<digits>" into "p.0/24" |
| ConfigAp.RuntimeDefaultText | src/offspot_runtime/ap.py:319-322 | the runtime command's default network is the address's /24 prefix followed by ".0/24" |
| ConfigAp.DefaultNetworkOf | src/offspot_runtime_config/ap.py:321-322 | on a dotted quad the rewrite gives the same /24 network as the runtime command's default |
| ConfigAp.DefaultNetworkKeeps | src/offspot_runtime_config/ap.py:321-322 | a text that does not end in a dot and digits (allowing one final newline) is kept unchanged as the network |
| ConfigAp.SpoofServersLines | src/offspot_runtime_config/ap.py:219-221 | spoofing gives the one line that answers every name with the access point's address |
| ConfigAp.GatewayServersLines | src/offspot_runtime_config/ap.py:222-227 | without spoofing, a gateway gets one "server=" line per DNS server, and otherwise none |
| ConfigAp.ServersAsRuntime | src/offspot_runtime_config/ap.py:219-227 | without spoofing, the servers are those the runtime command writes |
| ConfigAp.InputFailure | src/offspot_runtime_config/ap.py:303-316 | the inputs pass exactly when the SSID and the passphrase (when given) match their patterns, the channel is 1 to 14 and the address passes the intended `is_valid_ip`, which checks each octet |
| ConfigAp.InputFailureAsWritten | src/offspot_runtime_config/ap.py:303-316 | as written, the inputs pass exactly when the SSID and passphrase match, the channel is 1 to 14 and the address merely matches RE_IP |
| ConfigAp.UnspecifiedAcceptedAsWritten | src/offspot_runtime_config/ap.py:315-316 | as written, the command accepts the address "0.0.0.0" with otherwise valid inputs, which the intended check refuses with "Invalid IPv4 address" |
| ConfigAp.WithDefaults | src/offspot_runtime_config/ap.py:318-324 | the defaults leave at least one DNS server and a network, keep given DNS servers and networks, and always set the range derived from the address |
| ConfigAp.RangeLines | src/offspot_runtime_config/ap.py:206-211 | each other interface gets a "dhcp-range=" line with the range of the address it holds, in order |
| ConfigAp.CheckInputs | src/offspot_runtime_config/ap.py:303-316 | the checks in order, with the intended `is_valid_ip`, give the first failure's message, if any |
| ConfigAp.ApplyDefaults | src/offspot_runtime_config/ap.py:318-324 | the updates of the settings give the settings with their defaults |
| ConfigAp.Configure | src/offspot_runtime_config/ap.py:299-374 | `main`, with the intended `is_valid_ip`, stops with the first failed check's message; otherwise it plans the settings with defaults, a warning for channels above 11, the dnsmasq fields, masquerade exactly for a gateway and forwarding for a gateway or when other or no-DHCP interfaces are given |
| ConfigAp.RangeIgnored | src/offspot_runtime_config/ap.py:324 | a DHCP range given on the command line has no effect on the settings or the dnsmasq fields |
| ConfigAp.DefaultsOfQuad | src/offspot_runtime_config/ap.py:321-324 | for a dotted quad with no network given, the default network is the runtime command's /24 network |
| Dhcpcd.IndexIn | src/offspot_runtime/ethernet.py:46 | `lines.index(x)` is the position of the first occurrence of x |
| Dhcpcd.FirstIndex | src/offspot_runtime/ethernet.py:76-77 | a position holding x with no x before it is the one `lines.index` finds |
| Dhcpcd.Removed | src/offspot_runtime/ethernet.py:48-53 | `lines.remove(x)` takes exactly one copy of x out of the list |
| Dhcpcd.RemovedKeeps | src/offspot_runtime/ethernet.py:48-53 | removing one line keeps every other line the list holds |
| Dhcpcd.ArmorsDiffer | src/offspot_runtime/ethernet.py:29-30 | the start and stop armor lines differ |
| Dhcpcd.FindLine | src/offspot_runtime/ethernet.py:41-42 | the scan finds x exactly when the list holds it, at the position `lines.index` gives |
| Dhcpcd.RemoveLine | src/offspot_runtime/ethernet.py:48-53 | the step-by-step removal gives `lines.remove(x)` |
| Dhcpcd.FirstWord | src/offspot_runtime/ethernet.py:43 | the first piece of `re.split(r"\s", line)` is the longest prefix without white space, followed by white space or the end of the line |
| Dhcpcd.InterfaceLineMeaning | src/offspot_runtime/ethernet.py:43 | a line names an interface exactly when it is "interface" or starts with "interface" and a white-space character |
| Dhcpcd.HasInterfaceLine | src/offspot_runtime/ethernet.py:43 | the scan finds an interface line exactly when one of the lines names an interface |
| Dhcpcd.Repaired | src/offspot_runtime/ethernet.py:45-59 | the repaired lines always end with the start and then the stop armor line |
| Dhcpcd.RepairLines | src/offspot_runtime/ethernet.py:45-59 | the removals and appends of the repair give the repaired lines |
| Dhcpcd.EnsureArmor | src/offspot_runtime/ethernet.py:35-65 | `ensure_dhcpcd_conf_armor` reports a repair exactly when it writes the file, and writes the repaired lines joined by newlines |
| Dhcpcd.WriteConf | src/offspot_runtime/ethernet.py:68-91 | `write_dhcpcd_conf` raises when an armor line is missing, and otherwise writes the lines before the start line, the armor around the configuration's lines, the lines after the stop line and an empty last line unless the file already ended with one |
| DhcpcdProperties.WithoutArmor | src/offspot_runtime/ethernet.py:48-53 | the filtered lines hold no armor line |
| DhcpcdProperties.WithoutArmorConcat | src/offspot_runtime/ethernet.py:48-53 | filtering out the armor distributes over concatenation |
| DhcpcdProperties.WithoutArmorNone | src/offspot_runtime/ethernet.py:48-53 | lines without armor lines are their own filtering |
| DhcpcdProperties.RemovedArmor | src/offspot_runtime/ethernet.py:48-53 | removing an armor line changes none of the other lines |
| DhcpcdProperties.RemovedOnce | src/offspot_runtime/ethernet.py:48-53 | a line that occurs at most once is gone once removed |
| DhcpcdProperties.RemovedFrom | src/offspot_runtime/ethernet.py:48-53 | every line left after a removal was a line of the list |
| DhcpcdProperties.UnarmoredOthers | src/offspot_runtime/ethernet.py:45-53 | with each armor line at most once, the removals leave exactly the lines that are not armor lines |
| DhcpcdProperties.RepairKeepsLines | src/offspot_runtime/ethernet.py:35-65 | with each armor line at most once, the repair keeps every line that is not an armor line, in order, adds "interface eth0" only when no line named an interface, and ends with the armor |
| DhcpcdProperties.DefaultNamesInterface | src/offspot_runtime/ethernet.py:55-56 | the added "interface eth0" line names an interface |
| DhcpcdProperties.InterfaceNotArmor | src/offspot_runtime/ethernet.py:43 | no interface line is an armor line |
| DhcpcdProperties.ArmorAppended | src/offspot_runtime/ethernet.py:45-59 | lines that name an interface and hold no armor line are in order once the armor follows them |
| DhcpcdProperties.RepairArmors | src/offspot_runtime/ethernet.py:35-65 | with each armor line at most once, the repaired lines pass the check that ends the repair: both armor lines, the start first, and an interface line |
| DhcpcdProperties.BodyNamesInterface | src/offspot_runtime/ethernet.py:55-56 | the kept lines, with the interface line the repair may add, name an interface |
| DhcpcdProperties.UnarmoredFrom | src/offspot_runtime/ethernet.py:48-53 | every line the removals keep is a line of the file |
| DhcpcdProperties.ConstantsSingle | src/offspot_runtime/ethernet.py:29-30 | the armor lines and the interface line hold no newline |
| DhcpcdProperties.UnarmoredSingle | src/offspot_runtime/ethernet.py:48-53 | the removals keep lines free of newlines |
| DhcpcdProperties.RepairedSingle | src/offspot_runtime/ethernet.py:45-59 | the repair keeps lines free of newlines |
| DhcpcdProperties.ArmorFixReadBack | src/offspot_runtime/ethernet.py:61-63 | the file the repair writes reads back as the repaired lines |
| DhcpcdProperties.ArmorThenSpliceOk | src/offspot_runtime/ethernet.py:35-91 | once the repair has run, the file holds both armor lines, so the write that follows never raises |
| DhcpcdProperties.ArmorSettles | src/offspot_runtime/ethernet.py:35-65 | with each armor line at most once, a second repair finds nothing to repair |
| DhcpcdProperties.StrayStopUnsettled | src/offspot_runtime/ethernet.py:45-53 | a stop line repeated before the start line is still before it after the repair, which removes only the first copy, so the repaired file is still out of order |
| DhcpcdProperties.StrayStopFile | src/offspot_runtime/ethernet.py:46 | a file whose stop line comes first is not in order |
| DhcpcdProperties.StrayStopRepaired | src/offspot_runtime/ethernet.py:48-59 | the repair of that file removes the start line and the first stop line only |
| DhcpcdProperties.WithoutAt | src/offspot_runtime/ethernet.py:48-53 | removing a line found at a position with no copy before it drops that position |
| DhcpcdProperties.RepairedNamed | src/offspot_runtime/ethernet.py:55-59 | the repair of lines that name an interface is the lines left by the removals, then the armor |
| DhcpcdProperties.StrayStopStillOut | src/offspot_runtime/ethernet.py:46 | the repaired file still has a stop line before its start line |
| DhcpcdProperties.SplicedShape | src/offspot_runtime/ethernet.py:80-88 | the written lines are the lines read back and one final empty line |
| DhcpcdProperties.ReadBackSingle | src/offspot_runtime/ethernet.py:80-86 | the lines read back are single lines when the file's are |
| DhcpcdProperties.SplicedReadBack | src/offspot_runtime/ethernet.py:68-91 | the written file reads back as the lines before the first start line, the start line, the configuration's lines, the stop line and the lines after the first stop line |
| DhcpcdProperties.SplicedIdempotent | src/offspot_runtime/ethernet.py:68-91 | writing the same configuration twice writes the same file, for a file with the start line before the stop line and a non-empty last line, and a configuration without armor lines |
| DhcpcdProperties.SplicedOfLines | src/offspot_runtime/ethernet.py:75-89 | the write on a file whose lines are known is their splice joined by newlines |
| DhcpcdProperties.ReadBackStable | src/offspot_runtime/ethernet.py:75-89 | the lines read back, spliced again with the same configuration, give the same lines |
| DhcpcdProperties.StopNotBefore | src/offspot_runtime/ethernet.py:77 | no stop line comes before a position that precedes the first stop line |
| DhcpcdProperties.ReadBackParts | src/offspot_runtime/ethernet.py:80-88 | with a non-empty last line, the lines read back keep all the lines after the stop line |
| DhcpcdProperties.SpliceOfParts | src/offspot_runtime/ethernet.py:80-88 | splicing lines whose armor already holds exactly the configuration's lines leaves them as they are |
| RuntimeEthernet.JoinLeavesOut | src/offspot_runtime/ethernet.py:112-113 | a character in neither the items nor the separator is not in their join |
| RuntimeEthernet.ThreeLines | src/offspot_runtime/ethernet.py:110-114 | three newline-free lines, each ended by a newline, split back into the three |
| RuntimeEthernet.StaticText | src/offspot_runtime/ethernet.py:110-114 | the static directives are the three directive lines, each ended by a newline |
| RuntimeEthernet.NetworkConfLines | src/offspot_runtime/ethernet.py:109-116 | without newlines in the settings, the directives read as the address with its /24 prefix, the routers and the DNS servers joined by spaces, or as the single line "dhcp" |
| RuntimeEthernet.NetworkConfNoArmor | src/offspot_runtime/ethernet.py:109-116 | no directive line is an armor line |
| RuntimeEthernet.PassedNoNewline | src/offspot_runtime/checks.py:176-213 | an address `is_valid_ipv4` accepts holds no newline |
| RuntimeEthernet.PassedSettingsSingle | src/offspot_runtime/checks.py:216-246 | static settings that pass the check hold no newline |
| RuntimeEthernet.Configure | src/offspot_runtime/ethernet.py:94-124 | `main` ends as `RuntimeEthernet.Outcome`: invalid with the check's help text, else the repaired file spliced with the directives, or the raised error |
| RuntimeEthernet.OutcomeMeaning | src/offspot_runtime/ethernet.py:94-124 | `main` writes the file exactly when the settings pass the check, is invalid exactly when they do not, never raises, and the written file reads back as the repaired file with the directive lines between its first armor lines |
| RuntimeEthernet.StaticApplied | src/offspot_runtime/ethernet.py:109-124 | for accepted static settings the lines between the armor are exactly the three directives, with every other line of the repaired file kept |
| RuntimeEthernet.ReapplyStable | src/offspot_runtime/ethernet.py:118-124 | applying accepted settings to a file whose armor is in order and whose last line is not empty, then applying them again to the written file, writes the same text |
| RuntimeEthernet.AppliedAs | src/offspot_runtime/ethernet.py:118-124 | with the repair computed, the outcome of accepted settings is the splice of the directives |
| ConfigEthernet.FirstInvalid | src/offspot_runtime_config/ethernet.py:125-127 | no item is refused exactly when every item passes the intended `is_valid_ip`; otherwise the index named is of a refused item with every item before it accepted |
| ConfigEthernet.FindInvalid | src/offspot_runtime_config/ethernet.py:125-127 | the loop that stops at the first refused item finds the first refused item |
| ConfigEthernet.FirstInvalidAt | src/offspot_runtime_config/ethernet.py:125-127 | a refused item with every item before it accepted is the first refused item |
| ConfigEthernet.InputFailure | src/offspot_runtime_config/ethernet.py:113-133 | the checks pass exactly for "dhcp", or for "static" with an address, at least one router and one DNS server, all of them passing the intended `is_valid_ip` |
| ConfigEthernet.CheckInputs | src/offspot_runtime_config/ethernet.py:113-133 | the checks in order give the first failure's message, if any |
| ConfigEthernet.Quoted | src/offspot_runtime_config/ethernet.py:128 | each item appears between single quotes, in order |
| ConfigEthernet.ListText | src/offspot_runtime_config/ethernet.py:128 | the text of a list starts with "[" and ends with "]" |
| ConfigEthernet.SplitFirst | src/offspot_runtime_config/ethernet.py:128 | the first piece of a split starts with the text's first character when that is not the separator |
| ConfigEthernet.BracketNoPattern | src/offspot_runtime_config/offspot_config_lib.py:26-31 | a text that starts with "[" is not four octet groups |
| ConfigEthernet.BracketRefused | src/offspot_runtime_config/offspot_config_lib.py:89-101 | `is_valid_ip` refuses a text that starts with "[" |
| ConfigEthernet.StaticRefusedAsWritten | src/offspot_runtime_config/ethernet.py:128-133 | as written, static settings whose address, routers and DNS servers all pass `is_valid_ip` are refused with the first piece of the list's text, while checking the servers themselves accepts them |
| ConfigEthernet.NoStaticAsWritten | src/offspot_runtime_config/ethernet.py:128-133 | as written, no static settings pass the checks |
| ConfigEthernet.Configure | src/offspot_runtime_config/ethernet.py:103-148 | `main`, with the DNS servers checked as given, ends as `ConfigEthernet.Outcome`: invalid with the first failed check's message, else the repaired file spliced with the directives |
| ConfigEthernet.OutcomeMeaning | src/offspot_runtime_config/ethernet.py:103-148 | `main` writes the file exactly when the checks pass, is invalid exactly when they fail, never raises, and the written file reads back as the repaired file with the directive lines between its first armor lines |
| ConfigEthernet.DhcpApplied | src/offspot_runtime_config/ethernet.py:139-148 | DHCP is accepted whatever the other settings, and the armor then holds the single line "dhcp", with every other line of the repaired file kept |
| DnsmasqSpoof.DetectSpoof | src/offspot_runtime/dnsmasqspoof.py:36-40 | the loop reports spoof mode exactly when some line starts with the catch-all address `address=/#/` |
| DnsmasqSpoof.ToggledLine | src/offspot_runtime/dnsmasqspoof.py:51-61 | a toggled line is never empty, and a line without a newline stays without one |
| DnsmasqSpoof.ToggleTwice | src/offspot_runtime/dnsmasqspoof.py:48-61 | toggling twice gives back a "##" comment, a non-empty line that is no comment, and a line commented by "# " that is not a "##" comment |
| DnsmasqSpoof.ToggledAll | src/offspot_runtime/dnsmasqspoof.py:48-61 | every line is toggled, in order, and no line is added or dropped |
| DnsmasqSpoof.ToggleLines | src/offspot_runtime/dnsmasqspoof.py:49-61 | the loop with its `continue` toggles every line, in order |
| DnsmasqSpoof.ToggleAllTwice | src/offspot_runtime/dnsmasqspoof.py:48-61 | toggling a file twice gives it back when every line is restorable |
| DnsmasqSpoof.Toggle | src/offspot_runtime/dnsmasqspoof.py:30-65 | `toggle_dnsmasq` reports a change exactly when it writes, writes nothing when the file is already in the requested mode, and otherwise writes the toggled lines joined by newlines |
| DnsmasqSpoof.ToggleReadBack | src/offspot_runtime/dnsmasqspoof.py:63 | the written file reads back as the toggled lines of the original, line for line |
| DnsmasqSpoof.ApFileToggles | src/offspot_runtime/ap.py:196-207 | on the spoof file the access-point command writes for one mode, the toggle to that mode writes nothing, the toggle to the other mode writes that command's file for the other mode less its final newline, which is then in the other mode and is left alone by a second toggle to it |
| DnsmasqSpoof.OneLineToggle | src/offspot_runtime/dnsmasqspoof.py:36-63 | a one-line file toggles into its toggled line, unless already in the requested mode |
| DnsmasqSpoof.ApLineToggled | src/offspot_runtime/dnsmasqspoof.py:56-61 | toggling the spoof line of one mode gives the line of the other |
| DnsmasqSpoof.ApFileLines | src/offspot_runtime/ap.py:196-207 | the access-point command's spoof file is its one line and a newline, and reads back as that line with or without the newline |
| DnsmasqSpoof.ApLinesMode | src/offspot_runtime/dnsmasqspoof.py:36-40 | the spoof line puts the file in spoof mode; its commented form does not |
| DnsmasqSpoof.Configure | src/offspot_runtime/dnsmasqspoof.py:77-103 | `main` exits with 1 when the status or the configuration cannot be read, or when a toggle's restart fails, and with 0 otherwise; it toggles towards spoofing exactly when the stripped status is not "online" |
| Hosts.HostsLineShape | src/offspot_runtime_config/hostname.py:57-59 | the new entry is itself a loopback entry, and a single line ended by a newline for a hostname without newline |
| Hosts.Replaced | src/offspot_runtime_config/hostname.py:58-61 | every loopback entry is replaced by the new entry and every other line kept, in place |
| Hosts.UpdateHosts | src/offspot_runtime_config/hostname.py:56-63 | the loop with its `existing` flag, then the append, gives the updated lines |
| Hosts.UpdatedMeaning | src/offspot_runtime_config/hostname.py:56-63 | the updated lines keep every other line in place, hold the new entry, name the host in every loopback entry, and grow by one line exactly when there was no loopback entry |
| Hosts.UpdateIdempotent | src/offspot_runtime_config/hostname.py:56-63 | writing the same hostname again changes nothing |
| Hosts.UpdateLastWins | src/offspot_runtime_config/hostname.py:56-63 | writing a second hostname gives the same lines as writing only that one |
| Hosts.EndedLines | src/offspot_runtime_config/hostname.py:54-55 | the lines `readlines` gives of a text that is empty or ends in a newline each end with their one newline |
| Hosts.UpdatedTerminated | src/offspot_runtime_config/hostname.py:56-63 | updating such lines with a hostname without newline keeps every line ended by its one newline |
| Hosts.HostsTextReadBack | src/offspot_runtime_config/hostname.py:54-65 | a newline-ended hosts file, rewritten, reads back as its updated lines |
| Hosts.HostsTextIdempotent | src/offspot_runtime_config/hostname.py:54-65 | rewriting a newline-ended hosts file twice with the same hostname writes the same text |
| RuntimeHostname.TwoLines | src/offspot_runtime/hostname.py:43 | two newline-ended lines split into the two lines, and read back with their newlines |
| RuntimeHostname.MergedAsWritten | src/offspot_runtime/hostname.py:42-52 | as written, a line before the loopback entry loses its newline, so it and the new entry end up on one line; reading the lines with their newlines keeps them apart |
| RuntimeHostname.LoopbackEnded | src/offspot_runtime/hostname.py:47 | a newline added to a line without one does not change whether it is a loopback entry |
| RuntimeHostname.UpdatedPair | src/offspot_runtime/hostname.py:46-51 | for a plain line then a loopback entry, the entry is replaced and nothing is appended |
| RuntimeHostname.Configure | src/offspot_runtime/hostname.py:28-54 | `main` exits with 2 for a name `is_valid_hostname` refuses, with 1 when `hostnamectl` fails, and otherwise with 0 and the rewritten hosts text, its lines read with their newlines |
| ConfigHostname.CheckHostname | src/offspot_runtime_config/hostname.py:38-46 | the inline check, with its shortest and longest label found by a loop, accepts exactly the names `is_valid_hostname` accepts |
| ConfigHostname.Configure | src/offspot_runtime_config/hostname.py:34-67 | `main` exits with 2 for a refused name, with 1 when `hostnamectl` fails, and otherwise with 0 and the rewritten hosts text |
| ComposeCheck.HostPortOf | src/offspot_runtime/checks.py:136-162 | a long-syntax entry counts exactly when its protocol is absent or "tcp", with its `published` value as text; a short-syntax entry counts exactly when it holds ':' and any "/proto" suffix is "tcp", with the field just before its last ':' as host port; other entries are skipped |
| ComposeCheck.ShortHostPort | src/offspot_runtime/checks.py:153-157 | the host port of a short entry holds no ':' and is the whole field before the entry's last ':', after any IP address and its ':' |
| ComposeCheck.Dedup | src/offspot_runtime/checks.py:121 | the keys of `exposes` are the required ports, each once |
| ComposeCheck.Pending | src/offspot_runtime/checks.py:142 | the pending ports are exactly the keys not yet marked exposed |
| ComposeCheck.ImageFailure | src/offspot_runtime/checks.py:105-117 | the image checks fail exactly when some service is not a dict or lacks a text image, and a failure never passes |
| ComposeCheck.Missing | src/offspot_runtime/checks.py:167 | one text per port not yet exposed, in order: the port's decimal text |
| ComposeCheck.ExposeText | src/offspot_runtime/checks.py:142-144 | the inner loop marks the pending ports the host-port text covers |
| ComposeCheck.ScanPorts | src/offspot_runtime/checks.py:136-165 | the loop over one service's ports marks the ports its counted entries publish |
| ComposeCheck.ScanServices | src/offspot_runtime/checks.py:122-165 | the loop over the services, in their order, stops at a host-mode service with ports or a ports entry that is not a list |
| ComposeCheck.IsValidCompose | src/offspot_runtime/checks.py:80-173 | `is_valid_compose` computes the response of `ComposeCheck.ComposeCheck`, its checks in the source's order |
| ComposeCheck.ExposeFromMarks | src/offspot_runtime/checks.py:142-144 | a port the inner loop marks was marked before or lies in the range of the host-port text |
| ComposeCheck.PortsScanMarks | src/offspot_runtime/checks.py:136-165 | a port the service's loop marks was marked before or is published by one of its entries |
| ComposeCheck.ServicesScanMarks | src/offspot_runtime/checks.py:122-165 | a port the services' loop marks was marked before or is published by some service, and a scan that goes through found every service a dict without host mode and ports |
| ComposeCheck.PassedMeansPublished | src/offspot_runtime/checks.py:80-173 | a compose document passes only when its services are dicts, none pairs host network mode with ports, and every required port is published by a TCP port entry of some service |
| ComposeCheck.RefusedFails | src/offspot_runtime/checks.py:124-134 | a scan stopped by a service refuses the document |
| Sizes.RoundForCluster | src/offspot_config/utils/sizes.py:8-12 | the rounded size is a multiple of the cluster size, at least the size and less than a cluster above it, and a multiple is kept as it is |
| Sizes.RoundIsLeast | src/offspot_config/utils/sizes.py:8-12 | the rounded size is the least multiple of the cluster size that holds the size |
| Sizes.RoundMonotone | src/offspot_config/utils/sizes.py:8-12 | rounding never reverses the order of two sizes |
| Sizes.MarginFor | src/offspot_config/utils/sizes.py:15-18 | the margin is ten percent of the content size, truncated toward zero, for sizes of either sign |
| Sizes.SumOfPermutation | src/offspot_config/utils/sizes.py:26-32 | a sum does not depend on the order of its terms |
| Sizes.RawContentSizeOrderFree | src/offspot_config/utils/sizes.py:26-32 | the content size counts each image twice (archive and expanded) and each file once, in any order |
| Sizes.MinImageSizeFor | src/offspot_config/utils/sizes.py:35-37 | the minimum image size is the least multiple of 512 that holds the rootfs, the content and the margin |
| Sizes.MinImageSizeMonotone | src/offspot_config/utils/sizes.py:35-37 | a larger rootfs, content or margin never asks for a smaller image |
| Sizes.MinImageSize | src/offspot_config/utils/sizes.py:40-46 | `get_min_image_size` fails, with an OSError, exactly when the base's rootfs size is not ready; otherwise it is the least multiple of 512 holding the rootfs, the content and its margin (a multiple of 512 within 512 of their sum) |
| Dashboard.Order | src/offspot_config/utils/dashboard.py:33-38 | windows, android, macos and linux come first, in that order, and every other platform last |
| Dashboard.Sort | src/offspot_config/utils/dashboard.py:58-61 | the sorting key is the reader's order |
| Dashboard.SortKeysDistinct | src/offspot_config/utils/dashboard.py:33-38 | two readers of known platforms share a sorting key exactly when they share the platform |
| Dashboard.FilenameOfPath | src/offspot_config/utils/dashboard.py:53-56 | for a `scheme://host/path` URL the file name is the name of the path |
| Dashboard.FilenameIsLastSegment | src/offspot_config/utils/dashboard.py:53-56 | for a `scheme://host/dir/name` URL the file name is `name` |
| Dashboard.Using | src/offspot_config/utils/dashboard.py:40-51 | a reader keeps its platform, URL and checksum, takes its file name from the URL and its size from the network |
| Dashboard.ReaderToDict | src/offspot_config/utils/dashboard.py:25-31 | the dictionary has the five fields, the checksum as its own dictionary or None |
| Dashboard.ReaderDictRoundTrip | src/offspot_config/utils/dashboard.py:25-31 | the dictionary of a reader keeps every field of it |
| Dashboard.LinkToDict | src/offspot_config/utils/dashboard.py:78-79 | the dictionary of a link holds its label, URL and icon and nothing else |
| Dashboard.LinkDictRoundTrip | src/offspot_config/utils/dashboard.py:78-79 | a link is fully recovered from its dictionary |
| Checksums.NewChecksum | src/offspot_config/inputs/checksum.py:28-39 | construction succeeds exactly for a supported algorithm and the kind "digest" or "url", and otherwise raises ValueError |
| Checksums.ToDict | src/offspot_config/inputs/checksum.py:53-54 | the dictionary holds exactly algo, value and kind |
| Checksums.FromDict | src/offspot_config/inputs/checksum.py:24-39 | keyword construction needs algo and value, takes kind with "digest" as its default, and builds a valid checksum |
| Checksums.DictRoundTrip | src/offspot_config/inputs/checksum.py:53-54 | a checksum survives its dictionary and keyword construction |
| Checksums.DigestIdempotent | src/offspot_config/inputs/checksum.py:41-46 | after a successful `digest` the kind is "digest" and the value is the digest, so a second read fetches nothing |
| Checksums.DigestOfDigest | src/offspot_config/inputs/checksum.py:41-46 | the digest of a digest-kind checksum is its value, whatever the lookup would say |
| Checksums.Checksum.constructor | src/offspot_config/inputs/checksum.py:24-39 | a new checksum holds the valid value given |
| Checksums.Checksum.Digest | src/offspot_config/inputs/checksum.py:41-46 | `digest` resolves a URL-kind checksum in place, turning it into a digest-kind one |
| Checksums.Checksum.AsAria | src/offspot_config/inputs/checksum.py:48-51 | `as_aria` is the algorithm, "=" and the digest, resolving the digest as `digest` does |
| OciImages.NewOCIImage | src/offspot_config/oci_images.py:11-17 | an image holds the parsed reference, the URL and both sizes |
| OciImages.ToDict | src/offspot_config/oci_images.py:42-48 | the dictionary holds exactly the reference, both sizes and the URL or None |
| OciImages.DictRoundTrip | src/offspot_config/oci_images.py:42-48 | an image is recovered from its dictionary |
| Catalog.ClassOf | src/offspot_config/catalog.py:20 | the kind "app" or "files" selects a class, and any other kind, or none, is a KeyError |
| Catalog.UpdateStep | src/offspot_config/catalog.py:19-21 | one round stores the package built from the entry under its ident, or fails with the class lookup's or the constructor's error |
| Catalog.UpdateAllSnoc | src/offspot_config/catalog.py:18-21 | updating from a longer list is updating from its first part, then from the rest |
| Catalog.OtherKindRefused | src/offspot_config/catalog.py:18-21 | a kind other than "app" and "files" stops the update with a KeyError and stores nothing |
| Catalog.LaterEntryWins | src/offspot_config/catalog.py:18-21 | an entry built after another of the same ident replaces it |
| Catalog.UpdateKeepsKeying | src/offspot_config/catalog.py:18-21 | every package stays stored under its own ident, and no ident is dropped |
| Catalog.LookupApp | src/offspot_config/catalog.py:23-26 | the app getter succeeds exactly for an ident holding an app package, which it returns, and raises KeyError otherwise |
| Catalog.LookupFiles | src/offspot_config/catalog.py:28-31 | the files getter succeeds exactly for an ident holding a files package, which it returns, and raises KeyError otherwise |
| Catalog.GettersExclusive | src/offspot_config/catalog.py:23-31 | at most one of the two getters succeeds for an ident |
| Catalog.StoredAppFound | src/offspot_config/catalog.py:18-26 | an app stored last under an ident is what the app getter returns for it |
| Catalog.GetAppPath | src/offspot_config/catalog.py:34-36 | an app's path is its own directory under `/data/contents` |
| Catalog.AppCatalog.constructor | src/offspot_config/catalog.py:13-14 | a new catalogue is empty |
| Catalog.AppCatalog.UpdateFrom | src/offspot_config/catalog.py:18-21 | `update_from` stores the packages in order until one fails, keeps those stored before, and returns the error |
| Catalog.AppCatalog.Create | src/offspot_config/catalog.py:13-16 | a catalogue built from nothing or an empty list is empty; otherwise it is updated from the list |
| Catalog.AppCatalog.GetAppPackage | src/offspot_config/catalog.py:23-26 | the app getter on the catalogue's entries |
| Catalog.AppCatalog.GetFilesPackage | src/offspot_config/catalog.py:28-31 | the files getter on the catalogue's entries |
| Packages.NewZimPackage | src/offspot_config/packages.py:71-85 | a ZIM package takes the kind "zim" and the domain "kiwix" by default, with no checksum, tags, languages or icon |
| Packages.Filename | src/offspot_config/packages.py:90-96 | a ZIM's file name ends in ".zim"; an app's is its download target when given, else its ident; a files package's is its target when given, else its ident |
| Packages.Size | src/offspot_config/packages.py:29-31 | the base class raises NotImplementedError; a ZIM's size is its download size; an app's is its expanded image plus its optional download |
| Packages.SizeAccountsDownload | src/offspot_config/packages.py:161-163 | an app counts its expanded image and its optional download; a files package only its download |
| Packages.GetUrl | src/offspot_config/packages.py:102-106 | the base class has no URL; an app or files package is served at its own subdomain; a ZIM at the Kiwix viewer under its human id |
| Packages.GetDownloadUrl | src/offspot_config/packages.py:108-109 | only a ZIM has a download URL: its file name on the download host |
| Packages.GetDownloadSize | src/offspot_config/packages.py:111-112 | only the base class has no download size; a ZIM gives its size, an app and a files package their download size or 0 |
| Packages.GetDownloadChecksum | src/offspot_config/packages.py:114-119 | each kind gives its own download checksum, the base class none |
| Packages.KeepIdChars | src/offspot_config/packages.py:158 | the substitution keeps only letters, digits, '_', '.' and '-', keeps every such character of the text, never lengthens it, and leaves nothing exactly when the text has none |
| Packages.KeepIdCharsConcat | src/offspot_config/packages.py:158 | the substitution works character by character: the kept text of a concatenation is the kept texts of its parts, and a single character is kept exactly when it is an id character |
| Packages.KeepIdCharsIdentity | src/offspot_config/packages.py:158 | text made only of those characters is kept whole |
| Packages.AppId | src/offspot_config/packages.py:153-159 | an ident that strips to nothing raises IndexError; otherwise the id starts with the stripped ident's first character when that is a letter or digit and goes on with the kept characters of the rest; when the first is not and the rest has no id character, it is the random hex id |
| Packages.AppIdOfCleanIdent | src/offspot_config/packages.py:153-159 | an ident that is already a clean id comes out unchanged |
| Packages.AppIdSettles | src/offspot_config/packages.py:153-159 | an id derived from an ident starting with a letter or digit is its own id |
| Packages.ContentPaths | src/offspot_config/packages.py:175 | a plain file name lands directly under `/data/contents`, and under `/data/contents/files` for a files package |
| Packages.NameUnder | src/offspot_config/packages.py:175 | a name under an absolute directory prints as the directory's text, '/', the name |
| Packages.FilesDirText | src/offspot_config/packages.py:212 | `/data/contents/files` prints as itself |
| Packages.ContentTargetText | src/offspot_config/constants.py:6-7 | `/data/contents` prints as itself |
| Packages.FileConfigArgs | src/offspot_config/packages.py:171-218 | an app's file goes to its file name under `/data/contents` with its download URL, a files package's under `/data/contents/files` with its URL; both carry the download size and checksum |
| Packages.AsFileConfigOutcome | src/offspot_config/packages.py:171-218 | `as_fileconfig` gives that record exactly when the URL is set and the handler is accepted, and a ValueError otherwise; an app without download is an error, never None, because `has_file` is tested as a bound method |
| Packages.AppImage | src/offspot_config/packages.py:143-147 | an app's image is built from its image reference and sizes, without URL |
| Packages.ToDashboardEntry | src/offspot_config/packages.py:45-68 | the entry carries the package's ident, kind, title, description, languages, tags, URL and icon, and a download block only when the download URL and size are both truthy, with the checksum only when there is one |
| Packages.OnlyZimsOfferDownloads | src/offspot_config/packages.py:36-37 | apps, files packages and plain packages never offer a download on the dashboard |
| Packages.ZimDownloadWithoutHost | src/offspot_config/packages.py:58-63 | a ZIM of non-zero size offers a download even with no download host, its URL then naming the host "None" |
| Files.PyInt | src/offspot_config/file.py:63-66 | `int(x)` keeps an int; a text is accepted exactly when, white space stripped and one sign left out, it is ASCII digits with single underscores between digits, and its value is that of its digits, negated after '-'; a text of digits is its decimal value, and a blank text fails |
| Files.UnderscoreIgnored | src/offspot_config/file.py:63-66 | an underscore between two runs of digits does not change what `int()` gives: "1_000" is 1000 |
| Files.NewFile | src/offspot_config/file.py:36-66 | the constructor raises ValueError without content and without URL, refuses a destination outside `/data` and an unknown handler, and otherwise keeps the resolved destination, which lies under `/data` |
| Files.NewFileFromUrl | src/offspot_config/file.py:36-66 | a payload with a URL, no content and no size, a known handler and a destination under `/data` builds the file that downloads that URL, with its size unknown |
| Files.ExactlyOneKind | src/offspot_config/file.py:105-123 | a constructed file is exactly one of plain, local and remote |
| Files.FetchCaches | src/offspot_config/file.py:82-91 | once a fetch stored a usable size, later unforced fetches return it and change nothing |
| Files.FailedFetchRetried | src/offspot_config/file.py:72-91 | a failed lookup, a negative size, is not cached: the next read asks again |
| Files.MountedTo | src/offspot_config/file.py:125-127 | the destination is moved from under `/data` to under the mount point |
| Files.File.constructor | src/offspot_config/file.py:36-44 | a new file holds the fields given |
| Files.File.Create | src/offspot_config/file.py:36-66 | `File(payload)` succeeds exactly when the constructor's checks pass, with their fields, and raises their error otherwise |
| Files.File.FetchSize | src/offspot_config/file.py:82-91 | `fetch_size` asks the host or the network unless a size is cached or the fetch is forced, and stores and returns the answer |
| Files.File.Size | src/offspot_config/file.py:72-76 | `size` returns the known size, or fetches it |
| Files.File.Fullsize | src/offspot_config/file.py:78-80 | `fullsize` returns a non-zero declared full size without fetching and changes nothing; else it returns the size, fetching and caching it as `size` does |
| FileConfigs.NewFileConfig | src/offspot_config/inputs/file.py:17-39 | the record is accepted exactly when its handler is known, it has a URL or content, and a non-empty size text parses; an unknown handler or a missing URL and content is a ValueError, and a size text the parser refuses, reached only after those checks, is its InvalidSize; an accepted record keeps its destination, URL and checksum, holds the parsed size and marks its content block-style; the accepted handlers are `WAYS` as the older module lists them (src/offspot_config/inputs.py:15), inputs/ways.py not being part of this model |
| FileConfigs.DefaultsNeedSource | src/offspot_config/inputs/file.py:17-34 | a record with only a destination and the defaults is refused |
| FileConfigs.FileOfFields | src/offspot_config/inputs/file.py:41-43 | the `File` built from a validated record carries its destination, handler, content, URL, size and checksum; a record without URL and with blank content gives the text "None" as the URL |
| FileConfigs.YamlRepr | src/offspot_config/inputs/file.py:45-49 | the YAML representation holds the record's fields, with every None-valued one left out |
| BaseConfigs.NewBaseConfig | src/offspot_config/inputs/base.py:40-51 | the base keeps its source; a non-empty size text is replaced by what the size parser makes of it (the parser's InvalidSize, which is no ValueError, when it cannot), any other size is kept; a non-empty checksum dictionary becomes a validated checksum, any other checksum is kept; construction fails exactly when that size text or that dictionary is refused |
| BaseConfigs.ExtraRun | src/offspot_config/inputs/base.py:21-23 | the count of leading characters of the class `[a-z0-9\-\.\_]`: all counted ones are in the class and the next one is not |
| BaseConfigs.VersionMatch | src/offspot_config/inputs/base.py:21-25 | a match is a prefix of the source: digit, dot, digit, dot, digit, then the longest run of extra characters; no match when the first five characters are not of that form |
| BaseConfigs.BaseTarget | src/offspot_config/inputs/base.py:19 | the base image's target `/data/-` lies under the data partition, whatever the working directory |
| BaseConfigs.GetBaseFromFile | src/offspot_config/inputs/base.py:15-37 | `get_base_from` never fails: it yields a direct download to `/data/-` of the version URL when the source starts with a version, else of the source itself, carrying the md5 read beside a version URL (an explicit checksum then ignored), else the explicit checksum object |
| BaseConfigs.BasePayloadShape | src/offspot_config/inputs/base.py:17-36 | the payload handed to `File` holds only the target, the chosen URL and the chosen checksum as a dictionary |
| BaseConfigs.LegacyGetBaseFromFile | src/offspot_config/inputs.py:18-24 | the older variant also always yields a direct download to `/data/-`, of the `base-image-<version>.img.xz` URL for a version and of the given URL otherwise, and never a checksum |
| OutputConfigs.ParseSizeStep | src/offspot_config/inputs/output.py:18-31 | an int size is kept, "auto" becomes None, and only "auto" does; anything else is parsed as its text into an int, a parser failure becoming ValueError |
| OutputConfigs.ParsedSizeSettles | src/offspot_config/inputs/output.py:18-20 | once the size is an int, calling `parse_size()` again leaves it unchanged whatever the parser |
| OutputConfigs.AutoReparsesNone | src/offspot_config/inputs/output.py:22-26 | "auto" settles to None, but a second `parse_size()` hands None to the parser as the text "None", so it succeeds only if the parser accepts "None" |
| OutputConfigs.OutputConfig.constructor | src/offspot_config/inputs/output.py:11-13 | the fields hold the values given |
| OutputConfigs.OutputConfig.ParseSize | src/offspot_config/inputs/output.py:18-31 | the size becomes the parsed size on success and is left as it was on failure; the other fields never change |
| OutputConfigs.OutputConfig.Create | src/offspot_config/inputs/output.py:9-16 | construction succeeds exactly when the size parses, and the new object then holds the parsed size; a failure is the parser's ValueError |
| OutputConfigs.CreateDefault | src/offspot_config/inputs.py:96-102 | the default output has compress False (and, in the older variant, shrink False), and is built only when the parser accepts the text "None" |
| MainConfigs.DuplicatesIn | src/offspot_config/inputs/mainconfig.py:43-44 | every reported target occurs more than once among the targets, and every target that does is reported |
| MainConfigs.CountTwice | src/offspot_config/inputs/mainconfig.py:44 | `count(to) > 1` holds exactly when the target sits at two distinct positions |
| MainConfigs.CountOnce | src/offspot_config/inputs/mainconfig.py:44 | a target is counted at least once exactly when it occurs |
| MainConfigs.NoDuplicatesIff | src/offspot_config/inputs/mainconfig.py:43-49 | no duplicate is reported exactly when all file targets are pairwise distinct |
| MainConfigs.BuildAll | src/offspot_config/inputs/mainconfig.py:51-52 | building succeeds exactly when every config builds, and the result is then each config's build in order |
| MainConfigs.BuildAllErrorSticks | src/offspot_config/inputs/mainconfig.py:51-52 | once a prefix of the configs fails to build, the whole list fails with the same error |
| MainConfigs.AllImagesOf | src/offspot_config/inputs/mainconfig.py:53-54 | one image per image config, in order, each built from its config's ident, sizes and URL |
| MainConfigs.NewMainConfig | src/offspot_config/inputs/mainconfig.py:33-54 | an accepted configuration has distinct file targets, keeps its file and image configs, holds exactly the built files and the built images, its base is the converted base, and an output dictionary it accepts carries no `shrink` key |
| MainConfigs.DuplicateTargetRejected | src/offspot_config/inputs/mainconfig.py:43-49 | two file configs with the same target make construction fail |
| MainConfigs.AllFilesBuilt | src/offspot_config/inputs/mainconfig.py:51-52 | every file of an accepted configuration has content or a URL |
| MainConfigs.RootfsSize | src/offspot_config/inputs/mainconfig.py:56-62 | the property succeeds exactly when the base size is an int and returns it; otherwise OSError |
| MainConfigs.RootfsSizeReady | src/offspot_config/inputs/mainconfig.py:33-35 | a base given as a dictionary with a non-empty size text has, once accepted, an int size that is the parser's value for that text |
| MainConfigs.RemoteFiles | src/offspot_config/inputs/mainconfig.py:100-102 | every listed file is remote and comes from the files (completeness is `RemotePartition`) |
| MainConfigs.NonRemoteFiles | src/offspot_config/inputs/mainconfig.py:104-106 | every listed file is plain or local and comes from the files (completeness is `RemotePartition`) |
| MainConfigs.RemotePartition | src/offspot_config/inputs/mainconfig.py:100-106 | for built files the two queries partition the list: together they hold every file exactly as often as it occurs, and no file is in both |
| MainConfigs.CheckSubload | src/offspot_config/inputs/mainconfig.py:88-95 | the entry popped (an empty list when missing) is put back when it is a list of dictionaries, and otherwise fails with ValueError |
| MainConfigs.PreparePayload | src/offspot_config/inputs/mainconfig.py:65-95 | on success `oci_images` and `files` are lists of dictionaries and every other key is kept with its value |
| MainConfigs.WriteConfigAppends | src/offspot_config/inputs/mainconfig.py:73-81 | with `write_config` set, the files list gains exactly one last entry: the text itself, directly written to `/data/image.yaml`, sized by its UTF-8 length |
| MainConfigs.FilesPassedOn | src/offspot_config/inputs/mainconfig.py:89-95 | without the injection, the files list is passed on unchanged, or empty when missing |
| MainConfigs.FilesNotListRefused | src/offspot_config/inputs/mainconfig.py:91-92 | a files entry that is not a list of dictionaries is refused with ValueError |
| MainConfigs.MainConfig.constructor | src/offspot_config/inputs/mainconfig.py:21-31 | the fields hold the arguments, with empty file and image lists |
| MainConfigs.MainConfig.AppendFiles | src/offspot_config/inputs/mainconfig.py:51-52 | the loop succeeds exactly when every config builds, then holds the built files in order; nothing else changes |
| MainConfigs.MainConfig.AppendImages | src/offspot_config/inputs/mainconfig.py:53-54 | the images list becomes one image per config in order; nothing else changes |
| MainConfigs.MainConfig.Prepare | src/offspot_config/inputs/mainconfig.py:33-49 | base and output conversion, base file and duplicate check succeed or fail exactly as the functional model says; an output object is kept as given; a dictionary becomes a fresh object with the parsed size and the given compress, and a `shrink` key raises TypeError |
| MainConfigs.MainConfig.Create | src/offspot_config/inputs/mainconfig.py:33-54 | the object is created exactly when the functional model accepts the arguments, and its state is then that model's configuration |
| BuilderSpec.Initial | src/offspot_config/builder.py:19-69 | a new builder has no image, file, service, card, mapping or reverse-proxied name, offers ZIM downloads, has every flag off, an output size of "auto", and the environ given or an empty one |
| BuilderSpec.DictSet | src/offspot_config/builder.py:286 | `update({k: v})` on an ordered dictionary: `k` then maps to `v`, every other key keeps its value, and the length grows by one exactly when `k` was new |
| BuilderSpec.DictSetSame | src/offspot_config/builder.py:386 | setting a key to the value it already holds changes nothing |
| BuilderSpec.ComposeDict | src/offspot_config/builder.py:103-117 | every compose service has its image, its container name, pull policy "never" and restart "unless-stopped", and its environment when it has one |
| BuilderSpec.AddFilesService | src/offspot_config/builder.py:390-417 | the files flag ends set; when it was already set nothing changes, otherwise the files service and its image are added; only images, services and the flag change |
| BuilderSpec.GuardedAddsIdempotent | src/offspot_config/builder.py:143-239 | calling `add_reverseproxy`, `add_captive_portal`, `add_hwclock` or `add_files_service` twice is calling it once; a first `add_reverseproxy` adds the reverse-proxy image and its service with the builder's fqdn and touches no file or reverse-proxied name; `add_hwclock` reverse-proxies "hwclock" |
| BuilderSpec.AddDashboardLastWins | src/offspot_config/builder.py:88-93 | the downloads setting is recorded on every call, before the guard: two calls amount to the second alone, and the "home" service is in place afterwards |
| BuilderSpec.WithServiceKeepsFlag | src/offspot_config/builder.py:88-103 | adding a service and recording the downloads setting commute, and the service's key is then present |
| BuilderSpec.AddFile | src/offspot_config/builder.py:419-437 | `add_file` succeeds exactly when the file config validates, and then appends exactly that config; on failure it raises the validation error and changes nothing |
| BuilderSpec.AddFileRecord | src/offspot_config/builder.py:428-436 | the appended config has the target, handler and size given, the text as URL when `is_url` and as block content otherwise, and no checksum |
| BuilderSpec.AddFileNeedsSource | src/offspot_config/builder.py:428-436 | an empty URL or content is refused with ValueError and the builder is unchanged |
| BuilderSpec.AddKiwix | src/offspot_config/builder.py:253-288 | after the kiwix step the kiwix flag is set, nothing changes when it was already set, files, cards, the other flags, environ, name and access point are kept, and services and reverse-proxied names only grow |
| BuilderSpec.ServeZimDownloads | src/offspot_config/builder.py:284-286 | without downloads offered nothing changes; with them the files flag is set, "zim-downloads" maps to "zims", the files service is added when it was missing, and nothing else changes |
| BuilderSpec.WithCard | src/offspot_config/builder.py:242-243 | the package is listed afterwards, and listing an already-listed package changes nothing |
| BuilderSpec.AddZimFile | src/offspot_config/builder.py:241-251 | `add_zim` succeeds exactly when its file config validates, and then appends that config once and lists the card |
| BuilderSpec.AddZimTwice | src/offspot_config/builder.py:241-288 | adding a ZIM a second time keeps one card but appends its file again, and leaves services, images, reverse-proxied names and mappings as they were |
| BuilderSpec.AddZimBringsKiwix | src/offspot_config/builder.py:253-288 | a first `add_zim` brings the kiwix service, its image and the "kiwix" reverse-proxied name; with downloads offered also the files service and the "zim-downloads" mapping, otherwise the mapping and the files flag are untouched |
| BuilderSpec.ZimFileAdded | src/offspot_config/builder.py:241-251 | the card and file steps of `add_zim` change no flag, service, image, mapping or reverse-proxied name, and keep the builder consistent |
| BuilderSpec.AddZimState | src/offspot_config/builder.py:241-288 | a successful `add_zim` is its kiwix step applied after its card and file steps |
| BuilderSpec.KiwixAdded | src/offspot_config/builder.py:256-288 | a first kiwix step brings the kiwix service, its image and reverse-proxied name, and the files service with the "zim-downloads" mapping exactly when downloads are offered |
| BuilderSpec.AddFilesPackage | src/offspot_config/builder.py:374-388 | whatever happens, the package is listed afterwards |
| BuilderSpec.FilesPackageSteps | src/offspot_config/builder.py:380-388 | after listing: the file config is present, appended only when absent; the files flag is set; "files" is reverse-proxied; the package's domain maps to its ident, every other mapping is kept; no other flag or card changes |
| BuilderSpec.WithFile | src/offspot_config/builder.py:381-382 | the file config is appended only when no equal one is there, and nothing else changes |
| BuilderSpec.FilesServed | src/offspot_config/builder.py:384-388 | the files service is on, "files" is reverse-proxied, the package's domain maps to its ident and every other mapping is kept; files, cards and the other flags are untouched |
| BuilderSpec.AddFilesPackageOnce | src/offspot_config/builder.py:376-377 | a second `add_files_package` of the same package changes nothing and raises nothing, whatever the first did |
| BuilderSpec.AddFilesPackageResult | src/offspot_config/builder.py:374-388 | a successful first call lists the package last, holds its file config (appended only when absent), sets the files flag, reverse-proxies "files", maps its domain to its ident and keeps every other mapping |
| BuilderSpec.AddFilesPackageRefused | src/offspot_config/builder.py:376-382 | a file config that does not validate raises after the package was listed, and nothing else changes |
| BuilderSpec.ConsistentGrows | src/offspot_config/builder.py:64-69 | a state with at least the services and reverse-proxied names of a consistent state, whose newly set flags come with their services, is consistent |
| BuilderSpec.AddDashboardKeepsConsistent | src/offspot_config/builder.py:88-117 | `add_dashboard` keeps every set flag's service in the compose file |
| BuilderSpec.AddReverseproxyKeepsConsistent | src/offspot_config/builder.py:143-166 | `add_reverseproxy` keeps the builder consistent |
| BuilderSpec.AddCaptivePortalKeepsConsistent | src/offspot_config/builder.py:168-208 | `add_captive_portal` keeps the builder consistent |
| BuilderSpec.AddHwclockKeepsConsistent | src/offspot_config/builder.py:210-239 | `add_hwclock` keeps the builder consistent |
| BuilderSpec.AddFilesServiceKeepsConsistent | src/offspot_config/builder.py:390-417 | `add_files_service` keeps the builder consistent |
| BuilderSpec.AddKiwixKeepsConsistent | src/offspot_config/builder.py:253-288 | the kiwix step keeps the builder consistent |
| BuilderSpec.AddZimKeepsConsistent | src/offspot_config/builder.py:241-288 | `add_zim` keeps the builder consistent, whether it raises or not |
| BuilderSpec.AddFilesPackageKeepsConsistent | src/offspot_config/builder.py:374-388 | `add_files_package` keeps the builder consistent, whether it raises or not |
| BuilderSpec.Macros | src/offspot_config/builder.py:439-449 | six `$`-led patterns, each `${NAME}` of one of the six macro names, in replacement order |
| BuilderSpec.MacroNamesApart | src/offspot_config/builder.py:443-448 | the six macro names are pairwise different |
| BuilderSpec.NoDollarNoMacro | src/offspot_config/builder.py:443-448 | a text without `$` holds no `$`-led pattern |
| BuilderSpec.ReplaceAllPlain | src/offspot_config/builder.py:442-449 | a chain of replacements of `$`-led patterns leaves a `$`-free text as it is |
| BuilderSpec.ResolvedPlain | src/offspot_config/builder.py:439-449 | `resolved_variable` leaves a text without `$` unchanged |
| BuilderSpec.ReplaceAllSkips | src/offspot_config/builder.py:442-449 | replacements of patterns absent from the text can be dropped from the chain |
| BuilderSpec.ReplacePlainPrefix | src/offspot_config/builder.py:442-449 | one `str.replace` of a `$` pattern passes over a `$`-free prefix and acts on the rest only |
| BuilderSpec.ReplaceAllPlainPrefix | src/offspot_config/builder.py:442-449 | the chain of replacements passes over a `$`-free prefix |
| BuilderSpec.ResolvedAfterPlain | src/offspot_config/builder.py:439-449 | resolving a text keeps its `$`-free prefix and resolves the rest, so "https://" before `${FQDN}` becomes "https://" and the fqdn |
| BuilderSpec.MacroNotIn | src/offspot_config/builder.py:443-448 | no macro occurs inside another |
| BuilderSpec.MacroAlone | src/offspot_config/builder.py:439-449 | each macro on its own resolves to its value when that value holds no `$` |
| BuilderSpec.PatternAlone | src/offspot_config/builder.py:442-449 | a pattern containing none of the earlier ones becomes its `$`-free value and nothing more |
| BuilderSpec.ResolvedMacros | src/offspot_config/builder.py:439-449 | `${APP_DIR}` resolves to the app's directory, `${FQDN}` to the fqdn, `${PACKAGE_IDENT}` and `${PACKAGE_DOMAIN}` to the package's, `${PACKAGE_FQDN}` to its domain under the fqdn, `${REVERSE_NAME}` to "reverse-proxy" |
| BuilderApp.ResolvedIntoGet | src/offspot_config/builder.py:312-318 | after a layer of resolved items, a key of the layer holds its last value resolved, and any other key is kept as it was |
| BuilderApp.MappedIntoGet | src/offspot_config/builder.py:320-329 | after the `environ_map` layer, each mapped local name holds its global value (or "") resolved, and every other key is kept |
| BuilderApp.EnvironmentLayers | src/offspot_config/builder.py:311-337 | later layers win: the caller's value, else the mapped global value or "", else the package's own value, each resolved; no other key is set |
| BuilderApp.VolumeOf | src/offspot_config/builder.py:341-353 | a volume spec yields a mount exactly when it holds ':', and otherwise fails with ValueError (two names cannot be unpacked from one part) |
| BuilderApp.SplitNParts | src/offspot_config/builder.py:342-343 | a split on ':' with at most two splits has at least two parts exactly when ':' occurs |
| BuilderApp.VolumeShapes | src/offspot_config/builder.py:342-344 | `host:container:mode` mounts the resolved host path read-only exactly when "ro" occurs in the mode; `host:container` mounts it read-write |
| BuilderApp.VolumesStop | src/offspot_config/builder.py:340-353 | once a spec is refused, the later specs change nothing |
| BuilderApp.VolumesComplete | src/offspot_config/builder.py:340-353 | the volumes loop finishes exactly when every spec holds ':', and then yields each spec's mount in order |
| BuilderApp.SubServiceEntry | src/offspot_config/builder.py:363-370 | a sub-service is accepted exactly when its target holds ':', then names `sub.domain:target` resolved; otherwise ValueError |
| BuilderApp.SubServicesStop | src/offspot_config/builder.py:362-370 | once a sub-service is refused, the later ones add nothing |
| BuilderApp.SubServicesAdded | src/offspot_config/builder.py:362-370 | the loop never removes a name; it finishes exactly when every target holds ':', and then adds exactly the sub-services' entries; it fails only with ValueError |
| BuilderApp.SubServicesGrow | src/offspot_config/builder.py:362-370 | the loop only adds names, and only a ValueError stops it |
| BuilderApp.SubServicesAccepted | src/offspot_config/builder.py:363-364 | no sub-service is refused exactly when every target holds ':' |
| BuilderApp.SubServicesEntries | src/offspot_config/builder.py:363-370 | when none is refused, exactly the sub-services' entries are added |
| BuilderApp.ResolvedLinks | src/offspot_config/builder.py:356-359 | one link per link given, in order, each resolved |
| BuilderApp.AddAppOnce | src/offspot_config/builder.py:290-295 | a package of another kind is refused with ValueError and nothing changes; after a successful call, a second one for the same ident changes nothing, whatever its environ |
| BuilderApp.AddAppSucceeds | src/offspot_config/builder.py:290-372 | a first `add_app` succeeds exactly when its file config, every volume spec and every sub-service target are accepted, and then leaves the fully added app |
| BuilderApp.AppAddedManifest | src/offspot_config/builder.py:297-310 | the app's file config is appended exactly when it has a download, its image is added, exactly one new service appears under its ident, and the other services are untouched |
| BuilderApp.AppAddedService | src/offspot_config/builder.py:302-359 | the app's service has the layered environment, the container named after the domain, the app's image, port 80, one mount per volume spec in order, and links exactly when the package lists some |
| BuilderApp.AppAddedReversed | src/offspot_config/builder.py:361-372 | the reverse-proxied names gain exactly the sub-service entries and the app's domain; no flag, card or mapping changes |
| BuilderApp.AddAppBadVolume | src/offspot_config/builder.py:340-346 | a volume spec without ':' stops `add_app` with ValueError |
| BuilderApp.VolumesErrorKind | src/offspot_config/builder.py:342-343 | a refused volume spec is refused with ValueError |
| BuilderApp.AddAppOnlyAdds | src/offspot_config/builder.py:290-372 | however `add_app` ends, services, images and reverse-proxied names only grow, and no flag changes |
| BuilderApp.AppStepsOnlyAdd | src/offspot_config/builder.py:301-372 | the steps after the file entry only add, and change no flag |
| BuilderApp.AppLinkedOnlyAdds | src/offspot_config/builder.py:355-372 | the links and sub-service steps add names, keep the images and change no flag |
| BuilderApp.AddAppKeepsConsistent | src/offspot_config/builder.py:290-372 | `add_app` keeps every set flag's service in place |
| BuilderRender.GetMinSize | src/offspot_config/builder.py:456-467 | the minimum size succeeds exactly when every file record builds and the rootfs size is an int (else TypeError); it is a multiple of 512 within 512 bytes above rootfs, content and margin |
| BuilderRender.GetMinSizeOrderFree | src/offspot_config/builder.py:458-461 | the order in which the image set is walked does not change the size |
| BuilderRender.GetMinSizeCovers | src/offspot_config/builder.py:463-467 | with non-negative content the size holds the rootfs, the content and a tenth of it |
| BuilderRender.ImagesOfOneReferenceBothCount | src/offspot_config/oci_images.py:19-26 | two images of one reference that differ in size hash equal, yet the image set keeps both and the content size counts both their sizes |
| BuilderRender.DashboardPayload | src/offspot_config/builder.py:127-133 | the payload without cards holds the metadata (name and fqdn) and an empty package list, and nothing else |
| BuilderRender.GenDashboardConfig | src/offspot_config/builder.py:119-141 | generating the dashboard configuration changes only the file list, and nothing at all when it raises |
| BuilderRender.DashboardFileAdded | src/offspot_config/builder.py:135-141 | without cards, the dashboard file lands as one last content file for the dashboard target, and nothing else changes |
| BuilderRender.MappingPairs | src/offspot_config/builder.py:484-487 | one `domain:folder` pair per mapping entry, in insertion order |
| BuilderRender.ProxyEnvironment | src/offspot_config/builder.py:481-489 | the reverse proxy's environment gains SERVICES and FILES_MAPPING with their joined values and keeps every other key |
| BuilderRender.UpdateProxy | src/offspot_config/builder.py:481-489 | the update succeeds exactly when a "reverse-proxy" service with an environment exists, and then changes only that environment; otherwise KeyError and no change |
| BuilderRender.Prepared | src/offspot_config/builder.py:476-477 | the dashboard step keeps the services, reverse-proxied names, mappings and flags, changes nothing when it raises, and is skipped without the dashboard |
| BuilderRender.RenderSteps | src/offspot_config/builder.py:469-496 | `render` is the dashboard step followed, unless it raised, by the reverse-proxy update |
| BuilderRender.RenderNeedsReverseproxy | src/offspot_config/builder.py:481 | without a "reverse-proxy" service `render` always raises, with KeyError unless the dashboard step raised first |
| BuilderRender.RenderWithCardsRaises | src/offspot_config/builder.py:129-132 | with the dashboard on and a card listed, `render` raises TypeError and changes nothing |
| BuilderRender.RenderSucceeds | src/offspot_config/builder.py:469-496 | on a consistent builder with the reverse proxy and no card to render, `render` succeeds, SERVICES and FILES_MAPPING carry the names and the mapping, and every other service is untouched |
| BuilderRender.ServicesRoundTrip | src/offspot_config/builder.py:483 | SERVICES split on commas gives back every reverse-proxied name exactly once |
| BuilderRender.PairRoundTrip | src/offspot_config/builder.py:485 | a `domain:folder` pair splits back into its domain and folder |
| BuilderRender.MappingRoundTrip | src/offspot_config/builder.py:484-487 | FILES_MAPPING reads back as the mapping itself, in order, when no domain holds ':' or ',' and no folder holds ',' |
| Builder.ConfigBuilder.constructor | src/offspot_config/builder.py:19-69 | the new builder's attributes are the initial state |
| Builder.ConfigBuilder.AddService | src/offspot_config/builder.py:100-103 | the image joins the image set and the service is stored under its key |
| Builder.ConfigBuilder.SetOutputSize | src/offspot_config/builder.py:85-86 | the output size becomes the int given; nothing else changes |
| Builder.ConfigBuilder.AddDashboard | src/offspot_config/builder.py:88-117 | the attributes become those of `BuilderSpec.AddDashboard` |
| Builder.ConfigBuilder.AddReverseproxy | src/offspot_config/builder.py:143-166 | the attributes become those of `BuilderSpec.AddReverseproxy` |
| Builder.ConfigBuilder.AddCaptivePortal | src/offspot_config/builder.py:168-208 | the attributes become those of `BuilderSpec.AddCaptivePortal` |
| Builder.ConfigBuilder.AddHwclock | src/offspot_config/builder.py:210-239 | the attributes become those of `BuilderSpec.AddHwclock` |
| Builder.ConfigBuilder.AddFilesService | src/offspot_config/builder.py:390-417 | the attributes become those of `BuilderSpec.AddFilesService` |
| Builder.ConfigBuilder.AddFile | src/offspot_config/builder.py:419-437 | the attributes and the exception are those of `BuilderSpec.AddFile` |
| Builder.ConfigBuilder.AddZim | src/offspot_config/builder.py:241-288 | the attributes and the exception are those of `BuilderSpec.AddZim` |
| Builder.ConfigBuilder.AddCard | src/offspot_config/builder.py:242-243 | the cards become those of `BuilderSpec.WithCard` |
| Builder.ConfigBuilder.AddKiwixService | src/offspot_config/builder.py:253-288 | the attributes become those of `BuilderSpec.AddKiwix` |
| Builder.ConfigBuilder.ServeZimDownloads | src/offspot_config/builder.py:284-286 | the attributes become those of `BuilderSpec.ServeZimDownloads` |
| Builder.ConfigBuilder.AddFilesPackage | src/offspot_config/builder.py:374-388 | the attributes and the exception are those of `BuilderSpec.AddFilesPackage` |
| Builder.ConfigBuilder.ServeFilesPackage | src/offspot_config/builder.py:380-388 | the attributes become those of `BuilderSpec.FilesPackageSteps` |
| Builder.ConfigBuilder.AddFileEntry | src/offspot_config/builder.py:381-382 | the files become those of `BuilderSpec.WithFile` |
| Builder.ConfigBuilder.ServeFiles | src/offspot_config/builder.py:384-388 | the attributes become those of `BuilderSpec.FilesServed` |
| Builder.ConfigBuilder.AddApp | src/offspot_config/builder.py:290-372 | the attributes and the exception are those of `BuilderApp.AddApp`, the work done before an exception included |
| Builder.ConfigBuilder.AppEnvironment | src/offspot_config/builder.py:311-337 | the three update loops build exactly `BuilderApp.AppEnvironment` |
| Builder.ConfigBuilder.InstallApp | src/offspot_config/builder.py:301-372 | the attributes and the exception are those of `BuilderApp.AppSteps` |
| Builder.ConfigBuilder.LinkApp | src/offspot_config/builder.py:355-372 | the attributes and the exception are those of `BuilderApp.AppLinked` |
| Builder.ConfigBuilder.ResolveLinks | src/offspot_config/builder.py:356-359 | only the app's service changes, gaining its resolved links when it lists some |
| Builder.ConfigBuilder.RegisterApp | src/offspot_config/builder.py:297-310 | the attributes become those of `BuilderApp.AppInstalled` |
| Builder.ConfigBuilder.VolumeMounts | src/offspot_config/builder.py:340-353 | the loop yields the mounts and the error of `BuilderApp.Volumes` |
| Builder.ConfigBuilder.AddSubServices | src/offspot_config/builder.py:362-370 | the reverse-proxied names and the error are those of `BuilderApp.SubServices`; nothing else changes |
| Builder.ConfigBuilder.GetMinSize | src/offspot_config/builder.py:456-467 | the builder's minimum size is `BuilderRender.GetMinSize` of its attributes |
| Builder.ConfigBuilder.GenDashboardConfig | src/offspot_config/builder.py:119-141 | the attributes and the exception are those of `BuilderRender.GenDashboardConfig` |
| Builder.ConfigBuilder.Render | src/offspot_config/builder.py:469-496 | the attributes and the exception are those of `BuilderRender.Render` |
| Builder.SubServicesLoop | src/offspot_config/builder.py:362-370 | the loop yields the names and the error of `BuilderApp.SubServices` |

## Left out

- Command-line parsing, `sys.exit`, logging and colours on the terminal, every file read and write, and every subprocess are left out. This covers `systemctl`, `ifconfig`, `iptables`, `rfkill`, `hostnamectl`, `timedatectl` and `dnsmasq --test`. File contents are parameters and results. The exit codes of the programs a command runs are parameters.
- The dhcpcd restart and the five-second wait after it, in both ethernet commands: side effects with no result.
- `get_ip_address` (an ioctl) is the parameter `addressOf`.
- The hostapd and dnsmasq configuration templates, and the syntax test run on them: the model stops at the fields that fill the templates.
- YAML parsing and dumping: `read_from` starts from the parsed mapping, and `render` stops before the dump, whose text is a parameter where the dashboard file needs it.
- The dashboard entries that `gen_dashboard_config` would write. The call to `to_dashboard_entry` leaves out its required `kiwix_domain` argument, so any card makes `render` raise TypeError (`BuilderRender.RenderWithCardsRaises`). The entry dictionaries of the cards are therefore never built.
- `update_offspot_config(**kwargs)`: the manifest's `offspot` section is modelled only through its access-point fields, and the ethernet type and timezone it starts with are not kept.
- `fqdn` is `BuilderSpec.Fqdn`, a helper without a contract of its own. What it yields is stated through `BuilderSpec.ResolvedMacros` and the services that use it.
- Floating point: `int(0.1 * x)` is `x / 10` for non-negative `x`. The two differ only near 2^52.
- Library behaviour stands in as plain functions:
  - humanfriendly's `parse_size`, `read_checksum_from`, `get_online_rsc_size`, `get_base64_from`, the ZIM ident helpers, `sanitize_filename` and `uuid4` are uninterpreted fields of `Collaborators.Env`;
  - `pathlib` is lexical, with no symbolic links and the working directory as a parameter;
  - `urllib.parse` is reduced to scheme, location and path;
  - `shutil.get_unpack_formats` is the fixed set of zip, tar, gztar, bztar and xztar.
- Text handling is narrower than Python's:
  - `splitlines` separators other than '\n' are not modelled;
  - Unicode classes of `\s` and `\d` are reduced to ASCII white space and digits;
  - there is no Unicode case folding;
  - `str(list)` quotes every item with single quotes (`ConfigEthernet.ListText`), whatever the item holds.
- The `isinstance` checks of `CheckResponse` and `is_valid_compose` are not modelled: the types of the arguments are fixed. The same holds for the `isinstance(routers, list)` check of the runtime_config ethernet command.
- Hash order of Python sets: where `render` walks `reversed_services` and `get_min_size` walks the image set, the order of the walk is a parameter. That order is any enumeration of the set.
- `OCIImage.__hash__`: the images form a Dafny set of values, so equality is on all four fields, and the ident-only hash has no counterpart.
- Files.PyInt: the non-ASCII decimal digits that `int()` also accepts are not modelled, only ASCII digits with underscores between them.
- Catalog.UpdateStep: stores a package under its own ident, which the constructor takes from `entry["ident"]`. The model does not separate the two.
- ConfigHostname.Configure: the text of the invalid-hostname message is not modelled, only that the command exits as invalid.
- Hosts.HostsTextReadBack: stated for a hosts file that ends with a newline and a hostname without one. RE_HOSTNAME's `$` also accepts a name that ends in "\n", which writes an extra blank line.
- DhcpcdProperties.ArmorSettles: stated for files that hold each armor line at most once. When a stop line repeats before the start line, a second repair can be needed.
- DhcpcdProperties.SplicedIdempotent: stated for files whose last line is not empty.
- RuntimeEthernet.ReapplyStable: stated for files whose last line is not empty.
- MainConfigs.NewMainConfig: models the current post-init. The older variant derives its base file with `LegacyGetBaseFrom`, which is stated on its own and not plugged into `NewMainConfig`.

## Findings

| source | as written | input that shows it | evidently intended | confidence | as-written member | corrected member |
|---|---|---|---|---|---|---|
| src/offspot_runtime_config/offspot_config_lib.py:89-101 | RE_IP has only non-capturing groups, so `match.groups()` is empty and the octet range loop never runs; any text RE_IP matches passes | "0.0.0.0" and "255.255.255.255" pass `is_valid_ip` | each octet checked, refusing the unspecified and broadcast addresses | high, not executed | ConfigLib.IsValidIpAsWritten | ConfigLib.IsValidIp |
| src/offspot_runtime_config/ethernet.py:128-133 | the DNS servers are checked as `str(dns).split(" ")`, whose first piece starts with `[` | static settings with address "192.168.2.1", router "192.168.2.254" and DNS ["1.1.1.1"] are refused as "Invalid dns address: ['1.1.1.1']" | each server of the list checked with `is_valid_ip` | high, not executed | ConfigEthernet.StaticRefusedAsWritten | ConfigEthernet.CheckInputs |
| src/offspot_runtime/hostname.py:43-52 | the file is split with `splitlines()`, which drops the line ends, and written back with `"".join`, which glues the lines together | "127.0.0.1\tlocalhost\n127.0.1.1\told\n" becomes "127.0.0.1\tlocalhost127.0.1.1\tnew\n" | every untouched line kept with its newline | high, not executed | RuntimeHostname.MergedAsWritten | RuntimeHostname.Configure |
| src/offspot_runtime_config/ap.py:315-316 | the access-point command checks its address with the `is_valid_ip` of the first row, which accepts any text RE_IP matches | `--address 0.0.0.0` with a valid SSID, no passphrase and channel 6 is configured | the address refused with "Invalid IPv4 address" | high, not executed | ConfigAp.UnspecifiedAcceptedAsWritten | ConfigAp.InputFailure |
