// The hostname commands: after `hostnamectl` sets the name, both rewrite
// `/etc/hosts` so that every `127.0.1.1` entry names the new host, adding one
// entry when there is none. The runtime command checks the name with
// `is_valid_hostname`; the runtime-config command checks it inline with the
// same lengths and pattern. The hosts file's text and `hostnamectl`'s exit
// code are parameters, the text written a result.

module Hosts {
  import opened Strings
  import opened Lines

  /** `re.match(r"^127.0.1.1", line)`: each unescaped '.' of the pattern matches any character but a newline. */
  predicate LoopbackLine(line: string)
  {
    |line| >= 9 && line[0] == '1' && line[1] == '2' && line[2] == '7' && line[3] != '\n'
    && line[4] == '0' && line[5] != '\n' && line[6] == '1' && line[7] != '\n' && line[8] == '1'
  }

  /** The entry `main` writes for the hostname. */
  function HostsLine(hostname: string): string
  {
    "127.0.1.1\t" + hostname + "\n"
  }

  /** The new entry is a loopback entry, and a single terminated line for a hostname without newline. */
  lemma HostsLineShape(hostname: string)
    ensures LoopbackLine(HostsLine(hostname))
    ensures '\n' !in hostname ==> Terminated(HostsLine(hostname))
  {
    var line := HostsLine(hostname);
    assert line[..|line| - 1] == "127.0.1.1\t" + hostname;
  }

  predicate HasLoopback(hosts: seq<string>)
  {
    exists k :: 0 <= k < |hosts| && LoopbackLine(hosts[k])
  }

  /** The lines with every loopback entry replaced by the new entry. */
  function Replaced(hosts: seq<string>, hostname: string): (r: seq<string>)
    ensures |r| == |hosts|
    ensures forall k :: 0 <= k < |r| ==> r[k] == if LoopbackLine(hosts[k]) then HostsLine(hostname) else hosts[k]
  {
    seq(|hosts|, k requires 0 <= k < |hosts| => if LoopbackLine(hosts[k]) then HostsLine(hostname) else hosts[k])
  }

  /** The lines `main` writes: loopback entries replaced, or the new entry appended when there was none. */
  function UpdatedHosts(hosts: seq<string>, hostname: string): seq<string>
  {
    var replaced := Replaced(hosts, hostname);
    if HasLoopback(hosts) then replaced else replaced + [HostsLine(hostname)]
  }

  /** `main`'s loop over the hosts lines, then its append. */
  method UpdateHosts(hosts: seq<string>, hostname: string) returns (r: seq<string>)
    ensures r == UpdatedHosts(hosts, hostname)
  {
    r := hosts;
    var existing := false;
    var newLine := "127.0.1.1\t" + hostname + "\n";
    for i := 0 to |hosts|
      invariant |r| == |hosts|
      invariant forall k :: 0 <= k < i ==> r[k] == if LoopbackLine(hosts[k]) then newLine else hosts[k]
      invariant forall k :: i <= k < |hosts| ==> r[k] == hosts[k]
      invariant existing <==> exists k :: 0 <= k < i && LoopbackLine(hosts[k])
    {
      if LoopbackLine(hosts[i]) {
        r := r[i := newLine];
        existing := true;
      }
    }
    assert r == Replaced(hosts, hostname);
    if !existing {
      r := r + [newLine];
    }
  }

  /**
   * The written lines keep every other line in place, hold the new entry,
   * and name the host in every loopback entry; one line is added exactly
   * when there was no loopback entry.
   */
  lemma UpdatedMeaning(hosts: seq<string>, hostname: string)
    ensures var r := UpdatedHosts(hosts, hostname);
            |r| == |hosts| + (if HasLoopback(hosts) then 0 else 1)
            && (forall k :: 0 <= k < |hosts| && !LoopbackLine(hosts[k]) ==> r[k] == hosts[k])
            && HostsLine(hostname) in r
            && (forall k :: 0 <= k < |r| && LoopbackLine(r[k]) ==> r[k] == HostsLine(hostname))
  {
    HostsLineShape(hostname);
    var r := UpdatedHosts(hosts, hostname);
    if HasLoopback(hosts) {
      var k :| 0 <= k < |hosts| && LoopbackLine(hosts[k]);
      assert r[k] == HostsLine(hostname);
    } else {
      assert r[|hosts|] == HostsLine(hostname);
    }
  }

  /** Writing the same hostname again changes nothing. */
  lemma UpdateIdempotent(hosts: seq<string>, hostname: string)
    ensures UpdatedHosts(UpdatedHosts(hosts, hostname), hostname) == UpdatedHosts(hosts, hostname)
  {
    UpdateLastWins(hosts, hostname, hostname);
  }

  /** Writing a second hostname gives the same lines as writing only that one. */
  lemma UpdateLastWins(hosts: seq<string>, first: string, second: string)
    ensures UpdatedHosts(UpdatedHosts(hosts, first), second) == UpdatedHosts(hosts, second)
  {
    HostsLineShape(first);
    HostsLineShape(second);
    var once := UpdatedHosts(hosts, first);
    var r := Replaced(once, second);
    assert HasLoopback(once) by {
      if HasLoopback(hosts) {
        var k :| 0 <= k < |hosts| && LoopbackLine(hosts[k]);
        assert LoopbackLine(once[k]);
      } else {
        assert LoopbackLine(once[|hosts|]);
      }
    }
    if HasLoopback(hosts) {
      assert r == Replaced(hosts, second);
    } else {
      assert r == Replaced(hosts, second) + [HostsLine(second)];
    }
  }

  /** The new text of `/etc/hosts` read with `readlines()`: its terminated lines updated and joined. */
  function HostsText(text: string, hostname: string): string
  {
    Concat(UpdatedHosts(ReadLines(text), hostname))
  }

  /** The lines of a line-ended text are all terminated. */
  lemma EndedLines(text: string)
    requires text == "" || text[|text| - 1] == '\n'
    ensures forall k :: 0 <= k < |ReadLines(text)| ==> Terminated(ReadLines(text)[k])
  {
  }

  /** Updating terminated lines with a hostname without newline keeps every line terminated. */
  lemma UpdatedTerminated(hosts: seq<string>, hostname: string)
    requires '\n' !in hostname && forall k :: 0 <= k < |hosts| ==> Terminated(hosts[k])
    ensures forall k :: 0 <= k < |UpdatedHosts(hosts, hostname)| ==> Terminated(UpdatedHosts(hosts, hostname)[k])
  {
    HostsLineShape(hostname);
  }

  /** A line-ended hosts file, rewritten, reads back as its updated lines. */
  lemma HostsTextReadBack(text: string, hostname: string)
    requires '\n' !in hostname && (text == "" || text[|text| - 1] == '\n')
    ensures ReadLines(HostsText(text, hostname)) == UpdatedHosts(ReadLines(text), hostname)
  {
    EndedLines(text);
    UpdatedTerminated(ReadLines(text), hostname);
    ConcatReadLines(UpdatedHosts(ReadLines(text), hostname));
  }

  /** Rewriting a line-ended hosts file twice with the same hostname writes the same text. */
  lemma HostsTextIdempotent(text: string, hostname: string)
    requires '\n' !in hostname && (text == "" || text[|text| - 1] == '\n')
    ensures HostsText(HostsText(text, hostname), hostname) == HostsText(text, hostname)
  {
    HostsTextReadBack(text, hostname);
    UpdateIdempotent(ReadLines(text), hostname);
  }
}

/** The `offspot_runtime` hostname command. */
module RuntimeHostname {
  import opened Wrappers
  import opened Strings
  import opened Lines
  import opened Checks
  import opened Hosts

  /** As written: the lines come from `splitlines()`, without terminators, and are joined with `"".join`. */
  function HostsTextAsWritten(text: string, hostname: string): string
  {
    Concat(UpdatedHosts(SplitLines(text), hostname))
  }

  /** Two lines, each ended by a newline, split into the two. */
  lemma TwoLines(a: string, b: string)
    requires '\n' !in a && '\n' !in b
    ensures SplitLines(a + "\n" + (b + "\n")) == [a, b]
    ensures ReadLines(a + "\n" + (b + "\n")) == [a + "\n", b + "\n"]
  {
    var ls := [a, b] + [""];
    assert ls[1..][1..] == [""];
    assert Join(ls[1..], "\n") == b + "\n";
    assert Join(ls, "\n") == a + "\n" + (b + "\n");
    JoinedLinesNewline([a, b]);
    assert Terminated(a + "\n") by {
      assert (a + "\n")[..|a|] == a;
    }
    assert Terminated(b + "\n") by {
      assert (b + "\n")[..|b|] == b;
    }
    ConcatReadLines([a + "\n", b + "\n"]);
    assert Concat([a + "\n", b + "\n"]) == a + "\n" + (b + "\n") by {
      assert [a + "\n", b + "\n"][1..] == [b + "\n"];
      assert Concat([b + "\n"]) == b + "\n";
    }
  }

  /**
   * As written, an entry before the loopback entry loses its line end: for
   * "127.0.0.1\tlocalhost\n127.0.1.1\told\n" the command writes the two
   * entries on one line. Read with `readlines()`, the line is kept.
   */
  lemma MergedAsWritten(entry: string, loopback: string, hostname: string)
    requires '\n' !in entry && '\n' !in loopback && !LoopbackLine(entry) && LoopbackLine(loopback)
    ensures HostsTextAsWritten(entry + "\n" + (loopback + "\n"), hostname) == entry + HostsLine(hostname)
    ensures HostsText(entry + "\n" + (loopback + "\n"), hostname) == entry + "\n" + HostsLine(hostname)
  {
    TwoLines(entry, loopback);
    LoopbackEnded(entry);
    LoopbackEnded(loopback);
    UpdatedPair(entry, loopback, hostname);
    UpdatedPair(entry + "\n", loopback + "\n", hostname);
    ConcatPair(entry, HostsLine(hostname));
    ConcatPair(entry + "\n", HostsLine(hostname));
  }

  /** A line ending added to a line without one does not change whether it is a loopback entry. */
  lemma LoopbackEnded(line: string)
    requires '\n' !in line
    ensures LoopbackLine(line + "\n") <==> LoopbackLine(line)
  {
    var e := line + "\n";
    if |line| < 9 {
      assert |line| == 8 ==> e[8] == '\n';
    } else {
      assert e[..9] == line[..9];
    }
  }

  /** A plain line and a loopback entry: the entry is replaced and nothing appended. */
  lemma UpdatedPair(plain: string, loopback: string, hostname: string)
    requires !LoopbackLine(plain) && LoopbackLine(loopback)
    ensures UpdatedHosts([plain, loopback], hostname) == [plain, HostsLine(hostname)]
  {
    assert HasLoopback([plain, loopback]) by {
      assert LoopbackLine([plain, loopback][1]);
    }
  }

  lemma ConcatPair(x: string, y: string)
    ensures Concat([x, y]) == x + y
  {
    assert [x, y][1..] == [y];
    assert Concat([y]) == y;
  }

  /**
   * `main`: exit code 2 with the check's help text for a refused name, 1
   * when `hostnamectl` fails, otherwise 0 with the new hosts text, its lines
   * read with their terminators.
   */
  method Configure(hostname: string, setCode: int, hosts: string) returns (code: int, written: Option<string>)
    ensures !IsValidHostname(hostname).passed ==> code == 2 && written == None
    ensures IsValidHostname(hostname).passed && setCode != 0 ==> code == 1 && written == None
    ensures IsValidHostname(hostname).passed && setCode == 0 ==>
              code == 0 && written == Some(HostsText(hosts, hostname))
  {
    var check := IsValidHostname(hostname);
    if !check.passed {
      return 2, None;
    }
    if setCode != 0 {
      return 1, None;
    }
    var lines := ReadLines(hosts);
    lines := UpdateHosts(lines, hostname);
    return 0, Some(Concat(lines));
  }
}

/** The `offspot_runtime_config` hostname command, with its inline check of the name. */
module ConfigHostname {
  import opened Wrappers
  import opened Strings
  import opened Lines
  import opened Checks
  import opened Hosts

  /**
   * The inline check of `main`: the name's length, the number of labels,
   * the shortest and longest label, then RE_HOSTNAME; the same check as
   * `is_valid_hostname`.
   */
  method CheckHostname(name: string) returns (ok: bool)
    ensures ok <==> IsValidHostname(name).passed
  {
    var labels := Split(name, '.');
    var shortest := |labels[0]|;
    var longest := |labels[0]|;
    ghost var shortestAt := 0;
    ghost var longestAt := 0;
    for i := 1 to |labels|
      invariant 0 <= shortestAt < i && |labels[shortestAt]| == shortest
      invariant 0 <= longestAt < i && |labels[longestAt]| == longest
      invariant forall k :: 0 <= k < i ==> shortest <= |labels[k]| <= longest
    {
      if |labels[i]| < shortest {
        shortest, shortestAt := |labels[i]|, i;
      }
      if |labels[i]| > longest {
        longest, longestAt := |labels[i]|, i;
      }
    }
    ok := !(|name| > 255 || |labels| > 64 || shortest < 1 || longest > 63 || !FullMatch(name, HostnamePattern));
  }

  /**
   * `main`: exit code 2 for a refused name, 1 when `hostnamectl` fails,
   * otherwise 0 with the new hosts text.
   */
  method Configure(hostname: string, setCode: int, hosts: string) returns (code: int, written: Option<string>)
    ensures !IsValidHostname(hostname).passed ==> code == 2 && written == None
    ensures IsValidHostname(hostname).passed && setCode != 0 ==> code == 1 && written == None
    ensures IsValidHostname(hostname).passed && setCode == 0 ==>
              code == 0 && written == Some(HostsText(hosts, hostname))
  {
    var ok := CheckHostname(hostname);
    if !ok {
      return 2, None;
    }
    if setCode != 0 {
      return 1, None;
    }
    var lines := ReadLines(hosts);
    lines := UpdateHosts(lines, hostname);
    return 0, Some(Concat(lines));
  }
}
