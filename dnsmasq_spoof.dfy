// The spoof toggle of the dnsmasq configuration: the file is in spoof mode
// when a line starts with the catch-all address `address=/#/`; switching mode
// comments out every plain line and uncomments every `# `-commented one,
// leaving `##` comments alone. The status and configuration texts are
// parameters, the text written a result, and the restart's exit code a
// parameter.

module DnsmasqSpoof {
  import opened Wrappers
  import opened Strings
  import opened Lines
  import RuntimeAp

  /** The start of dnsmasq's catch-all address directive. */
  const SpoofPrefix := "address=/#/"

  /** Spoof mode: a line starts with the catch-all address. */
  predicate IsSpoof(lines: seq<string>)
  {
    exists k :: 0 <= k < |lines| && StartsWith(lines[k], SpoofPrefix)
  }

  /** The first loop of `toggle_dnsmasq`, which stops at the first catch-all line. */
  method DetectSpoof(lines: seq<string>) returns (isSpoof: bool)
    ensures isSpoof <==> IsSpoof(lines)
  {
    isSpoof := false;
    var i := 0;
    while i < |lines|
      invariant 0 <= i <= |lines|
      invariant forall k :: 0 <= k < i ==> !StartsWith(lines[k], SpoofPrefix)
    {
      if StartsWith(lines[i], SpoofPrefix) {
        isSpoof := true;
        break;
      }
      i := i + 1;
    }
  }

  /** `^#\s(?P<line>.+)$` on a line: a hash, a white-space character, then at least one character. */
  predicate Commented(line: string)
  {
    |line| >= 3 && line[0] == '#' && IsSpace(line[1])
  }

  /** One line of the toggle: `##` comments kept, commented lines uncommented, the others commented. */
  function ToggledLine(line: string): (r: string)
    ensures |r| > 0
    ensures '\n' !in line ==> '\n' !in r
  {
    if StartsWith(line, "##") then line
    else if Commented(line) then line[2..]
    else "# " + line
  }

  /** Lines the toggle restores when applied twice. */
  predicate Restorable(line: string)
  {
    StartsWith(line, "##")
    || (|line| > 0 && line[0] != '#')
    || (|line| > 2 && line[..2] == "# " && line[2] != '#')
  }

  /** Toggling twice gives back a `##` comment, a non-empty plain line, and a line commented by `# `. */
  lemma ToggleTwice(line: string)
    requires Restorable(line)
    ensures ToggledLine(ToggledLine(line)) == line
  {
    if StartsWith(line, "##") {
    } else if |line| > 0 && line[0] != '#' {
      var c := "# " + line;
      assert !StartsWith(c, "##") by {
        assert c[1] == ' ';
      }
      assert c[2..] == line;
    } else {
      var u := line[2..];
      assert !StartsWith(u, "##") by {
        assert u[0] != '#';
      }
      assert "# " + u == line;
    }
  }

  /** The new lines of `toggle_dnsmasq`: every line toggled, in order. */
  function ToggledAll(lines: seq<string>): (r: seq<string>)
    ensures |r| == |lines| && forall k :: 0 <= k < |r| ==> r[k] == ToggledLine(lines[k])
  {
    seq(|lines|, k requires 0 <= k < |lines| => ToggledLine(lines[k]))
  }

  /** The second loop of `toggle_dnsmasq`, which appends one toggled line at a time. */
  method ToggleLines(lines: seq<string>) returns (fixed: seq<string>)
    ensures fixed == ToggledAll(lines)
  {
    fixed := [];
    for i := 0 to |lines|
      invariant |fixed| == i && forall k :: 0 <= k < i ==> fixed[k] == ToggledLine(lines[k])
    {
      if StartsWith(lines[i], "##") {
        fixed := fixed + [lines[i]];
        continue;
      }
      if Commented(lines[i]) {
        fixed := fixed + [lines[i][2..]];
      } else {
        fixed := fixed + ["# " + lines[i]];
      }
    }
  }

  /** Toggling every line twice gives back lines that are all restorable. */
  lemma ToggleAllTwice(lines: seq<string>)
    requires forall k :: 0 <= k < |lines| ==> Restorable(lines[k])
    ensures ToggledAll(ToggledAll(lines)) == lines
  {
    forall k | 0 <= k < |lines|
      ensures ToggledAll(ToggledAll(lines))[k] == lines[k]
    {
      ToggleTwice(lines[k]);
    }
  }

  /** What `toggle_dnsmasq` writes: nothing when already in the requested mode, else the toggled lines. */
  function ToggleResult(content: string, spoof: bool): Option<string>
  {
    var lines := SplitLines(content);
    if spoof == IsSpoof(lines) then None else Some(Join(ToggledAll(lines), "\n"))
  }

  /** `toggle_dnsmasq` on the file's text: whether it changed it, and the text it wrote. */
  method Toggle(content: string, spoof: bool) returns (changed: bool, written: Option<string>)
    ensures written == ToggleResult(content, spoof)
    ensures changed <==> written.Some?
  {
    var lines := SplitLines(content);
    var isSpoof := DetectSpoof(lines);
    if (spoof && isSpoof) || (!spoof && !isSpoof) {
      return false, None;
    }
    var fixed := ToggleLines(lines);
    return true, Some(Join(fixed, "\n"));
  }

  /** The written file reads back as the toggled lines of the original, line for line. */
  lemma ToggleReadBack(content: string, spoof: bool)
    ensures ToggleResult(content, spoof).Some? ==>
              SplitLines(ToggleResult(content, spoof).value) == ToggledAll(SplitLines(content))
  {
    var t := ToggledAll(SplitLines(content));
    if |t| > 0 {
      JoinedLines(t);
    }
  }

  /**
   * On a file the access-point command wrote for one mode, the toggle to the
   * other mode writes what that command writes for the other mode, less its
   * final newline; the file is then in the requested mode, and a second
   * toggle to the same mode writes nothing.
   */
  lemma ApFileToggles(spoof: bool)
    ensures var text := RuntimeAp.SpoofConf(spoof);
            var other := RuntimeAp.SpoofConf(!spoof);
            ToggleResult(text, spoof).None?
            && ToggleResult(text, !spoof) == Some(other[..|other| - 1])
            && IsSpoof(SplitLines(other[..|other| - 1])) == !spoof
            && ToggleResult(other[..|other| - 1], !spoof).None?
  {
    var text := RuntimeAp.SpoofConf(spoof);
    var other := RuntimeAp.SpoofConf(!spoof);
    ApFileLines(spoof);
    ApFileLines(!spoof);
    ApLinesMode();
    ApLineToggled(spoof);
    OneLineToggle(text, ApLine(spoof), spoof);
    OneLineToggle(text, ApLine(spoof), !spoof);
    OneLineToggle(other[..|other| - 1], ApLine(!spoof), !spoof);
  }

  /** A one-line file toggles into its toggled line, unless already in the requested mode. */
  lemma OneLineToggle(text: string, line: string, spoof: bool)
    requires SplitLines(text) == [line]
    ensures ToggleResult(text, spoof) == if spoof == IsSpoof([line]) then None else Some(ToggledLine(line))
  {
    assert ToggledAll([line]) == [ToggledLine(line)];
  }

  /** The line of the access-point command's spoof file. */
  function ApLine(spoof: bool): string
  {
    if spoof then RuntimeAp.SpoofAddressLine else "# " + RuntimeAp.SpoofAddressLine
  }

  /** Toggling the line of one mode gives the line of the other. */
  lemma ApLineToggled(spoof: bool)
    ensures ToggledLine(ApLine(spoof)) == ApLine(!spoof)
  {
    var c := "# " + RuntimeAp.SpoofAddressLine;
    assert c[2..] == RuntimeAp.SpoofAddressLine;
    assert !StartsWith(c, "##") by {
      assert c[1] == ' ';
    }
  }

  /** The access-point command's spoof file is its one line and a newline, with or without the newline. */
  lemma ApFileLines(spoof: bool)
    ensures var text := RuntimeAp.SpoofConf(spoof);
            text == ApLine(spoof) + "\n" && text[..|text| - 1] == ApLine(spoof)
            && SplitLines(text) == [ApLine(spoof)] && SplitLines(ApLine(spoof)) == [ApLine(spoof)]
  {
    var line := ApLine(spoof);
    assert '\n' !in line;
    JoinedLinesNewline([line]);
    JoinedLines([line]);
    assert Join([line] + [""], "\n") == line + "\n" by {
      assert ([line] + [""])[1..] == [""];
    }
    assert (line + "\n")[..|line|] == line;
  }

  /** The spoof line starts with the catch-all address; its commented form does not. */
  lemma ApLinesMode()
    ensures IsSpoof([ApLine(true)]) && !IsSpoof([ApLine(false)])
  {
    assert [ApLine(true)][0] == ApLine(true);
    assert StartsWith(ApLine(true), SpoofPrefix);
    assert ApLine(false)[0] != SpoofPrefix[0];
  }

  /** `main`'s decision: spoof unless the connectivity status reads `online`. */
  predicate WantSpoof(status: string)
  {
    Strip(status) != "online"
  }

  /**
   * `main`: the status text and the configuration's text are `None` when
   * they cannot be read (`fail_error`, exit code 1); a toggle restarts
   * dnsmasq, whose failure also exits with 1.
   */
  method Configure(status: Option<string>, content: Option<string>, restartCode: int)
    returns (code: int, written: Option<string>)
    ensures written == if status.Some? && content.Some?
                       then ToggleResult(content.value, WantSpoof(status.value)) else None
    ensures code == 0 <==> status.Some? && content.Some? && (written.None? || restartCode == 0)
    ensures code == 0 || code == 1
  {
    if status.None? {
      return 1, None;
    }
    var spoof := Strip(status.value) != "online";
    if content.None? {
      return 1, None;
    }
    var fixed;
    fixed, written := Toggle(content.value, spoof);
    if !fixed {
      return 0, written;
    }
    if restartCode != 0 {
      return 1, written;
    }
    return 0, written;
  }
}
