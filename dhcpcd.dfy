/**
 * The dhcpcd configuration file as both ethernet commands edit it: a pair of
 * armor lines fences the block the commands own, `ensure_dhcpcd_conf_armor`
 * repairs a file whose armor is missing or out of order, and
 * `write_dhcpcd_conf` splices a network configuration between the armor
 * lines. The file is its text; `splitlines` and `"\n".join` are the ones of
 * the Lines module.
 */
module Dhcpcd {
  import opened Wrappers
  import opened Strings
  import opened Lines

  const ArmorStart := "### config-network: start ###"
  const ArmorEnd := "### config-network: stop ###"
  /** The interface line the repair adds when the file names none. */
  const DefaultInterface := "interface eth0"

  // ------------------------------------------------------------ list edits

  /** `lines.index(x)`: the position of the first occurrence of `x`. */
  function IndexIn(lines: seq<string>, x: string): (i: nat)
    requires x in lines
    ensures i < |lines| && lines[i] == x && x !in lines[..i]
  {
    if lines[0] == x then 0
    else
      var j := IndexIn(lines[1..], x);
      assert lines[..j + 1] == [lines[0]] + lines[1..][..j];
      j + 1
  }

  /** A position holding `x` with no `x` before it is the one `lines.index` finds. */
  lemma FirstIndex(lines: seq<string>, x: string, i: nat)
    requires i < |lines| && lines[i] == x && x !in lines[..i]
    ensures IndexIn(lines, x) == i
  {
  }

  /** `lines.remove(x)`: the list without its first occurrence of `x`. */
  function Removed(lines: seq<string>, x: string): (r: seq<string>)
    requires x in lines
    ensures |r| == |lines| - 1
    ensures multiset(r) == multiset(lines) - multiset{x}
  {
    var i := IndexIn(lines, x);
    assert lines == lines[..i] + [x] + lines[i + 1..];
    lines[..i] + lines[i + 1..]
  }

  /** Removing one line keeps every other line the list holds. */
  lemma RemovedKeeps(lines: seq<string>, x: string, y: string)
    requires x in lines && y != x
    ensures y in Removed(lines, x) <==> y in lines
  {
    var r := Removed(lines, x);
    assert multiset(r)[y] == multiset(lines)[y];
  }

  /** The two armor lines differ. */
  lemma ArmorsDiffer()
    ensures ArmorStart != ArmorEnd
  {
    assert |ArmorStart| != |ArmorEnd|;
  }

  /** `x in lines` and `lines.index(x)`, by a scan from the front. */
  method FindLine(lines: seq<string>, x: string) returns (i: Option<nat>)
    ensures i.Some? <==> x in lines
    ensures i.Some? ==> i.value == IndexIn(lines, x)
  {
    var k := 0;
    while k < |lines|
      invariant k <= |lines| && x !in lines[..k]
    {
      if lines[k] == x {
        FirstIndex(lines, x, k);
        return Some(k);
      }
      k := k + 1;
    }
    assert lines[..k] == lines;
    return None;
  }

  /** `lines.remove(x)` on a list that holds `x`. */
  method RemoveLine(lines: seq<string>, x: string) returns (r: seq<string>)
    requires x in lines
    ensures r == Removed(lines, x)
  {
    var i := FindLine(lines, x);
    r := lines[..i.value] + lines[i.value + 1..];
  }

  // ------------------------------------------------------- interface lines

  /** `re.split(r"\s", line)[0]`: the text before the first whitespace character. */
  function FirstWord(line: string): (r: string)
    ensures |r| <= |line| && line[..|r|] == r
    ensures forall i :: 0 <= i < |r| ==> !IsSpace(r[i])
    ensures |r| < |line| ==> IsSpace(line[|r|])
  {
    if |line| == 0 || IsSpace(line[0]) then "" else [line[0]] + FirstWord(line[1..])
  }

  /** The comprehension's test: the line's first token, stripped, is "interface". */
  predicate InterfaceLine(line: string)
  {
    Strip(FirstWord(line)) == "interface"
  }

  predicate HasInterface(lines: seq<string>)
  {
    exists k :: 0 <= k < |lines| && InterfaceLine(lines[k])
  }

  /** Text without whitespace is its own strip. */
  lemma StripSpaceFree(s: string)
    requires forall i :: 0 <= i < |s| ==> !IsSpace(s[i])
    ensures Strip(s) == s
  {
  }

  /** A line names an interface exactly when it is "interface" or starts with "interface" and a whitespace character. */
  lemma InterfaceLineMeaning(line: string)
    ensures InterfaceLine(line) <==>
              line == "interface" || (|line| > 9 && line[..9] == "interface" && IsSpace(line[9]))
  {
    var w := FirstWord(line);
    StripSpaceFree(w);
    if |line| >= 9 && line[..9] == "interface" {
      InterfacePrefix(line);
    }
  }

  /** A line starting with "interface" has it as its first word, unless a non-space follows. */
  lemma InterfacePrefix(line: string)
    requires |line| >= 9 && line[..9] == "interface"
    ensures |line| == 9 || IsSpace(line[9]) ==> FirstWord(line) == "interface"
  {
    var w := FirstWord(line);
    forall i | 0 <= i < 9
      ensures !IsSpace(line[i])
    {
      assert line[i] == "interface"[i];
    }
    if |line| == 9 || IsSpace(line[9]) {
      assert |w| <= 9;
      assert w == line[..|w|];
    }
  }

  /** `has_iface` by a scan over the lines. */
  method HasInterfaceLine(lines: seq<string>) returns (found: bool)
    ensures found <==> HasInterface(lines)
  {
    found := false;
    var k := 0;
    while k < |lines|
      invariant k <= |lines|
      invariant found <==> exists j :: 0 <= j < k && InterfaceLine(lines[j])
    {
      if Strip(FirstWord(lines[k])) == "interface" {
        found := true;
      }
      k := k + 1;
    }
  }

  // ----------------------------------------------------------------- armor

  /** The state in which `ensure_dhcpcd_conf_armor` leaves the file alone. */
  predicate Armored(lines: seq<string>)
  {
    ArmorStart in lines && ArmorEnd in lines
    && IndexIn(lines, ArmorStart) < IndexIn(lines, ArmorEnd) && HasInterface(lines)
  }

  /** `if x in lines: lines.remove(x)`. */
  function Without(lines: seq<string>, x: string): seq<string>
  {
    if x in lines then Removed(lines, x) else lines
  }

  /** The lines once the first occurrence of each armor line present is removed. */
  function Unarmored(lines: seq<string>): seq<string>
  {
    Without(Without(lines, ArmorStart), ArmorEnd)
  }

  /** The repair: the lines without their armor, an interface line when none was there, then the armor. */
  function Repaired(lines: seq<string>): (r: seq<string>)
    ensures |r| >= 2 && r[|r| - 2] == ArmorStart && r[|r| - 1] == ArmorEnd
  {
    var bare := Unarmored(lines);
    (if HasInterface(lines) then bare else bare + [DefaultInterface]) + [ArmorStart] + [ArmorEnd]
  }

  /** What `ensure_dhcpcd_conf_armor` writes: nothing for an armored file, else the repaired lines. */
  function ArmorFix(text: string): Option<string>
  {
    var lines := SplitLines(text);
    if Armored(lines) then None else Some(Join(Repaired(lines), "\n"))
  }

  /** The file once `ensure_dhcpcd_conf_armor` has run. */
  function AfterArmor(text: string): string
  {
    match ArmorFix(text)
    case None => text
    case Some(written) => written
  }

  /** The repair of lines that are not armored: the removals and appends of `ensure_dhcpcd_conf_armor`. */
  method RepairLines(lines: seq<string>, hasStart: bool, hasEnd: bool, hasIface: bool) returns (r: seq<string>)
    requires hasStart == (ArmorStart in lines) && hasEnd == (ArmorEnd in lines)
    requires hasIface == HasInterface(lines)
    ensures r == Repaired(lines)
  {
    ArmorsDiffer();
    r := lines;
    if hasStart && hasEnd {
      r := RemoveLine(r, ArmorStart);
      RemovedKeeps(lines, ArmorStart, ArmorEnd);
      r := RemoveLine(r, ArmorEnd);
    } else if hasStart {
      r := RemoveLine(r, ArmorStart);
      RemovedKeeps(lines, ArmorStart, ArmorEnd);
    } else if hasEnd {
      r := RemoveLine(r, ArmorEnd);
    }
    assert r == Unarmored(lines);
    if !hasIface {
      r := r + [DefaultInterface];
    }
    r := r + [ArmorStart];
    r := r + [ArmorEnd];
  }

  /**
   * `ensure_dhcpcd_conf_armor` on the file's text: whether it repaired the
   * armor, and the text it wrote if it did.
   */
  method EnsureArmor(text: string) returns (fixed: bool, written: Option<string>)
    ensures written == ArmorFix(text)
    ensures fixed <==> written.Some?
  {
    var lines := SplitLines(text);
    var start := FindLine(lines, ArmorStart);
    var end := FindLine(lines, ArmorEnd);
    var hasIface := HasInterfaceLine(lines);
    if start.Some? && end.Some? && start.value < end.value && hasIface {
      return false, None;
    }
    lines := RepairLines(lines, start.Some?, end.Some?, hasIface);
    return true, Some(Join(lines, "\n"));
  }

  // ---------------------------------------------------------------- splice

  /** The ValueError `lines.index(line)` raises for a missing line. */
  function MissingLine(line: string): Error
  {
    ValueError("'" + line + "' is not in list")
  }

  /** The lines `write_dhcpcd_conf` writes: the file's own around the armor, the configuration's inside it. */
  function SplicedLines(lines: seq<string>, conf: string): seq<string>
    requires ArmorStart in lines && ArmorEnd in lines
  {
    var start := IndexIn(lines, ArmorStart);
    var stop := IndexIn(lines, ArmorEnd) + 1;
    var newLines := lines[..start] + [ArmorStart] + SplitLines(conf) + [ArmorEnd] + lines[stop..];
    if lines[|lines| - 1] != "" then newLines + [""] else newLines
  }

  /** `write_dhcpcd_conf(conf)`: the new file text, or the ValueError of a missing armor line. */
  function Spliced(text: string, conf: string): Result<string>
  {
    var lines := SplitLines(text);
    if ArmorStart !in lines then Err(MissingLine(ArmorStart))
    else if ArmorEnd !in lines then Err(MissingLine(ArmorEnd))
    else Ok(Join(SplicedLines(lines, conf), "\n"))
  }

  /** `write_dhcpcd_conf`, step by step. */
  method WriteConf(text: string, conf: string) returns (r: Result<string>)
    ensures r == Spliced(text, conf)
  {
    var lines := SplitLines(text);
    var start := FindLine(lines, ArmorStart);
    if start.None? {
      return Err(MissingLine(ArmorStart));
    }
    var end := FindLine(lines, ArmorEnd);
    if end.None? {
      return Err(MissingLine(ArmorEnd));
    }
    var stop := end.value + 1;
    var newLines := lines[..start.value] + [ArmorStart] + SplitLines(conf) + [ArmorEnd] + lines[stop..];
    if lines[|lines| - 1] != "" {
      newLines := newLines + [""];
    }
    assert newLines == SplicedLines(lines, conf);
    return Ok(Join(newLines, "\n"));
  }
}

/** What the armor repair and the splice guarantee about the file. */
module DhcpcdProperties {
  import opened Wrappers
  import opened Strings
  import opened Lines
  import opened Dhcpcd

  /** Lines free of '\n', as `splitlines` returns them. */
  predicate SingleLines(lines: seq<string>)
  {
    forall k :: 0 <= k < |lines| ==> '\n' !in lines[k]
  }

  /** `lines` without any armor line. */
  function WithoutArmor(lines: seq<string>): (r: seq<string>)
    ensures ArmorStart !in r && ArmorEnd !in r
  {
    if |lines| == 0 then []
    else if lines[0] == ArmorStart || lines[0] == ArmorEnd then WithoutArmor(lines[1..])
    else [lines[0]] + WithoutArmor(lines[1..])
  }

  lemma {:induction false} WithoutArmorConcat(a: seq<string>, b: seq<string>)
    ensures WithoutArmor(a + b) == WithoutArmor(a) + WithoutArmor(b)
    decreases |a|
  {
    if |a| > 0 {
      assert (a + b)[1..] == a[1..] + b;
      WithoutArmorConcat(a[1..], b);
    } else {
      assert a + b == b;
    }
  }

  /** Lines holding no armor line are their own filtering. */
  lemma {:induction false} WithoutArmorNone(lines: seq<string>)
    requires ArmorStart !in lines && ArmorEnd !in lines
    ensures WithoutArmor(lines) == lines
    decreases |lines|
  {
    if |lines| > 0 {
      assert lines[1..] == lines[1..];
      WithoutArmorNone(lines[1..]);
    }
  }

  /** Removing an armor line changes nothing else. */
  lemma RemovedArmor(lines: seq<string>, x: string)
    requires x in lines && (x == ArmorStart || x == ArmorEnd)
    ensures WithoutArmor(Removed(lines, x)) == WithoutArmor(lines)
  {
    var i := IndexIn(lines, x);
    assert lines == lines[..i] + ([x] + lines[i + 1..]);
    WithoutArmorConcat(lines[..i], [x] + lines[i + 1..]);
    WithoutArmorConcat([x], lines[i + 1..]);
    WithoutArmorConcat(lines[..i], lines[i + 1..]);
  }

  /** A line that occurs at most once is gone once removed. */
  lemma RemovedOnce(lines: seq<string>, x: string)
    requires x in lines && multiset(lines)[x] <= 1
    ensures x !in Removed(lines, x)
  {
    assert multiset(Removed(lines, x))[x] == 0;
  }

  /** Every line of the removal is a line of the list. */
  lemma RemovedFrom(lines: seq<string>, x: string)
    requires x in lines
    ensures forall y :: y in Removed(lines, x) ==> y in lines
  {
    forall y | y in Removed(lines, x)
      ensures y in lines
    {
      assert multiset(Removed(lines, x))[y] > 0;
    }
  }

  /** Lines in which each armor line occurs at most once, as the repair expects. */
  predicate ArmorOnce(lines: seq<string>)
  {
    multiset(lines)[ArmorStart] <= 1 && multiset(lines)[ArmorEnd] <= 1
  }

  /** Removing an armor line that occurs at most once leaves the other lines of the list, and no copy of it. */
  lemma WithoutOnce(lines: seq<string>, x: string)
    requires x == ArmorStart || x == ArmorEnd
    requires multiset(lines)[x] <= 1
    ensures x !in Without(lines, x)
    ensures WithoutArmor(Without(lines, x)) == WithoutArmor(lines)
  {
    if x in lines {
      RemovedArmor(lines, x);
      RemovedOnce(lines, x);
    }
  }

  /** With each armor line at most once, removing them leaves exactly the other lines. */
  lemma UnarmoredOthers(lines: seq<string>)
    requires ArmorOnce(lines)
    ensures Unarmored(lines) == WithoutArmor(lines)
  {
    var once := Without(lines, ArmorStart);
    WithoutOnce(lines, ArmorStart);
    ArmorsDiffer();
    assert multiset(once)[ArmorEnd] == multiset(lines)[ArmorEnd] by {
      if ArmorStart in lines {
        assert multiset(once) == multiset(lines) - multiset{ArmorStart};
      }
    }
    WithoutOnce(once, ArmorEnd);
    var bare := Without(once, ArmorEnd);
    assert ArmorStart !in bare by {
      if ArmorEnd in once {
        RemovedKeeps(once, ArmorEnd, ArmorStart);
      }
    }
    WithoutArmorNone(bare);
  }

  /**
   * The repair keeps every line that is not an armor line, in order, adds
   * "interface eth0" only when no line named an interface, and ends with the
   * armor.
   */
  lemma RepairKeepsLines(lines: seq<string>)
    requires ArmorOnce(lines)
    ensures Repaired(lines) ==
              (if HasInterface(lines) then WithoutArmor(lines) else WithoutArmor(lines) + [DefaultInterface])
              + [ArmorStart] + [ArmorEnd]
  {
    UnarmoredOthers(lines);
  }

  /** Lines that are not armor lines survive the filtering. */
  lemma {:induction false} WithoutArmorHas(lines: seq<string>, y: string)
    requires y in lines && y != ArmorStart && y != ArmorEnd
    ensures y in WithoutArmor(lines)
    decreases |lines|
  {
    if lines[0] != y {
      WithoutArmorHas(lines[1..], y);
    }
  }

  /** "interface eth0" names an interface. */
  lemma DefaultNamesInterface()
    ensures InterfaceLine(DefaultInterface)
  {
    InterfaceLineMeaning(DefaultInterface);
    assert DefaultInterface[..9] == "interface";
  }

  /** A line naming an interface is no armor line. */
  lemma InterfaceNotArmor(line: string)
    requires InterfaceLine(line)
    ensures line != ArmorStart && line != ArmorEnd
  {
    InterfaceLineMeaning(line);
    assert line[0] == 'i' by {
      if line != "interface" {
        assert line[..9][0] == 'i';
      }
    }
  }

  /** Lines that name an interface and hold no armor line are armored once the armor follows them. */
  lemma ArmorAppended(body: seq<string>)
    requires ArmorStart !in body && ArmorEnd !in body && HasInterface(body)
    ensures Armored(body + [ArmorStart] + [ArmorEnd])
  {
    var r := body + [ArmorStart] + [ArmorEnd];
    assert r[..|r| - 2] == body && r[..|r| - 1] == body + [ArmorStart];
    FirstIndex(r, ArmorStart, |r| - 2);
    FirstIndex(r, ArmorEnd, |r| - 1);
    var k :| 0 <= k < |body| && InterfaceLine(body[k]);
    assert r[k] == body[k];
  }

  /** With each armor line at most once, the repaired lines are armored. */
  lemma RepairArmors(lines: seq<string>)
    requires ArmorOnce(lines)
    ensures Armored(Repaired(lines))
  {
    RepairKeepsLines(lines);
    BodyArmored(lines);
  }

  /** The lines the repair keeps, with the interface line it may add, followed by the armor. */
  lemma BodyArmored(lines: seq<string>)
    ensures Armored((if HasInterface(lines) then WithoutArmor(lines) else WithoutArmor(lines) + [DefaultInterface])
                    + [ArmorStart] + [ArmorEnd])
  {
    var w := WithoutArmor(lines);
    BodyNamesInterface(lines);
    if HasInterface(lines) {
      ArmorAppended(w);
    } else {
      ArmorAppended(w + [DefaultInterface]);
    }
  }

  /** The lines the repair keeps, with the interface line it may add, name an interface. */
  lemma BodyNamesInterface(lines: seq<string>)
    ensures HasInterface(if HasInterface(lines) then WithoutArmor(lines) else WithoutArmor(lines) + [DefaultInterface])
  {
    var w := WithoutArmor(lines);
    if HasInterface(lines) {
      var k :| 0 <= k < |lines| && InterfaceLine(lines[k]);
      InterfaceNotArmor(lines[k]);
      WithoutArmorHas(lines, lines[k]);
      var j :| 0 <= j < |w| && w[j] == lines[k];
    } else {
      DefaultNamesInterface();
      assert (w + [DefaultInterface])[|w|] == DefaultInterface;
    }
  }

  /** Every line the removals keep is a line of the file. */
  lemma UnarmoredFrom(lines: seq<string>)
    ensures forall y :: y in Unarmored(lines) ==> y in lines
  {
    var once := Without(lines, ArmorStart);
    if ArmorStart in lines {
      RemovedFrom(lines, ArmorStart);
    }
    if ArmorEnd in once {
      RemovedFrom(once, ArmorEnd);
    }
  }

  /** The constant lines are single lines. */
  lemma ConstantsSingle()
    ensures '\n' !in ArmorStart && '\n' !in ArmorEnd && '\n' !in DefaultInterface
  {
  }

  /** The removals keep lines free of '\n'. */
  lemma UnarmoredSingle(lines: seq<string>)
    requires SingleLines(lines)
    ensures SingleLines(Unarmored(lines))
  {
    var u := Unarmored(lines);
    UnarmoredFrom(lines);
    forall k | 0 <= k < |u|
      ensures '\n' !in u[k]
    {
      assert u[k] in u;
      var j :| 0 <= j < |lines| && lines[j] == u[k];
    }
  }

  /** The repair keeps lines free of '\n'. */
  lemma RepairedSingle(lines: seq<string>)
    requires SingleLines(lines)
    ensures SingleLines(Repaired(lines))
  {
    UnarmoredSingle(lines);
    ConstantsSingle();
    var u := Unarmored(lines);
    var body := if HasInterface(lines) then u else u + [DefaultInterface];
    assert SingleLines(body);
    assert Repaired(lines) == body + [ArmorStart] + [ArmorEnd];
  }

  /** The file the repair writes reads back as the repaired lines. */
  lemma ArmorFixReadBack(text: string)
    ensures ArmorFix(text).Some? ==> SplitLines(ArmorFix(text).value) == Repaired(SplitLines(text))
  {
    var lines := SplitLines(text);
    if !Armored(lines) {
      RepairedSingle(lines);
      JoinedLines(Repaired(lines));
    }
  }

  /**
   * Once `ensure_dhcpcd_conf_armor` has run, the file holds both armor
   * lines, so the `write_dhcpcd_conf` that follows never raises.
   */
  lemma ArmorThenSpliceOk(text: string, conf: string)
    ensures ArmorStart in SplitLines(AfterArmor(text)) && ArmorEnd in SplitLines(AfterArmor(text))
    ensures Spliced(AfterArmor(text), conf).Ok?
  {
    ArmorFixReadBack(text);
    var r := Repaired(SplitLines(text));
    assert r[|r| - 2] == ArmorStart && r[|r| - 1] == ArmorEnd;
  }

  /** With each armor line at most once, a second `ensure_dhcpcd_conf_armor` finds nothing to repair. */
  lemma ArmorSettles(text: string)
    requires ArmorOnce(SplitLines(text))
    ensures ArmorFix(AfterArmor(text)) == None
  {
    ArmorFixReadBack(text);
    if !Armored(SplitLines(text)) {
      RepairArmors(SplitLines(text));
    }
  }

  /**
   * The guard on each armor line is needed: a stop line repeated before the
   * start line is still before it after the repair, which removes only the
   * first copy.
   */
  lemma StrayStopUnsettled(iface: string)
    requires InterfaceLine(iface)
    ensures var lines := [iface, ArmorEnd, ArmorEnd, ArmorStart];
            !Armored(lines) && Repaired(lines) == [iface, ArmorEnd] + [ArmorStart] + [ArmorEnd]
            && !Armored(Repaired(lines))
  {
    InterfaceNotArmor(iface);
    ArmorsDiffer();
    StrayStopFile(iface);
    StrayStopRepaired(iface);
    StrayStopStillOut(iface);
  }

  /** The stop line comes first in the file of `StrayStopUnsettled`. */
  lemma StrayStopFile(iface: string)
    requires iface != ArmorEnd
    ensures !Armored([iface, ArmorEnd, ArmorEnd, ArmorStart])
  {
    var lines := [iface, ArmorEnd, ArmorEnd, ArmorStart];
    assert lines[..1] == [iface];
    FirstIndex(lines, ArmorEnd, 1);
  }

  /** The repair of that file removes the start line and the first stop line only. */
  lemma StrayStopRepaired(iface: string)
    requires InterfaceLine(iface) && iface != ArmorStart && iface != ArmorEnd && ArmorStart != ArmorEnd
    ensures Repaired([iface, ArmorEnd, ArmorEnd, ArmorStart]) == [iface, ArmorEnd] + [ArmorStart] + [ArmorEnd]
  {
    var lines := [iface, ArmorEnd, ArmorEnd, ArmorStart];
    var once := [iface, ArmorEnd, ArmorEnd];
    assert lines[..3] == once;
    WithoutAt(lines, ArmorStart, 3);
    assert once[..1] == [iface];
    WithoutAt(once, ArmorEnd, 1);
    assert InterfaceLine(lines[0]);
    RepairedNamed(lines, [iface, ArmorEnd]);
  }

  /** Removing a line found at `i`, with no copy before it. */
  lemma WithoutAt(lines: seq<string>, x: string, i: nat)
    requires i < |lines| && lines[i] == x && x !in lines[..i]
    ensures Without(lines, x) == lines[..i] + lines[i + 1..]
  {
    FirstIndex(lines, x, i);
  }

  /** The repair of lines that name an interface is their unarmored lines, then the armor. */
  lemma RepairedNamed(lines: seq<string>, bare: seq<string>)
    requires Unarmored(lines) == bare && HasInterface(lines)
    ensures Repaired(lines) == bare + [ArmorStart] + [ArmorEnd]
  {
  }

  /** The repaired file still has a stop line before its start line. */
  lemma StrayStopStillOut(iface: string)
    requires iface != ArmorEnd
    ensures !Armored([iface, ArmorEnd] + [ArmorStart] + [ArmorEnd])
  {
    var r := [iface, ArmorEnd] + [ArmorStart] + [ArmorEnd];
    assert r[..1] == [iface];
    FirstIndex(r, ArmorEnd, 1);
  }




  // ---------------------------------------------------------------- splice

  /** The file's lines after its first stop line, less a final empty line. */
  function After(lines: seq<string>, e: nat): seq<string>
    requires e < |lines| && lines[e] != ""
  {
    if lines[|lines| - 1] == "" then lines[e + 1..|lines| - 1] else lines[e + 1..]
  }

  /** The lines `write_dhcpcd_conf` reads back, as a function of the file's lines. */
  function ReadBack(lines: seq<string>, conf: string): seq<string>
    requires ArmorStart in lines && ArmorEnd in lines
  {
    var s := IndexIn(lines, ArmorStart);
    var e := IndexIn(lines, ArmorEnd);
    lines[..s] + [ArmorStart] + SplitLines(conf) + [ArmorEnd] + After(lines, e)
  }

  /** The spliced lines are the lines read back and one final empty line. */
  lemma SplicedShape(lines: seq<string>, conf: string)
    requires ArmorStart in lines && ArmorEnd in lines
    ensures SplicedLines(lines, conf) == ReadBack(lines, conf) + [""]
  {
    var e := IndexIn(lines, ArmorEnd);
    if lines[|lines| - 1] == "" {
      assert lines[e + 1..] == After(lines, e) + [""];
    }
  }

  /** The lines read back are single lines when the file's are. */
  lemma ReadBackSingle(lines: seq<string>, conf: string)
    requires ArmorStart in lines && ArmorEnd in lines && SingleLines(lines)
    ensures SingleLines(ReadBack(lines, conf))
  {
    ConstantsSingle();
    var s := IndexIn(lines, ArmorStart);
    var e := IndexIn(lines, ArmorEnd);
    assert SingleLines(lines[..s]) && SingleLines(After(lines, e));
  }

  /**
   * The file `write_dhcpcd_conf` writes reads back as the lines before the
   * first start line, the start line, the configuration's lines, the stop
   * line, and the lines after the first stop line; a final empty line of
   * the file is not read back, as `splitlines` drops it.
   */
  lemma SplicedReadBack(text: string, conf: string)
    requires ArmorStart in SplitLines(text) && ArmorEnd in SplitLines(text)
    ensures Spliced(text, conf).Ok? && SplitLines(Spliced(text, conf).value) == ReadBack(SplitLines(text), conf)
  {
    var lines := SplitLines(text);
    SplicedShape(lines, conf);
    ReadBackSingle(lines, conf);
    JoinedLinesNewline(ReadBack(lines, conf));
  }

  /**
   * Writing the same configuration twice writes the same file, for a file
   * whose start line comes before its stop line, whose last line is not
   * empty, and a configuration holding no armor line.
   */
  lemma SplicedIdempotent(text: string, conf: string)
    requires ArmorStart in SplitLines(text) && ArmorEnd in SplitLines(text)
    requires IndexIn(SplitLines(text), ArmorStart) < IndexIn(SplitLines(text), ArmorEnd)
    requires SplitLines(text)[|SplitLines(text)| - 1] != ""
    requires ArmorStart !in SplitLines(conf) && ArmorEnd !in SplitLines(conf)
    ensures Spliced(text, conf).Ok? && Spliced(Spliced(text, conf).value, conf) == Spliced(text, conf)
  {
    SplicedReadBack(text, conf);
    SpliceTwice(text, Spliced(text, conf).value, conf);
  }

  /** A file spliced once, from lines that read back stably, is written again unchanged. */
  lemma SpliceTwice(text: string, once: string, conf: string)
    requires ArmorStart in SplitLines(text) && ArmorEnd in SplitLines(text)
    requires IndexIn(SplitLines(text), ArmorStart) < IndexIn(SplitLines(text), ArmorEnd)
    requires SplitLines(text)[|SplitLines(text)| - 1] != ""
    requires ArmorStart !in SplitLines(conf) && ArmorEnd !in SplitLines(conf)
    requires Spliced(text, conf) == Ok(once) && SplitLines(once) == ReadBack(SplitLines(text), conf)
    ensures Spliced(once, conf) == Ok(once)
  {
    ReadBackStable(SplitLines(text), conf);
    SameSplice(text, once, conf);
  }

  /** A file whose lines splice as the original's is written as the original's. */
  lemma SameSplice(text: string, once: string, conf: string)
    requires ArmorStart in SplitLines(text) && ArmorEnd in SplitLines(text)
    requires ArmorStart in SplitLines(once) && ArmorEnd in SplitLines(once)
    requires Spliced(text, conf) == Ok(once)
    requires SplicedLines(SplitLines(once), conf) == SplicedLines(SplitLines(text), conf)
    ensures Spliced(once, conf) == Ok(once)
  {
    SplicedOfLines(once, conf, SplitLines(once));
    SplicedOfLines(text, conf, SplitLines(text));
  }

  /** `write_dhcpcd_conf` on a file whose lines are known. */
  lemma SplicedOfLines(text: string, conf: string, lines: seq<string>)
    requires SplitLines(text) == lines && ArmorStart in lines && ArmorEnd in lines
    ensures Spliced(text, conf) == Ok(Join(SplicedLines(lines, conf), "\n"))
  {
  }

  /** The lines read back, spliced again with the same configuration, give the same lines. */
  lemma ReadBackStable(lines: seq<string>, conf: string)
    requires ArmorStart in lines && ArmorEnd in lines
    requires IndexIn(lines, ArmorStart) < IndexIn(lines, ArmorEnd)
    requires lines[|lines| - 1] != ""
    requires ArmorStart !in SplitLines(conf) && ArmorEnd !in SplitLines(conf)
    ensures ArmorStart in ReadBack(lines, conf) && ArmorEnd in ReadBack(lines, conf)
            && SplicedLines(ReadBack(lines, conf), conf) == SplicedLines(lines, conf)
  {
    var s := IndexIn(lines, ArmorStart);
    var e := IndexIn(lines, ArmorEnd);
    StopNotBefore(lines, s, e);
    StableParts(lines, conf, lines[..s], lines[e + 1..]);
  }

  /** `ReadBackStable` with the parts of the file named. */
  lemma StableParts(lines: seq<string>, conf: string, pre: seq<string>, post: seq<string>)
    requires ArmorStart in lines && ArmorEnd in lines
    requires lines[|lines| - 1] != ""
    requires ArmorStart !in SplitLines(conf) && ArmorEnd !in SplitLines(conf)
    requires pre == lines[..IndexIn(lines, ArmorStart)] && post == lines[IndexIn(lines, ArmorEnd) + 1..]
    requires ArmorStart !in pre && ArmorEnd !in pre
    ensures ArmorStart in ReadBack(lines, conf) && ArmorEnd in ReadBack(lines, conf)
            && SplicedLines(ReadBack(lines, conf), conf) == SplicedLines(lines, conf)
  {
    var x := pre + [ArmorStart] + SplitLines(conf) + [ArmorEnd] + post;
    ReadBackParts(lines, conf, pre, post, x);
    SplicedShape(lines, conf);
    SpliceOfParts(pre, conf, post, x);
  }

  /** No stop line comes before a position that precedes the first stop line. */
  lemma StopNotBefore(lines: seq<string>, s: nat, e: nat)
    requires s <= e < |lines| && ArmorEnd !in lines[..e]
    ensures ArmorEnd !in lines[..s]
  {
    assert lines[..s] == lines[..e][..s];
  }

  /** With a last line that is not empty, the lines read back keep all the lines after the stop line. */
  lemma ReadBackParts(lines: seq<string>, conf: string, pre: seq<string>, post: seq<string>, x: seq<string>)
    requires ArmorStart in lines && ArmorEnd in lines
    requires lines[|lines| - 1] != ""
    requires pre == lines[..IndexIn(lines, ArmorStart)] && post == lines[IndexIn(lines, ArmorEnd) + 1..]
    requires x == pre + [ArmorStart] + SplitLines(conf) + [ArmorEnd] + post
    ensures ReadBack(lines, conf) == x
    ensures post == [] || post[|post| - 1] != ""
  {
    var e := IndexIn(lines, ArmorEnd);
    assert After(lines, e) == lines[e + 1..] == post;
    if post != [] {
      assert post[|post| - 1] == lines[|lines| - 1];
    }
  }

  /** Splicing lines whose armor holds exactly the configuration's lines leaves them as they are. */
  lemma SpliceOfParts(pre: seq<string>, conf: string, post: seq<string>, n: seq<string>)
    requires ArmorStart !in pre && ArmorEnd !in pre
    requires ArmorStart !in SplitLines(conf) && ArmorEnd !in SplitLines(conf)
    requires post == [] || post[|post| - 1] != ""
    requires n == pre + [ArmorStart] + SplitLines(conf) + [ArmorEnd] + post
    ensures ArmorStart in n && ArmorEnd in n && SplicedLines(n, conf) == n + [""]
  {
    var c := SplitLines(conf);
    assert n[..|pre|] == pre;
    FirstIndex(n, ArmorStart, |pre|);
    assert n[..|pre| + 1 + |c|] == pre + [ArmorStart] + c;
    FirstIndex(n, ArmorEnd, |pre| + 1 + |c|);
    assert n[|pre| + 2 + |c|..] == post;
    assert n[|n| - 1] != "";
  }
}
