/** VMX text spelled out: what is printed, which lines count, and what each key does. */
module VmxText {
  import opened Wrappers
  import opened Text
  import opened Decimals
  import opened VmxAdvanced
  import opened Vmx

  // ----- Printing -----

  function Setting(key: string, value: string): string {
    key + " = \"" + value + "\""
  }

  function OptionalSetting(key: string, o: Option<string>): seq<string> {
    if o.Some? then [Setting(key, o.value)] else []
  }

  /** Two lines for each forward, one for each disk, numbered from zero. */
  function ForwardLines(fs: seq<(u16, u16)>): seq<string> {
    if fs == [] then []
    else
      var i := |fs| - 1;
      ForwardLines(fs[..i])
      + [Setting("advanced.forward" + Print(i) + ".host", Print(fs[i].0)),
         Setting("advanced.forward" + Print(i) + ".guest", Print(fs[i].1))]
  }

  function DiskLines(ds: seq<string>): seq<string> {
    seq(|ds|, i requires 0 <= i < |ds| => Setting("advanced.disk" + Print(i) + ".path", ds[i]))
  }

  function GeneralLines(c: VmConfig): seq<string> {
    [Setting("config.version", "8"), Setting("virtualHW.version", "19"), Setting("uuid.bios", c.id),
     Setting("displayName", c.name), Setting("numvcpus", Print(c.cpuCores)), Setting("memsize", Print(c.ramSizeMb)),
     Setting("vm.dir", c.vmDir)]
  }

  function OptionLines(c: VmConfig): seq<string> {
    OptionalSetting("guestOS", c.osType) + OptionalSetting("firmware", c.firmware)
    + OptionalSetting("disk.sizeGB", if c.diskSizeGb.Some? then Some(Print(c.diskSizeGb.value)) else None)
  }

  function IsoLines(c: VmConfig): seq<string> {
    if c.isoPath.None? then []
    else [Setting("ide1:0.deviceType", "cdrom-image"), Setting("ide1:0.fileName", c.isoPath.value),
          Setting("ide1:0.present", "TRUE")]
  }

  function DriveLines(c: VmConfig): seq<string> {
    if c.diskPath.None? then []
    else [Setting("scsi0:0.fileName", c.diskPath.value), Setting("scsi0:0.present", "TRUE")]
  }

  function NetworkLines(c: VmConfig): seq<string> {
    [Setting("ethernet0.connectionType", c.networkMode), Setting("ethernet0.present", "TRUE")]
  }

  function AdvancedLines(a: AdvancedConfig): seq<string> {
    [Setting("advanced.audio", if a.audioEnabled then "true" else "false"),
     Setting("advanced.shutdown_timeout", Print(a.shutdownTimeout))]
    + ForwardLines(a.portForwards) + DiskLines(a.additionalDisks)
  }

  lemma {:induction false} ForwardsAsPrinted(fs: seq<(u16, u16)>)
    ensures PrintedLines(ForwardEntries(fs)) == ForwardLines(fs)
  {
    hide Print, PrintedLines;
    if fs == [] {
      NothingPrinted();
    } else {
      var front, last := fs[..|fs| - 1], fs[|fs| - 1];
      ForwardsAsPrinted(front);
      PairAsPrinted(|front|, last);
      PrintedAppend(ForwardEntries(front), ForwardPair(|front|, last));
    }
  }

  lemma NothingPrinted()
    ensures PrintedLines([]) == []
  {
  }

  lemma PairAsPrinted(i: nat, f: (u16, u16))
    ensures PrintedLines(ForwardPair(i, f)) ==
            [Setting("advanced.forward" + Print(i) + ".host", Print(f.0)),
             Setting("advanced.forward" + Print(i) + ".guest", Print(f.1))]
  {
    hide Print;
  }

  lemma {:induction false} DisksAsPrinted(ds: seq<string>)
    ensures PrintedLines(DiskEntries(ds)) == DiskLines(ds)
  {
    hide Print;
    if ds != [] {
      var front, last := ds[..|ds| - 1], ds[|ds| - 1];
      DisksAsPrinted(front);
      PrintedAppend(DiskEntries(front), [(DiskKey(|front|), last)]);
      assert DiskLines(ds) == DiskLines(front) + [Setting("advanced.disk" + Print(|front|) + ".path", last)];
    }
  }

  lemma PrintedAppend(a: seq<Entry>, b: seq<Entry>)
    ensures PrintedLines(a + b) == PrintedLines(a) + PrintedLines(b)
  {
  }

  lemma AdvancedAsPrinted(a: AdvancedConfig)
    ensures PrintedLines(AdvancedEntries(a)) == AdvancedLines(a)
  {
    var scalars :=
      [("advanced.audio", BoolText(a.audioEnabled)), ("advanced.shutdown_timeout", Print(a.shutdownTimeout))];
    ForwardsAsPrinted(a.portForwards);
    DisksAsPrinted(a.additionalDisks);
    PrintedAppend(scalars + ForwardEntries(a.portForwards), DiskEntries(a.additionalDisks));
    PrintedAppend(scalars, ForwardEntries(a.portForwards));
  }

  lemma NamedAppend(a: seq<KeyEntry>, b: seq<KeyEntry>)
    ensures PrintedLines(Named(a + b)) == PrintedLines(Named(a)) + PrintedLines(Named(b))
  {
  }

  lemma OneAsPrinted(k: Key, v: string)
    ensures PrintedLines(Named([(k, v)])) == [Setting(Name(k), v)]
  {
  }

  lemma OptionAsPrinted(k: Key, o: Option<string>)
    ensures PrintedLines(Named(OptionalEntry(k, o))) == OptionalSetting(Name(k), o)
  {
    hide Name;
    if o.Some? {
      OneAsPrinted(k, o.value);
    }
  }

  lemma TwoAsPrinted(k: Key, v: string, l: Key, w: string)
    ensures PrintedLines(Named([(k, v), (l, w)])) == [Setting(Name(k), v), Setting(Name(l), w)]
  {
    hide Name;
  }

  lemma ThreeAsPrinted(k: Key, v: string, l: Key, w: string, m: Key, x: string)
    ensures PrintedLines(Named([(k, v), (l, w), (m, x)])) ==
                [Setting(Name(k), v), Setting(Name(l), w), Setting(Name(m), x)]
  {
    hide Name;
  }

  lemma GeneralAsPrinted(c: VmConfig)
    ensures PrintedLines(Named(HeaderEntries(c) + MachineEntries(c))) == GeneralLines(c)
  {
    hide Print, PrintedLines, Named;
    NamedAppend(HeaderEntries(c), MachineEntries(c));
    TwoAsPrinted(ConfigVersion, "8", HardwareVersion, "19");
    TwoAsPrinted(Uuid, c.id, DisplayName, c.name);
    NamedAppend([(ConfigVersion, "8"), (HardwareVersion, "19")], [(Uuid, c.id), (DisplayName, c.name)]);
    ThreeAsPrinted(CpuCount, Print(c.cpuCores), MemorySize, Print(c.ramSizeMb), VmDir, c.vmDir);
    assert HeaderEntries(c) == [(ConfigVersion, "8"), (HardwareVersion, "19")] + [(Uuid, c.id), (DisplayName, c.name)];
  }

  lemma OptionsAsPrinted(c: VmConfig)
    ensures PrintedLines(Named(OptionEntries(c))) == OptionLines(c)
  {
    hide Print, PrintedLines, Named, OptionalEntry;
    OptionAsPrinted(GuestOs, c.osType);
    OptionAsPrinted(Firmware, c.firmware);
    OptionAsPrinted(DiskSize, DiskSizeText(c));
    NamedAppend(OptionalEntry(GuestOs, c.osType) + OptionalEntry(Firmware, c.firmware),
                OptionalEntry(DiskSize, DiskSizeText(c)));
    NamedAppend(OptionalEntry(GuestOs, c.osType), OptionalEntry(Firmware, c.firmware));
  }

  lemma DevicesAsPrinted(c: VmConfig)
    ensures PrintedLines(Named(IsoEntries(c))) == IsoLines(c)
    ensures PrintedLines(Named(DiskFileEntries(c))) == DriveLines(c)
    ensures PrintedLines(Named(NetworkEntries(c))) == NetworkLines(c)
  {
    hide PrintedLines, Named, Setting, IsoLines, IsoEntries;
    IsoAsPrinted(c);
    NoneAsPrinted();
    if c.diskPath.Some? {
      TwoAsPrinted(DiskFile, c.diskPath.value, DiskPresent, "TRUE");
    }
    TwoAsPrinted(NetworkType, c.networkMode, NetworkPresent, "TRUE");
  }

  lemma IsoAsPrinted(c: VmConfig)
    ensures PrintedLines(Named(IsoEntries(c))) == IsoLines(c)
  {
    hide PrintedLines, Named, Setting;
    NoneAsPrinted();
    if c.isoPath.Some? {
      ThreeAsPrinted(IsoType, "cdrom-image", IsoFile, c.isoPath.value, IsoPresent, "TRUE");
    }
  }

  lemma NoneAsPrinted()
    ensures PrintedLines(Named([])) == []
  {
  }

  /** The text of a configuration, line by line. */
  lemma TextAsPrinted(c: VmConfig)
    ensures ToVmx(c) == Join(GeneralLines(c) + OptionLines(c) + IsoLines(c) + DriveLines(c) + NetworkLines(c)
                             + AdvancedLines(c.advanced))
  {
    hide GeneralLines, OptionLines, IsoLines, DriveLines, NetworkLines, AdvancedLines;
    hide HeaderEntries, MachineEntries, OptionEntries, IsoEntries, DiskFileEntries, NetworkEntries, AdvancedEntries;
    hide PrintedLines, Named, Join;
    GeneralAsPrinted(c);
    OptionsAsPrinted(c);
    DevicesAsPrinted(c);
    AdvancedAsPrinted(c.advanced);
    var general := HeaderEntries(c) + MachineEntries(c);
    NamedAppend(general, OptionEntries(c));
    NamedAppend(general + OptionEntries(c), IsoEntries(c));
    NamedAppend(general + OptionEntries(c) + IsoEntries(c), DiskFileEntries(c));
    NamedAppend(general + OptionEntries(c) + IsoEntries(c) + DiskFileEntries(c), NetworkEntries(c));
    PrintedAppend(Named(PlainEntries(c)), AdvancedEntries(c.advanced));
  }

  // ----- Which lines count -----

  /** Blank lines, comments, and lines without an equals sign. */
  predicate IsIdle(line: string) {
    AllMatch(line, IsSpace) || '=' !in line || IsComment(line)
  }

  predicate IsComment(line: string) {
    line != "" && (line[0] == '#' || (IsSpace(line[0]) && IsComment(line[1..])))
  }

  lemma {:induction false} CommentIsTrimmed(line: string)
    requires IsComment(line)
    ensures Trim(line) != "" && Trim(line)[0] == '#'
  {
    if line[0] == '#' {
      TrimEndIsPrefix(line, IsSpace);
      TrimEndKeeps(line);
    } else {
      CommentIsTrimmed(line[1..]);
    }
  }

  lemma {:induction false} TrimEndKeeps(line: string)
    requires line != "" && !IsSpace(line[0])
    ensures TrimEnd(line, IsSpace) != ""
  {
    if IsSpace(line[|line| - 1]) {
      TrimEndKeeps(line[..|line| - 1]);
    }
  }

  lemma {:induction false} AllSpaceIsTrimmed(line: string)
    requires AllMatch(line, IsSpace)
    ensures Trim(line) == ""
  {
    assert line + "" == line;
    TrimStartOff(line, "", IsSpace);
  }

  lemma IdleIsSkipped(r: Reading, line: string)
    requires IsIdle(line)
    ensures ReadLine(r, line) == r
  {
    if AllMatch(line, IsSpace) {
      AllSpaceIsTrimmed(line);
    } else if IsComment(line) {
      CommentIsTrimmed(line);
    } else {
      TrimmedIsClean(line, IsSpace);
      assert '=' !in Trim(line);
      IndexOfMissing(Trim(line), '=');
    }
  }

  lemma StripCrIsIdle(line: string)
    requires IsIdle(line)
    ensures IsIdle(StripCr(line))
  {
    if IsComment(line) && StripCr(line) != line {
      CommentPrefix(line, StripCr(line));
    }
  }

  lemma {:induction false} CommentPrefix(line: string, front: string)
    requires IsComment(line) && front + "\r" == line
    ensures IsComment(front) || AllMatch(front, IsSpace)
  {
    if front != "" {
      assert front[0] == line[0] && front[1..] + "\r" == line[1..];
      if line[0] != '#' {
        CommentPrefix(line[1..], front[1..]);
        assert front == [front[0]] + front[1..];
      }
    }
  }

  lemma {:induction false} ReadLinesAppend(r: Reading, a: seq<string>, b: seq<string>)
    ensures ReadLines(r, a + b) == ReadLines(ReadLines(r, a), b)
  {
    if b == [] {
      assert a + b == a;
    } else {
      assert (a + b)[..|a + b| - 1] == a + b[..|b| - 1];
      ReadLinesAppend(r, a, b[..|b| - 1]);
    }
  }

  lemma FirstLine(line: string, rest: string)
    requires '\n' !in line
    ensures Lines(line + "\n" + rest) == [StripCr(line)] + Lines(rest)
  {
    var s := line + "\n" + rest;
    assert s == line + ['\n'] + rest;
    IndexOfAfter(line, '\n', rest);
    assert s[..|line|] == line && s[|line| + 1..] == rest;
  }

  lemma {:induction false} LinesAppend(x: string, y: string)
    ensures Lines(x + "\n" + y) == Lines(x + "\n") + Lines(y)
    decreases |x|
  {
    hide Lines, StripCr;
    var i := IndexOf(x, '\n');
    assert Lines("") == [] by { NoLines(); }
    if i == |x| {
      assert x[..i] == x;
      assert x + "\n" == x + "\n" + "";
      FirstLine(x, y);
      FirstLine(x, "");
    } else {
      var head, rest := x[..i], x[i + 1..];
      assert x + "\n" + y == head + "\n" + (rest + "\n" + y);
      assert x + "\n" == head + "\n" + (rest + "\n");
      FirstLine(head, rest + "\n" + y);
      FirstLine(head, rest + "\n");
      LinesAppend(rest, y);
    }
  }

  lemma NoLines()
    ensures Lines("") == []
  {
  }

  /** A line that is blank, a comment or without an equals sign can be put in anywhere. */
  lemma IdleLineDoesNotMatter(x: string, line: string, y: string)
    requires IsIdle(line) && '\n' !in line
    ensures FromVmx(x + "\n" + line + "\n" + y) == FromVmx(x + "\n" + y)
  {
    hide Configure, ReadLine, IsIdle;
    assert x + "\n" + line + "\n" + y == x + "\n" + (line + "\n" + y);
    LinesAppend(x, line + "\n" + y);
    LinesAppend(x, y);
    LinesAppend(line, y);
    assert line + "\n" == line + "\n" + "";
    FirstLine(line, "");
    StripCrIsIdle(line);
    var r := ReadLines(NOTHING_READ, Lines(x + "\n"));
    IdleIsSkipped(r, StripCr(line));
    assert [StripCr(line)][..0] == [];
    ReadLinesAppend(NOTHING_READ, Lines(x + "\n"), Lines(line + "\n") + Lines(y));
    ReadLinesAppend(r, Lines(line + "\n"), Lines(y));
    ReadLinesAppend(NOTHING_READ, Lines(x + "\n"), Lines(y));
  }

  lemma CoreParts(key: string, b: string, c: string, value: string)
    requires AllMatch(b, IsSpace) && AllMatch(c, IsSpace) && CleanKey(key) && CleanEnds(value, IsQuote)
    ensures var core := key + b + "=" + (c + ("\"" + value + "\""));
            && core != "" && core[0] == key[0] && core[|core| - 1] == '"'
            && SplitOnce(core, '=') == Some((key + b, c + ("\"" + value + "\"")))
  {
    var quoted := "\"" + value + "\"";
    var core := key + b + "=" + (c + quoted);
    assert '=' !in key + b by { assert !IsSpace('='); }
    assert core == (key + b) + ['='] + (c + quoted);
    SplitCons(key + b, '=', c + quoted);
  }

  lemma PartsTrimmed(key: string, b: string, c: string, value: string)
    requires AllMatch(b, IsSpace) && AllMatch(c, IsSpace) && CleanKey(key) && CleanEnds(value, IsQuote)
    ensures Trim(key + b) == key
    ensures TrimBoth(Trim(c + ("\"" + value + "\"")), IsQuote) == value
  {
    hide TrimBoth;
    var quoted := "\"" + value + "\"";
    assert !IsSpace('"');
    assert "" + key + b == key + b && c + quoted + "" == c + quoted;
    TrimAround("", key, b, IsSpace);
    TrimAround(c, quoted, "", IsSpace);
    TrimAround("\"", value, "\"", IsQuote);
  }

  /** A quoted setting is read as its key and value, whatever white space is around and inside it. */
  lemma SettingAsRead(r: Reading, a: string, key: string, b: string, c: string, value: string, d: string)
    requires AllMatch(a, IsSpace) && AllMatch(b, IsSpace) && AllMatch(c, IsSpace) && AllMatch(d, IsSpace)
    requires CleanKey(key) && CleanEnds(value, IsQuote)
    ensures ReadLine(r, a + (key + b + "=" + (c + ("\"" + value + "\""))) + d) ==
            if "advanced." <= key then r.(advanced := ReadAdvanced(r.advanced, key, value))
            else r.(keys := r.keys[key := value])
  {
    hide ReadAdvanced, TrimBoth, SplitOnce;
    var core := key + b + "=" + (c + ("\"" + value + "\""));
    CoreParts(key, b, c, value);
    PartsTrimmed(key, b, c, value);
    assert CleanEnds(core, IsSpace) by { assert !IsSpace('"'); }
    TrimAround(a, core, d, IsSpace);
    assert Trim(a + core + d) == core;
  }

  // ----- What each key does -----

  function ValueOf(r: Reading, key: string, absent: string): string {
    if key in r.keys then r.keys[key] else absent
  }

  function OptionOf(r: Reading, key: string, absent: Option<string>): Option<string> {
    if key in r.keys then Some(r.keys[key]) else absent
  }

  /** A number in decimal digits, with a value for an absent and one for a malformed number. */
  function NumberOf(r: Reading, key: string, max: nat, absent: nat, malformed: nat): nat {
    if key !in r.keys then absent
    else if Parse(r.keys[key], max).Some? then Parse(r.keys[key], max).value
    else malformed
  }

  /** Each field is read from its key, and has its default when the key is absent. */
  lemma FieldsAsRead(r: Reading)
    ensures var c := Configure(r);
            && c.id == ValueOf(r, "uuid.bios", "")
            && c.name == ValueOf(r, "displayName", "Default-VM")
            && c.osType == OptionOf(r, "guestOS", None)
            && c.cpuCores == NumberOf(r, "numvcpus", 0xFFFF_FFFF, 1, 1)
            && c.ramSizeMb == NumberOf(r, "memsize", 0xFFFF_FFFF_FFFF_FFFF, 512, 512)
            && c.vmDir == ValueOf(r, "vm.dir", "")
    ensures var c := Configure(r);
            && c.isoPath == OptionOf(r, "ide1:0.fileName", None)
            && c.diskPath == OptionOf(r, "scsi0:0.fileName", None)
            && c.diskSizeGb == (if "disk.sizeGB" in r.keys then Parse(r.keys["disk.sizeGB"], 0xFFFF_FFFF) else Some(20))
            && c.networkMode == ValueOf(r, "ethernet0.connectionType", "nat")
            && c.firmware == OptionOf(r, "firmware", Some("bios"))
            && c.advanced == r.advanced
  {
    hide Parse;
  }

  predicate IsEither(c: char, lower: char, upper: char) {
    c == lower || c == upper
  }

  /** Sound is on exactly when its value is the word "true", in capitals or not; the shutdown timeout is
      any 32-bit number, and other values leave it alone. */
  lemma ScalarsAsRead(a: AdvancedConfig, value: string)
    ensures ReadAdvanced(a, "advanced.audio", value) == a.(audioEnabled :=
              |value| == 4 && IsEither(value[0], 't', 'T') && IsEither(value[1], 'r', 'R')
              && IsEither(value[2], 'u', 'U') && IsEither(value[3], 'e', 'E'))
    ensures ReadAdvanced(a, "advanced.shutdown_timeout", value) ==
            if Parse(value, 0xFFFF_FFFF).Some? then a.(shutdownTimeout := Parse(value, 0xFFFF_FFFF).value) else a
  {
    hide Parse, Split;
    if Lower(value) == "true" {
      assert forall i | 0 <= i < 4 :: LowerChar(value[i]) == "true"[i];
    } else if |value| == 4 {
      assert exists i :: 0 <= i < 4 && LowerChar(value[i]) != "true"[i];
    }
    assert "advanced.audio"[9] == 'a' && "advanced.shutdown_timeout"[9] == 's';
  }

  /** One port of a forward: the list grows with empty forwards up to the index, and the rest of the
      list, and the other port, stay. A value that is no port only makes it grow. */
  lemma ForwardAsRead(a: AdvancedConfig, i: nat, isHost: bool, value: string)
    requires i <= USIZE_MAX
    ensures var key := "advanced.forward" + Print(i) + "." + (if isHost then "host" else "guest");
            var fs, gs := a.portForwards, ReadAdvanced(a, key, value).portForwards;
            && ReadAdvanced(a, key, value) == a.(portForwards := gs)
            && |gs| == (if |fs| > i then |fs| else i + 1)
            && (forall k | 0 <= k < |gs| && k != i :: gs[k] == if k < |fs| then fs[k] else (0, 0))
            && var slot := if i < |fs| then fs[i] else (0, 0);
               gs[i] == match Parse(value, 0xFFFF)
                        case None => slot
                        case Some(port) => if isHost then (port, slot.1) else (slot.0, port)
  {
    hide Parse, Print, ReadAdvanced;
    ReadForward(a, i, if isHost then "host" else "guest", value);
  }

  /** The same for disks, which take any path. */
  lemma DiskAsRead(a: AdvancedConfig, i: nat, value: string)
    requires i <= USIZE_MAX
    ensures var key := "advanced.disk" + Print(i) + "." + "path";
            var ds, es := a.additionalDisks, ReadAdvanced(a, key, value).additionalDisks;
            && ReadAdvanced(a, key, value) == a.(additionalDisks := es)
            && |es| == (if |ds| > i then |ds| else i + 1)
            && (forall k | 0 <= k < |es| && k != i :: es[k] == if k < |ds| then ds[k] else "")
            && es[i] == value
  {
    hide Print, ReadAdvanced;
    ReadDisk(a, i, "path", value);
  }
}
