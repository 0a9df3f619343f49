/** The printing and reading loops, proved to compute the functions of Vmx and VmxAdvanced. */
module VmxProgram {
  import opened Wrappers
  import opened Text
  import opened Decimals
  import opened VmxAdvanced
  import opened Vmx

  /** Advanced settings that are filled in line by line. */
  class AdvancedSettings {
    var audioEnabled: bool
    var shutdownTimeout: u32
    var portForwards: seq<(u16, u16)>
    var additionalDisks: seq<string>

    function Value(): AdvancedConfig
      reads this
    {
      AdvancedConfig(audioEnabled, shutdownTimeout, portForwards, additionalDisks)
    }

    constructor ()
      ensures Value() == DEFAULT_ADVANCED
    {
      audioEnabled, shutdownTimeout, portForwards, additionalDisks := false, 30, [], [];
    }

    method ParseVmxLine(key: string, value: string)
      modifies this
      ensures Value() == ReadAdvanced(old(Value()), key, value)
    {
      if key == "advanced.audio" {
        audioEnabled := Lower(value) == "true";
      } else if key == "advanced.shutdown_timeout" {
        var v := Parse(value, U32_MAX);
        if v.Some? {
          shutdownTimeout := v.value;
        }
      } else if StartsWith(key, "advanced.forward") {
        SecondPart(key, "forward");
        var parts := Split(key, '.');
        if |parts| == 3 {
          var idx := Parse(parts[1][7..], USIZE_MAX);
          if idx.Some? {
            StoreForward(idx.value, parts[2], value);
          }
        }
      } else if StartsWith(key, "advanced.disk") {
        SecondPart(key, "disk");
        var parts := Split(key, '.');
        if |parts| == 3 {
          var idx := Parse(parts[1][4..], USIZE_MAX);
          if idx.Some? {
            StoreDisk(idx.value, parts[2], value);
          }
        }
      }
    }

    method StoreForward(idx: nat, field: string, value: string)
      requires idx <= USIZE_MAX
      modifies this`portForwards
      ensures Value() == WithForward(old(Value()), idx, field, value)
    {
      while |portForwards| <= idx
        invariant Grow(portForwards, idx + 1, (0, 0)) == Grow(old(portForwards), idx + 1, (0, 0))
        decreases idx + 1 - |portForwards|
      {
        portForwards := portForwards + [(0, 0)];
      }
      var port := Parse(value, U16_MAX);
      if port.Some? {
        if field == "host" {
          portForwards := portForwards[idx := (port.value, portForwards[idx].1)];
        } else if field == "guest" {
          portForwards := portForwards[idx := (portForwards[idx].0, port.value)];
        }
      }
    }

    method StoreDisk(idx: nat, field: string, value: string)
      requires idx <= USIZE_MAX
      modifies this`additionalDisks
      ensures Value() == WithDisk(old(Value()), idx, field, value)
    {
      while |additionalDisks| <= idx
        invariant Grow(additionalDisks, idx + 1, "") == Grow(old(additionalDisks), idx + 1, "")
        decreases idx + 1 - |additionalDisks|
      {
        additionalDisks := additionalDisks + [""];
      }
      if field == "path" {
        additionalDisks := additionalDisks[idx := value];
      }
    }
  }

  method AdvancedLines(a: AdvancedConfig) returns (lines: seq<string>)
    ensures lines == PrintedLines(AdvancedEntries(a))
  {
    hide Line, HostKey, GuestKey, DiskKey, Print, BoolText;
    ghost var es := [("advanced.audio", BoolText(a.audioEnabled)),
                     ("advanced.shutdown_timeout", Print(a.shutdownTimeout))];
    lines := [Line(("advanced.audio", BoolText(a.audioEnabled))),
             Line(("advanced.shutdown_timeout", Print(a.shutdownTimeout)))];
    for i := 0 to |a.portForwards|
      invariant lines == PrintedLines(es + ForwardEntries(a.portForwards[..i]))
    {
      var f := a.portForwards[i];
      lines := lines + [Line((HostKey(i), Print(f.0))), Line((GuestKey(i), Print(f.1)))];
      assert a.portForwards[..i + 1][..i] == a.portForwards[..i];
      assert es + ForwardEntries(a.portForwards[..i]) + ForwardPair(i, f)
           == es + ForwardEntries(a.portForwards[..i + 1]);
    }
    assert a.portForwards[..|a.portForwards|] == a.portForwards;
    es := es + ForwardEntries(a.portForwards);
    assert es + DiskEntries([]) == es;
    for i := 0 to |a.additionalDisks|
      invariant lines == PrintedLines(es + DiskEntries(a.additionalDisks[..i]))
    {
      lines := lines + [Line((DiskKey(i), a.additionalDisks[i]))];
      assert a.additionalDisks[..i + 1][..i] == a.additionalDisks[..i];
      assert es + DiskEntries(a.additionalDisks[..i]) + [(DiskKey(i), a.additionalDisks[i])]
          == es + DiskEntries(a.additionalDisks[..i + 1]);
    }
    assert a.additionalDisks[..|a.additionalDisks|] == a.additionalDisks;
  }

  lemma PushedLines(es: seq<KeyEntry>, more: seq<KeyEntry>)
    ensures PrintedLines(Named(es + more)) == PrintedLines(Named(es)) + PrintedLines(Named(more))
  {
  }

  method OptionLines(c: VmConfig) returns (lines: seq<string>)
    ensures lines == PrintedLines(Named(OptionEntries(c)))
  {
    lines := [];
    if c.osType.Some? {
      lines := lines + [Line((Name(GuestOs), c.osType.value))];
    }
    PushedLines(OptionalEntry(GuestOs, c.osType), OptionalEntry(Firmware, c.firmware));
    if c.firmware.Some? {
      lines := lines + [Line((Name(Firmware), c.firmware.value))];
    }
    PushedLines(OptionalEntry(GuestOs, c.osType) + OptionalEntry(Firmware, c.firmware),
                OptionalEntry(DiskSize, DiskSizeText(c)));
    if c.diskSizeGb.Some? {
      lines := lines + [Line((Name(DiskSize), Print(c.diskSizeGb.value)))];
    }
  }

  method DeviceLines(c: VmConfig) returns (lines: seq<string>)
    ensures lines == PrintedLines(Named(IsoEntries(c) + DiskFileEntries(c)))
  {
    lines := [];
    if c.isoPath.Some? {
      lines := lines + [Line((Name(IsoType), "cdrom-image")), Line((Name(IsoFile), c.isoPath.value)),
                      Line((Name(IsoPresent), "TRUE"))];
    }
    PushedLines(IsoEntries(c), DiskFileEntries(c));
    if c.diskPath.Some? {
      lines := lines + [Line((Name(DiskFile), c.diskPath.value)), Line((Name(DiskPresent), "TRUE"))];
    }
  }

  method PrintVmx(c: VmConfig) returns (text: string)
    ensures text == ToVmx(c)
  {
    ghost var es: seq<KeyEntry> := HeaderEntries(c);
    var lines := PrintedLines(Named(HeaderEntries(c)));
    lines := lines + PrintedLines(Named(MachineEntries(c)));
    PushedLines(es, MachineEntries(c));
    es := es + MachineEntries(c);
    var more := OptionLines(c);
    lines := lines + more;
    PushedLines(es, OptionEntries(c));
    es := es + OptionEntries(c);
    more := DeviceLines(c);
    lines := lines + more;
    PushedLines(es, IsoEntries(c) + DiskFileEntries(c));
    assert es + (IsoEntries(c) + DiskFileEntries(c)) == es + IsoEntries(c) + DiskFileEntries(c);
    es := es + IsoEntries(c) + DiskFileEntries(c);
    lines := lines + PrintedLines(Named(NetworkEntries(c)));
    PushedLines(es, NetworkEntries(c));
    es := es + NetworkEntries(c);
    more := AdvancedLines(c.advanced);
    assert lines + more == PrintedLines(Entries(c));
    text := Join(lines + more);
  }

  method ReadVmx(content: string) returns (c: VmConfig)
    ensures c == FromVmx(content)
  {
    var advanced := new AdvancedSettings();
    var keys: map<string, string> := map[];
    var lines := Lines(content);
    for i := 0 to |lines|
      invariant Reading(advanced.Value(), keys) == ReadLines(NOTHING_READ, lines[..i])
    {
      assert lines[..i + 1][..i] == lines[..i];
      var line := Trim(lines[i]);
      if line == "" || line[0] == '#' {
        continue;
      }
      var parts := SplitOnce(line, '=');
      if parts.Some? {
        var key, value := Trim(parts.value.0), TrimBoth(Trim(parts.value.1), IsQuote);
        if StartsWith(key, "advanced.") {
          advanced.ParseVmxLine(key, value);
        } else {
          keys := keys[key := value];
        }
      }
    }
    assert lines[..|lines|] == lines;
    c := Configure(Reading(advanced.Value(), keys));
  }
}
