/** What survives printing a VM configuration and reading it back, and the normal form of VMX text. */
module VmxRoundTrip {
  import opened Wrappers
  import opened Text
  import opened Decimals
  import opened VmxAdvanced
  import opened Vmx

  // ----- Everything printed is clean -----

  lemma NumberIsClean(n: nat)
    ensures CleanValue(Print(n)) && IsWordy(Print(n))
  {
    var s := Print(n);
    assert IsDigit(s[0]) && IsDigit(s[|s| - 1]);
  }

  predicate AdvancedKey(k: string) {
    StartsWith(k, "advanced.") && CleanKey(k)
  }

  lemma IndexedKeyIsClean(dotted: string, n: string, field: string)
    requires IsWordy(dotted) && StartsWith(dotted, "advanced.") && IsWordy(n) && IsWordy(field) && field != ""
    ensures AdvancedKey(dotted + n + field)
  {
    var k := dotted + n + field;
    assert k[0] == "advanced."[0];
    assert k[|k| - 1] == field[|field| - 1];
    assert k[..9] == dotted[..9];
  }

  lemma AffixesAreWordy()
    ensures IsWordy("advanced.forward") && IsWordy("advanced.disk")
    ensures IsWordy(".host") && IsWordy(".guest") && IsWordy(".path")
  {
  }

  lemma IndexedKeysAreClean(i: nat)
    ensures AdvancedKey(HostKey(i)) && AdvancedKey(GuestKey(i)) && AdvancedKey(DiskKey(i))
  {
    NumberIsClean(i);
    AffixesAreWordy();
    assert StartsWith("advanced.forward", "advanced.") && StartsWith("advanced.disk", "advanced.");
    IndexedKeyIsClean("advanced.forward", Print(i), ".host");
    IndexedKeyIsClean("advanced.forward", Print(i), ".guest");
    IndexedKeyIsClean("advanced.disk", Print(i), ".path");
  }

  lemma ScalarKeysAreClean()
    ensures AdvancedKey("advanced.audio") && AdvancedKey("advanced.shutdown_timeout")
    ensures CleanValue("true") && CleanValue("false")
  {
    assert IsWordy("advanced.audio") && IsWordy("advanced.shutdown_timeout");
  }

  predicate CleanAdvancedEntries(es: seq<Entry>) {
    forall e | e in es :: AdvancedKey(e.0) && CleanValue(e.1)
  }

  lemma {:induction false} ForwardEntriesAreClean(fs: seq<(u16, u16)>)
    ensures CleanAdvancedEntries(ForwardEntries(fs))
  {
    if fs != [] {
      ForwardEntriesAreClean(fs[..|fs| - 1]);
      IndexedKeysAreClean(|fs| - 1);
      NumberIsClean(fs[|fs| - 1].0);
      NumberIsClean(fs[|fs| - 1].1);
    }
  }

  lemma {:induction false} DiskEntriesAreClean(ds: seq<string>)
    requires forall d | d in ds :: CleanValue(d)
    ensures CleanAdvancedEntries(DiskEntries(ds))
  {
    if ds != [] {
      DiskEntriesAreClean(ds[..|ds| - 1]);
      IndexedKeysAreClean(|ds| - 1);
      assert ds[|ds| - 1] in ds;
    }
  }

  lemma AdvancedEntriesAreClean(a: AdvancedConfig)
    requires forall d | d in a.additionalDisks :: CleanValue(d)
    ensures CleanAdvancedEntries(AdvancedEntries(a))
  {
    ScalarKeysAreClean();
    NumberIsClean(a.shutdownTimeout);
    ForwardEntriesAreClean(a.portForwards);
    DiskEntriesAreClean(a.additionalDisks);
  }

  lemma FixedValuesAreClean()
    ensures CleanValue("8") && CleanValue("19") && CleanValue("TRUE") && CleanValue("cdrom-image")
  {
  }

  lemma PlainValuesAreClean(c: VmConfig)
    requires CleanStrings(c)
    ensures forall e | e in PlainEntries(c) :: CleanValue(e.1)
  {
    hide CleanValue, Print;
    FixedValuesAreClean();
    NumberIsClean(c.cpuCores);
    NumberIsClean(c.ramSizeMb);
    NumberIsClean(c.diskSizeGb.GetOr(0));
  }

  lemma EntriesAreClean(c: VmConfig)
    requires CleanStrings(c)
    ensures forall e | e in Entries(c) :: CleanEntry(e)
  {
    AdvancedEntriesAreClean(c.advanced);
    PlainValuesAreClean(c);
    var es := PlainEntries(c);
    forall e | e in Named(es) ensures CleanEntry(e) {
      var i :| 0 <= i < |es| && Named(es)[i] == e;
      assert es[i] in es;
      NamesAreClean(es[i].0);
    }
  }

  // ----- Reading back what was printed -----

  function WithDefaults(c: VmConfig): VmConfig {
    c.(firmware := OrElse(c.firmware, DEFAULT_CONFIG.firmware),
       diskSizeGb := OrElse(c.diskSizeGb, DEFAULT_CONFIG.diskSizeGb))
  }

  lemma ReadBack(c: VmConfig)
    requires CleanStrings(c) && Addressable(c)
    ensures ReadLines(NOTHING_READ, Lines(ToVmx(c))) == Reading(c.advanced, PutAll(PlainEntries(c)))
  {
    EntriesAreClean(c);
    ReadPrintedText(Entries(c));
    ReadNamed(PlainEntries(c));
    AdvancedEntriesAreClean(c.advanced);
    ReadAdvancedEntries(NOTHING_READ, Named(PlainEntries(c)), AdvancedEntries(c.advanced));
    AdvancedRoundTrip(c.advanced);
  }

  lemma NumberAsPrinted(n: nat, max: nat, absent: nat, malformed: nat)
    requires n <= max && absent <= max && malformed <= max
    ensures NumberOr(Some(Print(n)), max, absent, malformed) == n
  {
    ParseOfPrint(n, max);
  }

  lemma DiskSizeAsPrinted(c: VmConfig, found: Key -> Option<string>)
    requires found(DiskSize) == PrintedFor(c, DiskSize)
    ensures Assemble(found, c.advanced).diskSizeGb == WithDefaults(c).diskSizeGb
  {
    ParseOfPrint(c.diskSizeGb.GetOr(0), U32_MAX);
  }

  lemma NumbersAsPrinted(c: VmConfig, found: Key -> Option<string>)
    requires found(CpuCount) == Some(Print(c.cpuCores)) && found(MemorySize) == Some(Print(c.ramSizeMb))
    ensures var a := Assemble(found, c.advanced); a.cpuCores == c.cpuCores && a.ramSizeMb == c.ramSizeMb
  {
    NumberAsPrinted(c.cpuCores, U32_MAX, 1, 1);
    NumberAsPrinted(c.ramSizeMb, U64_MAX, 512, 512);
  }

  lemma TextsAsPrinted(c: VmConfig, found: Key -> Option<string>)
    requires found(Uuid) == Some(c.id) && found(DisplayName) == Some(c.name)
    requires found(VmDir) == Some(c.vmDir) && found(NetworkType) == Some(c.networkMode)
    requires found(GuestOs) == c.osType && found(Firmware) == c.firmware
    requires found(IsoFile) == c.isoPath && found(DiskFile) == c.diskPath
    ensures var a, w := Assemble(found, c.advanced), WithDefaults(c);
            w.(cpuCores := a.cpuCores, ramSizeMb := a.ramSizeMb, diskSizeGb := a.diskSizeGb) == a
  {
  }

  lemma AssembleAsPrinted(c: VmConfig, found: Key -> Option<string>)
    requires forall k :: found(k) == PrintedFor(c, k)
    ensures Assemble(found, c.advanced) == WithDefaults(c)
  {
    var a, w := Assemble(found, c.advanced), WithDefaults(c);
    assert w.(cpuCores := a.cpuCores, ramSizeMb := a.ramSizeMb, diskSizeGb := a.diskSizeGb) == a by {
      TextsAsPrinted(c, found);
    }
    DiskSizeAsPrinted(c, found);
    NumbersAsPrinted(c, found);
  }

  /** Reading a printed configuration gives it back, with the defaults for the two optional
      values whose absence cannot be written. */
  lemma ReadsBackWithDefaults(c: VmConfig)
    requires CleanStrings(c) && Addressable(c)
    ensures FromVmx(ToVmx(c)) == WithDefaults(c)
  {
    var keys := PutAll(PlainEntries(c));
    assert ReadLines(NOTHING_READ, Lines(ToVmx(c))) == Reading(c.advanced, keys) by {
      ReadBack(c);
    }
    assert Configure(Reading(c.advanced, keys)) == WithDefaults(c) by {
      var found := k => Lookup(keys, k);
      forall k ensures found(k) == PrintedFor(c, k) {
        PrintedValue(c, k);
      }
      AssembleAsPrinted(c, found);
    }
  }

  // ----- Whatever is read is clean -----

  predicate CleanReading(r: Reading) {
    && (forall k | k in r.keys :: CleanValue(r.keys[k]))
    && (forall d | d in r.advanced.additionalDisks :: CleanValue(d))
    && |r.advanced.portForwards| <= USIZE_MAX + 1
    && |r.advanced.additionalDisks| <= USIZE_MAX + 1
  }

  lemma ReadAdvancedStaysClean(a: AdvancedConfig, key: string, value: string)
    requires CleanValue(value) && CleanReading(Reading(a, map[]))
    ensures CleanReading(Reading(ReadAdvanced(a, key, value), map[]))
  {
    var a' := ReadAdvanced(a, key, value);
    forall d | d in a'.additionalDisks ensures CleanValue(d) {
      var i :| 0 <= i < |a'.additionalDisks| && a'.additionalDisks[i] == d;
      assert d in a.additionalDisks || d == "" || d == value;
    }
  }

  lemma ValueReadIsClean(line: string, value: string)
    requires '\n' !in line && forall c | c in value :: c in line
    ensures CleanValue(TrimBoth(Trim(value), IsQuote))
  {
    TrimmedIsClean(value, IsSpace);
    TrimmedIsClean(Trim(value), IsQuote);
  }

  lemma ReadLineStaysClean(r: Reading, raw: string)
    requires CleanReading(r) && '\n' !in raw
    ensures CleanReading(ReadLine(r, raw))
  {
    TrimmedIsClean(raw, IsSpace);
    var line := Trim(raw);
    match SplitOnce(line, '=') {
      case None =>
      case Some(kv) =>
        ValueReadIsClean(raw, kv.1);
        ReadAdvancedStaysClean(r.advanced, Trim(kv.0), TrimBoth(Trim(kv.1), IsQuote));
    }
  }

  lemma {:induction false} ReadLinesStaysClean(lines: seq<string>)
    requires forall l | l in lines :: '\n' !in l
    ensures CleanReading(ReadLines(NOTHING_READ, lines))
  {
    if lines != [] {
      ReadLinesStaysClean(lines[..|lines| - 1]);
      ReadLineStaysClean(ReadLines(NOTHING_READ, lines[..|lines| - 1]), lines[|lines| - 1]);
    }
  }

  /** Every configuration read, from any text, can be printed, and has a firmware. */
  lemma ReadIsClean(text: string)
    ensures CleanStrings(FromVmx(text)) && Addressable(FromVmx(text)) && FromVmx(text).firmware.Some?
  {
    LinesHoldNoNewline(text);
    ReadLinesStaysClean(Lines(text));
    assert CleanValue("Default-VM") && CleanValue("nat") && CleanValue("bios");
  }

  // ----- Main results -----

  /** Printing and reading back is the identity exactly on the configurations whose strings are
      clean and whose firmware and disk size are set. */
  lemma RoundTripIff(c: VmConfig)
    requires Addressable(c)
    ensures FromVmx(ToVmx(c)) == c <==> CleanStrings(c) && Complete(c)
  {
    ReadIsClean(ToVmx(c));
    if CleanStrings(c) {
      ReadsBackWithDefaults(c);
    }
  }

  /** The text's disk size, when it names one, is a 32-bit number. */
  predicate DiskSizeIsValid(text: string) {
    var size := Lookup(ReadLines(NOTHING_READ, Lines(text)).keys, DiskSize);
    size.Some? ==> Parse(size.value, U32_MAX).Some?
  }

  /** Reading, printing and reading again is reading once exactly when the disk size is valid or
      absent: gaps, repetitions, comments and shuffled lines do not matter. */
  lemma PrintedTextIsNormalForm(text: string)
    ensures FromVmx(ToVmx(FromVmx(text))) == FromVmx(text) <==> DiskSizeIsValid(text)
  {
    ReadIsClean(text);
    RoundTripIff(FromVmx(text));
  }

  /** Two clean, complete configurations with the same text are the same. */
  lemma PrintingIsInjective(c: VmConfig, d: VmConfig)
    requires CleanStrings(c) && Complete(c) && Addressable(c)
    requires CleanStrings(d) && Complete(d) && Addressable(d)
    requires ToVmx(c) == ToVmx(d)
    ensures c == d
  {
    RoundTripIff(c);
    RoundTripIff(d);
  }
}
