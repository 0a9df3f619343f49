/** VM configurations as VMX text: printed line by line, read back line by line. */
module Vmx {
  import opened Wrappers
  import opened Text
  import opened Decimals
  import opened VmxAdvanced

  datatype VmConfig = VmConfig(
    id: string,
    name: string,
    osType: Option<string>,
    cpuCores: u32,
    ramSizeMb: u64,
    vmDir: string,
    isoPath: Option<string>,
    diskPath: Option<string>,
    diskSizeGb: Option<u32>,
    networkMode: string,
    firmware: Option<string>,
    advanced: AdvancedConfig)

  const DEFAULT_CONFIG :=
    VmConfig("", "Default-VM", None, 1, 512, "", None, None, Some(20), "nat", Some("bios"), DEFAULT_ADVANCED)

  /** The keys written outside the advanced settings. */
  datatype Key =
    | ConfigVersion | HardwareVersion | Uuid | DisplayName | CpuCount | MemorySize | VmDir
    | GuestOs | Firmware | DiskSize | IsoType | IsoFile | IsoPresent | DiskFile | DiskPresent
    | NetworkType | NetworkPresent

  function Name(k: Key): string {
    match k
    case ConfigVersion => "config.version"
    case HardwareVersion => "virtualHW.version"
    case Uuid => "uuid.bios"
    case DisplayName => "displayName"
    case CpuCount => "numvcpus"
    case MemorySize => "memsize"
    case VmDir => "vm.dir"
    case GuestOs => "guestOS"
    case Firmware => "firmware"
    case DiskSize => "disk.sizeGB"
    case IsoType => "ide1:0.deviceType"
    case IsoFile => "ide1:0.fileName"
    case IsoPresent => "ide1:0.present"
    case DiskFile => "scsi0:0.fileName"
    case DiskPresent => "scsi0:0.present"
    case NetworkType => "ethernet0.connectionType"
    case NetworkPresent => "ethernet0.present"
  }

  // ----- Printing -----

  type KeyEntry = (Key, string)

  function HeaderEntries(c: VmConfig): seq<KeyEntry> {
    [(ConfigVersion, "8"), (HardwareVersion, "19"), (Uuid, c.id), (DisplayName, c.name)]
  }

  function MachineEntries(c: VmConfig): seq<KeyEntry> {
    [(CpuCount, Print(c.cpuCores)), (MemorySize, Print(c.ramSizeMb)), (VmDir, c.vmDir)]
  }

  function OptionalEntry(k: Key, o: Option<string>): seq<KeyEntry> {
    if o.Some? then [(k, o.value)] else []
  }

  function DiskSizeText(c: VmConfig): Option<string> {
    if c.diskSizeGb.Some? then Some(Print(c.diskSizeGb.value)) else None
  }

  function OptionEntries(c: VmConfig): seq<KeyEntry> {
    OptionalEntry(GuestOs, c.osType) + OptionalEntry(Firmware, c.firmware) + OptionalEntry(DiskSize, DiskSizeText(c))
  }

  function IsoEntries(c: VmConfig): seq<KeyEntry> {
    if c.isoPath.Some? then [(IsoType, "cdrom-image"), (IsoFile, c.isoPath.value), (IsoPresent, "TRUE")] else []
  }

  function DiskFileEntries(c: VmConfig): seq<KeyEntry> {
    if c.diskPath.Some? then [(DiskFile, c.diskPath.value), (DiskPresent, "TRUE")] else []
  }

  function NetworkEntries(c: VmConfig): seq<KeyEntry> {
    [(NetworkType, c.networkMode), (NetworkPresent, "TRUE")]
  }

  function PlainEntries(c: VmConfig): seq<KeyEntry> {
    HeaderEntries(c) + MachineEntries(c) + OptionEntries(c) + IsoEntries(c) + DiskFileEntries(c) + NetworkEntries(c)
  }

  function Named(es: seq<KeyEntry>): seq<Entry> {
    seq(|es|, i requires 0 <= i < |es| => (Name(es[i].0), es[i].1))
  }

  function Line(e: Entry): string {
    e.0 + " = \"" + e.1 + "\""
  }

  function PrintedLines(es: seq<Entry>): seq<string> {
    seq(|es|, i requires 0 <= i < |es| => Line(es[i]))
  }

  function Entries(c: VmConfig): seq<Entry> {
    Named(PlainEntries(c)) + AdvancedEntries(c.advanced)
  }

  function ToVmx(c: VmConfig): string {
    Join(PrintedLines(Entries(c)))
  }

  // ----- Reading -----

  datatype Reading = Reading(advanced: AdvancedConfig, keys: map<string, string>)

  const NOTHING_READ := Reading(DEFAULT_ADVANCED, map[])

  function ReadEntry(r: Reading, key: string, value: string): Reading {
    if StartsWith(key, "advanced.") then r.(advanced := ReadAdvanced(r.advanced, key, value))
    else r.(keys := r.keys[key := value])
  }

  function ReadLine(r: Reading, raw: string): Reading {
    var line := Trim(raw);
    if line == "" || line[0] == '#' then r
    else
      match SplitOnce(line, '=')
      case None => r
      case Some(kv) => ReadEntry(r, Trim(kv.0), TrimBoth(Trim(kv.1), IsQuote))
  }

  function ReadLines(r: Reading, lines: seq<string>): Reading {
    if lines == [] then r
    else ReadLine(ReadLines(r, lines[..|lines| - 1]), lines[|lines| - 1])
  }

  function Lookup(keys: map<string, string>, k: Key): Option<string> {
    if Name(k) in keys then Some(keys[Name(k)]) else None
  }

  function OrElse<T>(a: Option<T>, b: Option<T>): Option<T> {
    if a.Some? then a else b
  }

  function NumberOr(text: Option<string>, max: nat, absent: nat, malformed: nat): (n: nat)
    requires absent <= max && malformed <= max
    ensures n <= max
  {
    match text
    case None => absent
    case Some(v) => Parse(v, max).GetOr(malformed)
  }

  /** The values found, by key, with the default of every key that was absent. A disk size that
      does not parse leaves the size unset. */
  function Assemble(found: Key -> Option<string>, advanced: AdvancedConfig): VmConfig {
    var d := DEFAULT_CONFIG;
    VmConfig(
      found(Uuid).GetOr(d.id),
      found(DisplayName).GetOr(d.name),
      OrElse(found(GuestOs), d.osType),
      NumberOr(found(CpuCount), U32_MAX, d.cpuCores, 1),
      NumberOr(found(MemorySize), U64_MAX, d.ramSizeMb, 512),
      found(VmDir).GetOr(d.vmDir),
      OrElse(found(IsoFile), d.isoPath),
      OrElse(found(DiskFile), d.diskPath),
      match found(DiskSize) case None => d.diskSizeGb case Some(v) => Parse(v, U32_MAX),
      found(NetworkType).GetOr(d.networkMode),
      OrElse(found(Firmware), d.firmware),
      advanced)
  }

  function Configure(r: Reading): VmConfig {
    Assemble(k => Lookup(r.keys, k), r.advanced)
  }

  function FromVmx(text: string): VmConfig {
    Configure(ReadLines(NOTHING_READ, Lines(text)))
  }

  // ----- What can be printed and read back -----

  /** A value the quoted form can carry: one line, no quote at either end. */
  predicate CleanValue(v: string) {
    '\n' !in v && CleanEnds(v, IsQuote)
  }

  predicate CleanOption(o: Option<string>) {
    o.Some? ==> CleanValue(o.value)
  }

  predicate CleanStrings(c: VmConfig) {
    && CleanValue(c.id) && CleanValue(c.name) && CleanValue(c.vmDir) && CleanValue(c.networkMode)
    && CleanOption(c.osType) && CleanOption(c.isoPath) && CleanOption(c.diskPath) && CleanOption(c.firmware)
    && forall d | d in c.advanced.additionalDisks :: CleanValue(d)
  }

  predicate Complete(c: VmConfig) {
    c.firmware.Some? && c.diskSizeGb.Some?
  }

  /** Lists are addressed by 64-bit indices. */
  predicate Addressable(c: VmConfig) {
    |c.advanced.portForwards| <= USIZE_MAX + 1 && |c.advanced.additionalDisks| <= USIZE_MAX + 1
  }

  predicate CleanKey(k: string) {
    k != [] && '=' !in k && '\n' !in k && CleanEnds(k, IsSpace) && k[0] != '#'
  }

  // ----- One printed line read back -----

  lemma TrimsOnRight(k: string)
    requires CleanKey(k)
    ensures Trim(k + " ") == k
  {
    assert [] + k + " " == k + " ";
    TrimAround("", k, " ", IsSpace);
  }

  lemma UnquotesValue(v: string)
    requires CleanValue(v)
    ensures TrimBoth(Trim(" \"" + v + "\""), IsQuote) == v
  {
    var quoted := "\"" + v + "\"";
    assert " " + quoted + "" == " \"" + v + "\"";
    TrimAround(" ", quoted, "", IsSpace);
    TrimAround("\"", v, "\"", IsQuote);
  }

  lemma PrintedLineShape(k: string, v: string)
    requires CleanKey(k) && CleanValue(v)
    ensures var line := Line((k, v));
            && Trim(line) == line && line != "" && line[0] == k[0] && IsPlainLine(line)
            && SplitOnce(line, '=') == Some((k + " ", " \"" + v + "\""))
  {
    var line := Line((k, v));
    var value := " \"" + v + "\"";
    assert " = \"" == " =" + " \"";
    assert line == (k + " ") + ['='] + value;
    assert line[|line| - 1] == '"';
    CleanIsTrimmed(line, IsSpace);
    SplitCons(k + " ", '=', value);
  }

  lemma ReadPrintedLine(r: Reading, e: Entry)
    requires CleanKey(e.0) && CleanValue(e.1)
    ensures ReadLine(r, Line(e)) == ReadEntry(r, e.0, e.1)
    ensures IsPlainLine(Line(e))
  {
    PrintedLineShape(e.0, e.1);
    TrimsOnRight(e.0);
    UnquotesValue(e.1);
  }

  // ----- All printed lines read back -----

  function ReadEntries(r: Reading, es: seq<Entry>): Reading {
    if es == [] then r
    else ReadEntry(ReadEntries(r, es[..|es| - 1]), es[|es| - 1].0, es[|es| - 1].1)
  }

  predicate CleanEntry(e: Entry) {
    CleanKey(e.0) && CleanValue(e.1)
  }

  lemma {:induction false} ReadPrintedLines(r: Reading, es: seq<Entry>)
    requires forall e | e in es :: CleanEntry(e)
    ensures ReadLines(r, PrintedLines(es)) == ReadEntries(r, es)
  {
    if es != [] {
      var front, last := es[..|es| - 1], es[|es| - 1];
      ReadPrintedLines(r, front);
      assert PrintedLines(es)[..|es| - 1] == PrintedLines(front);
      assert CleanEntry(last);
      ReadPrintedLine(ReadEntries(r, front), last);
    }
  }

  lemma ReadPrintedText(es: seq<Entry>)
    requires forall e | e in es :: CleanEntry(e)
    ensures ReadLines(NOTHING_READ, Lines(Join(PrintedLines(es)))) == ReadEntries(NOTHING_READ, es)
  {
    var lines := PrintedLines(es);
    forall l | l in lines ensures IsPlainLine(l) {
      var i :| 0 <= i < |lines| && lines[i] == l;
      assert CleanEntry(es[i]);
      ReadPrintedLine(NOTHING_READ, es[i]);
    }
    LinesOfJoin(lines);
    ReadPrintedLines(NOTHING_READ, es);
  }

  // ----- Keys do not collide -----

  /** Length, first and fifth character tell the keys apart. */
  function Mark(k: Key): (m: (nat, char, char))
    ensures |Name(k)| == m.0 && m.0 > 4 && Name(k)[0] == m.1 && Name(k)[4] == m.2
  {
    match k
    case ConfigVersion => (14, 'c', 'i')
    case HardwareVersion => (17, 'v', 'u')
    case Uuid => (9, 'u', '.')
    case DisplayName => (11, 'd', 'l')
    case CpuCount => (8, 'n', 'c')
    case MemorySize => (7, 'm', 'i')
    case VmDir => (6, 'v', 'i')
    case GuestOs => (7, 'g', 't')
    case Firmware => (8, 'f', 'w')
    case DiskSize => (11, 'd', '.')
    case IsoType => (17, 'i', ':')
    case IsoFile => (15, 'i', ':')
    case IsoPresent => (14, 'i', ':')
    case DiskFile => (16, 's', '0')
    case DiskPresent => (15, 's', '0')
    case NetworkType => (24, 'e', 'r')
    case NetworkPresent => (17, 'e', 'r')
  }

  lemma NameInjective(j: Key, k: Key)
    requires Name(j) == Name(k)
    ensures j == k
  {
    assert Mark(j) == Mark(k);
  }

  lemma NamesAreClean(k: Key)
    ensures CleanKey(Name(k)) && !StartsWith(Name(k), "advanced.")
  {
    var m := Mark(k);
    assert "advanced."[0] == 'a';
    NamesAreWordy(k);
  }

  predicate IsWordy(s: string) {
    '=' !in s && '\n' !in s && CleanEnds(s, IsSpace)
  }

  lemma VersionNamesAreWordy()
    ensures IsWordy("config.version") && IsWordy("virtualHW.version") && IsWordy("uuid.bios")
  {
  }

  lemma MachineNamesAreWordy()
    ensures IsWordy("displayName") && IsWordy("numvcpus") && IsWordy("memsize") && IsWordy("vm.dir")
  {
  }

  lemma OptionalNamesAreWordy()
    ensures IsWordy("guestOS") && IsWordy("firmware") && IsWordy("disk.sizeGB")
  {
  }

  lemma IsoNamesAreWordy()
    ensures IsWordy("ide1:0.deviceType") && IsWordy("ide1:0.fileName") && IsWordy("ide1:0.present")
  {
  }

  lemma NetworkNamesAreWordy()
    ensures IsWordy("ethernet0.connectionType") && IsWordy("ethernet0.present")
  {
  }

  lemma DeviceNamesAreWordy()
    ensures IsWordy("scsi0:0.fileName") && IsWordy("scsi0:0.present")
  {
  }

  lemma NamesAreWordy(k: Key)
    ensures IsWordy(Name(k))
  {
    VersionNamesAreWordy();
    MachineNamesAreWordy();
    OptionalNamesAreWordy();
    IsoNamesAreWordy();
    DeviceNamesAreWordy();
    NetworkNamesAreWordy();
  }

  // ----- The keys found -----

  function PutAll(es: seq<KeyEntry>): map<string, string> {
    if es == [] then map[]
    else PutAll(es[..|es| - 1])[Name(es[|es| - 1].0) := es[|es| - 1].1]
  }

  lemma {:induction false} PutAllFinds(es: seq<KeyEntry>, k: Key, v: string)
    requires (k, v) in es
    requires forall e | e in es && e.0 == k :: e.1 == v
    ensures Lookup(PutAll(es), k) == Some(v)
  {
    var front, last := es[..|es| - 1], es[|es| - 1];
    if Name(last.0) == Name(k) {
      NameInjective(last.0, k);
      assert last in es;
    } else {
      assert es == front + [last];
      assert last != (k, v);
      PutAllFinds(front, k, v);
    }
  }

  lemma {:induction false} PutAllMisses(es: seq<KeyEntry>, k: Key)
    requires forall e | e in es :: e.0 != k
    ensures Lookup(PutAll(es), k) == None
  {
    if es != [] {
      var last := es[|es| - 1];
      assert last in es;
      if Name(last.0) == Name(k) { NameInjective(last.0, k); }
      PutAllMisses(es[..|es| - 1], k);
    }
  }

  /** The value printed under each key, if any. */
  function PrintedFor(c: VmConfig, k: Key): Option<string> {
    match k
    case ConfigVersion => Some("8")
    case HardwareVersion => Some("19")
    case Uuid => Some(c.id)
    case DisplayName => Some(c.name)
    case CpuCount => Some(Print(c.cpuCores))
    case MemorySize => Some(Print(c.ramSizeMb))
    case VmDir => Some(c.vmDir)
    case GuestOs => c.osType
    case Firmware => c.firmware
    case DiskSize => DiskSizeText(c)
    case IsoType => if c.isoPath.Some? then Some("cdrom-image") else None
    case IsoFile => c.isoPath
    case IsoPresent => if c.isoPath.Some? then Some("TRUE") else None
    case DiskFile => c.diskPath
    case DiskPresent => if c.diskPath.Some? then Some("TRUE") else None
    case NetworkType => Some(c.networkMode)
    case NetworkPresent => Some("TRUE")
  }

  lemma GeneralEntryIffPrinted(c: VmConfig, k: Key, v: string)
    ensures (k, v) in HeaderEntries(c) + MachineEntries(c) <==>
              (k.ConfigVersion? || k.HardwareVersion? || k.Uuid? || k.DisplayName?
               || k.CpuCount? || k.MemorySize? || k.VmDir?)
              && PrintedFor(c, k) == Some(v)
  {
  }

  lemma OptionEntryIffPrinted(c: VmConfig, k: Key, v: string)
    ensures (k, v) in OptionEntries(c) <==>
              (k.GuestOs? || k.Firmware? || k.DiskSize?) && PrintedFor(c, k) == Some(v)
  {
  }

  lemma DeviceEntryIffPrinted(c: VmConfig, k: Key, v: string)
    ensures (k, v) in IsoEntries(c) + DiskFileEntries(c) + NetworkEntries(c) <==>
              (k.IsoType? || k.IsoFile? || k.IsoPresent? || k.DiskFile?
               || k.DiskPresent? || k.NetworkType? || k.NetworkPresent?)
              && PrintedFor(c, k) == Some(v)
  {
  }

  lemma InFourParts<T>(x: T, a: seq<T>, b: seq<T>, i: seq<T>, d: seq<T>, n: seq<T>)
    ensures x in a + b + i + d + n <==> x in a || x in b || x in i + d + n
  {
    assert a + b + i + d + n == a + b + (i + d + n);
  }

  lemma EntryIffPrinted(c: VmConfig, k: Key, v: string)
    ensures (k, v) in PlainEntries(c) <==> PrintedFor(c, k) == Some(v)
  {
    GeneralEntryIffPrinted(c, k, v);
    OptionEntryIffPrinted(c, k, v);
    DeviceEntryIffPrinted(c, k, v);
    InFourParts((k, v), HeaderEntries(c) + MachineEntries(c), OptionEntries(c),
                IsoEntries(c), DiskFileEntries(c), NetworkEntries(c));
  }

  /** The map of keys answers what was printed. */
  lemma PrintedValue(c: VmConfig, k: Key)
    ensures Lookup(PutAll(PlainEntries(c)), k) == PrintedFor(c, k)
  {
    var es := PlainEntries(c);
    forall e | e in es && e.0 == k ensures Some(e.1) == PrintedFor(c, k) {
      EntryIffPrinted(c, k, e.1);
    }
    if PrintedFor(c, k).Some? {
      EntryIffPrinted(c, k, PrintedFor(c, k).value);
      PutAllFinds(es, k, PrintedFor(c, k).value);
    } else {
      PutAllMisses(es, k);
    }
  }

  lemma {:induction false} ReadNamed(es: seq<KeyEntry>)
    ensures ReadEntries(NOTHING_READ, Named(es)) == Reading(DEFAULT_ADVANCED, PutAll(es))
  {
    if es != [] {
      var front, last := es[..|es| - 1], es[|es| - 1];
      ReadNamed(front);
      assert Named(es)[..|es| - 1] == Named(front);
      NamesAreClean(last.0);
    }
  }

  lemma {:induction false} ReadAdvancedEntries(r: Reading, xs: seq<Entry>, ys: seq<Entry>)
    requires forall e | e in ys :: StartsWith(e.0, "advanced.")
    ensures var r1 := ReadEntries(r, xs);
            ReadEntries(r, xs + ys) == r1.(advanced := ReadAll(r1.advanced, ys))
  {
    hide ReadAdvanced;
    if ys == [] {
      assert xs + ys == xs;
    } else {
      var front, last := ys[..|ys| - 1], ys[|ys| - 1];
      ReadAdvancedEntries(r, xs, front);
      assert (xs + ys)[..|xs + ys| - 1] == xs + front;
      assert last in ys;
    }
  }
}
