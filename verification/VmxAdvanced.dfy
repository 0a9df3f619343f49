/** Advanced VM settings: printed under indexed keys, read back into lists that grow on demand. */
module VmxAdvanced {
  import opened Wrappers
  import opened Text
  import opened Decimals

  /** Indices are 64 bits wide. */
  const USIZE_MAX: nat := U64_MAX

  datatype AdvancedConfig = AdvancedConfig(
    audioEnabled: bool,
    shutdownTimeout: u32,
    portForwards: seq<(u16, u16)>,
    additionalDisks: seq<string>)

  const DEFAULT_ADVANCED := AdvancedConfig(false, 30, [], [])

  type Entry = (string, string)

  // ----- Printing -----

  function HostKey(i: nat): string {
    "advanced.forward" + Print(i) + ".host"
  }

  function GuestKey(i: nat): string {
    "advanced.forward" + Print(i) + ".guest"
  }

  function DiskKey(i: nat): string {
    "advanced.disk" + Print(i) + ".path"
  }

  function BoolText(b: bool): string {
    if b then "true" else "false"
  }

  function ForwardPair(i: nat, f: (u16, u16)): seq<Entry> {
    [(HostKey(i), Print(f.0)), (GuestKey(i), Print(f.1))]
  }

  function ForwardEntries(fs: seq<(u16, u16)>): seq<Entry> {
    if fs == [] then [] else ForwardEntries(fs[..|fs| - 1]) + ForwardPair(|fs| - 1, fs[|fs| - 1])
  }

  function DiskEntries(ds: seq<string>): seq<Entry> {
    if ds == [] then []
    else DiskEntries(ds[..|ds| - 1]) + [(DiskKey(|ds| - 1), ds[|ds| - 1])]
  }

  function AdvancedEntries(a: AdvancedConfig): seq<Entry> {
    [("advanced.audio", BoolText(a.audioEnabled)), ("advanced.shutdown_timeout", Print(a.shutdownTimeout))]
    + ForwardEntries(a.portForwards)
    + DiskEntries(a.additionalDisks)
  }

  // ----- Reading -----

  function LowerChar(c: char): char {
    if 'A' <= c <= 'Z' then (c as int + 32) as char else c
  }

  function Lower(s: string): string {
    seq(|s|, i requires 0 <= i < |s| => LowerChar(s[i]))
  }

  /** At least `n` elements, filled up with `d`. */
  function Grow<T>(s: seq<T>, n: nat, d: T): (r: seq<T>)
    ensures |r| == if |s| >= n then |s| else n
    ensures s <= r
    ensures forall i | |s| <= i < |r| :: r[i] == d
  {
    if |s| >= n then s else s + seq(n - |s|, _ => d)
  }

  lemma SecondPart(key: string, prefix: string)
    requires StartsWith(key, "advanced." + prefix) && '.' !in prefix
    ensures |Split(key, '.')| >= 2 && StartsWith(Split(key, '.')[1], prefix)
  {
    assert "advanced." + prefix == "advanced" + ['.'] + prefix;
    var rest := key[9..];
    assert key == "advanced" + ['.'] + rest;
    SplitCons("advanced", '.', rest);
    assert StartsWith(rest, prefix);
    var i := IndexOf(rest, '.');
    assert i >= |prefix| by {
      assert i < |rest| ==> forall x | 0 <= x < |prefix| :: rest[x] == prefix[x] && rest[x] in prefix;
    }
    if i < |rest| {
      assert Split(rest, '.') == [rest[..i]] + Split(rest[i + 1..], '.');
    }
  }

  function WithForward(a: AdvancedConfig, idx: nat, field: string, value: string): AdvancedConfig
    requires idx <= USIZE_MAX
  {
    var fs := Grow(a.portForwards, idx + 1, (0, 0));
    match Parse(value, U16_MAX)
    case None => a.(portForwards := fs)
    case Some(port) =>
      if field == "host" then a.(portForwards := fs[idx := (port, fs[idx].1)])
      else if field == "guest" then a.(portForwards := fs[idx := (fs[idx].0, port)])
      else a.(portForwards := fs)
  }

  function WithDisk(a: AdvancedConfig, idx: nat, field: string, value: string): AdvancedConfig
    requires idx <= USIZE_MAX
  {
    var ds := Grow(a.additionalDisks, idx + 1, "");
    a.(additionalDisks := if field == "path" then ds[idx := value] else ds)
  }

  /** The effect of one `key = value` line. */
  function ReadAdvanced(a: AdvancedConfig, key: string, value: string): AdvancedConfig {
    if key == "advanced.audio" then a.(audioEnabled := Lower(value) == "true")
    else if key == "advanced.shutdown_timeout" then
      match Parse(value, U32_MAX)
      case None => a
      case Some(v) => a.(shutdownTimeout := v)
    else if StartsWith(key, "advanced.forward") then
      SecondPart(key, "forward");
      var parts := Split(key, '.');
      if |parts| != 3 then a
      else
        match Parse(parts[1][7..], USIZE_MAX)
        case None => a
        case Some(idx) => WithForward(a, idx, parts[2], value)
    else if StartsWith(key, "advanced.disk") then
      SecondPart(key, "disk");
      var parts := Split(key, '.');
      if |parts| != 3 then a
      else
        match Parse(parts[1][4..], USIZE_MAX)
        case None => a
        case Some(idx) => WithDisk(a, idx, parts[2], value)
    else a
  }

  function ReadAll(a: AdvancedConfig, entries: seq<Entry>): AdvancedConfig {
    if entries == [] then a
    else
      var last := entries[|entries| - 1];
      ReadAdvanced(ReadAll(a, entries[..|entries| - 1]), last.0, last.1)
  }

  lemma {:induction false} ReadAllAppend(a: AdvancedConfig, xs: seq<Entry>, ys: seq<Entry>)
    ensures ReadAll(a, xs + ys) == ReadAll(ReadAll(a, xs), ys)
  {
    if ys == [] {
      assert xs + ys == xs;
    } else {
      ReadAllAppend(a, xs, ys[..|ys| - 1]);
      assert (xs + ys)[..|xs + ys| - 1] == xs + ys[..|ys| - 1];
    }
  }

  // ----- Printed keys read back -----

  lemma SplitThree(a: string, b: string, c: string)
    requires '.' !in a && '.' !in b && '.' !in c
    ensures Split(a + "." + b + "." + c, '.') == [a, b, c]
  {
    var rest := b + "." + c;
    assert rest == b + ['.'] + c;
    assert a + "." + b + "." + c == a + ['.'] + rest;
    SplitCons(a, '.', rest);
    SplitCons(b, '.', c);
    SplitSingle(c, '.');
  }

  lemma SplitRegrouped(head: string, dotted: string, kind: string, n: string, field: string)
    requires dotted == head + "." && '.' !in head && '.' !in kind && '.' !in n && '.' !in field
    ensures Split(dotted + kind + n + "." + field, '.') == [head, kind + n, field]
  {
    SplitThree(head, kind + n, field);
    assert dotted + kind + n == head + "." + (kind + n);
  }

  lemma IndexedKeyParts(kind: string, i: nat, field: string)
    requires '.' !in kind && '.' !in field
    ensures Split("advanced." + kind + Print(i) + "." + field, '.') == ["advanced", kind + Print(i), field]
  {
    assert '.' !in Print(i);
    SplitRegrouped("advanced", "advanced.", kind, Print(i), field);
  }

  /** A key under a prefix is none of the plain keys, and reaches the branch of its prefix. */
  lemma ForwardKeyBranch(rest: string)
    ensures var key := "advanced.forward" + rest;
            key != "advanced.audio" && key != "advanced.shutdown_timeout" && StartsWith(key, "advanced.forward")
  {
    var key := "advanced.forward" + rest;
    assert key[9] == 'f' && "advanced.audio"[9] == 'a' && "advanced.shutdown_timeout"[9] == 's';
  }

  lemma ReadForward(a: AdvancedConfig, i: nat, field: string, value: string)
    requires i <= USIZE_MAX && '.' !in field
    ensures ReadAdvanced(a, "advanced.forward" + Print(i) + "." + field, value) == WithForward(a, i, field, value)
  {
    hide Print, Split, Parse, WithDisk, WithForward, Lower;
    var n := Print(i);
    var key := "advanced.forward" + n + "." + field;
    assert "advanced.forward" == "advanced." + "forward";
    assert Split(key, '.') == ["advanced", "forward" + n, field] by {
      IndexedKeyParts("forward", i, field);
    }
    ParseOfPrint(i, USIZE_MAX);
    assert ("forward" + n)[7..] == n;
    assert key == "advanced.forward" + (n + "." + field);
    ForwardKeyBranch(n + "." + field);
  }

  lemma DiskKeyBranch(rest: string)
    ensures var key := "advanced.disk" + rest;
            && key != "advanced.audio" && key != "advanced.shutdown_timeout"
            && !StartsWith(key, "advanced.forward") && StartsWith(key, "advanced.disk")
  {
    var key := "advanced.disk" + rest;
    assert key[9] == 'd' && "advanced.audio"[9] == 'a'
        && "advanced.shutdown_timeout"[9] == 's' && "advanced.forward"[9] == 'f';
  }

  lemma ReadDisk(a: AdvancedConfig, i: nat, field: string, value: string)
    requires i <= USIZE_MAX && '.' !in field
    ensures ReadAdvanced(a, "advanced.disk" + Print(i) + "." + field, value) == WithDisk(a, i, field, value)
  {
    hide Print, Split, Parse, WithDisk, WithForward, Lower;
    var n := Print(i);
    var key := "advanced.disk" + n + "." + field;
    assert "advanced.disk" == "advanced." + "disk";
    assert Split(key, '.') == ["advanced", "disk" + n, field] by {
      IndexedKeyParts("disk", i, field);
    }
    ParseOfPrint(i, USIZE_MAX);
    assert ("disk" + n)[4..] == n;
    assert key == "advanced.disk" + (n + "." + field);
    DiskKeyBranch(n + "." + field);
  }

  lemma ReadTwo(a: AdvancedConfig, x: Entry, y: Entry)
    ensures ReadAll(a, [x, y]) == ReadAdvanced(ReadAdvanced(a, x.0, x.1), y.0, y.1)
  {
    assert [x, y][..1] == [x] && [x][..0] == [];
    assert ReadAll(a, [x]) == ReadAdvanced(a, x.0, x.1);
  }

  lemma ReadForwardPair(a: AdvancedConfig, f: (u16, u16))
    requires |a.portForwards| <= USIZE_MAX
    ensures var i := |a.portForwards|;
            ReadAll(a, ForwardPair(i, f)) == a.(portForwards := a.portForwards + [f])
  {
    var i := |a.portForwards|;
    ParseOfPrint(f.0, U16_MAX);
    ParseOfPrint(f.1, U16_MAX);
    assert HostKey(i) == "advanced.forward" + Print(i) + "." + "host";
    assert GuestKey(i) == "advanced.forward" + Print(i) + "." + "guest";
    ReadForward(a, i, "host", Print(f.0));
    var a1 := WithForward(a, i, "host", Print(f.0));
    assert a1.portForwards == a.portForwards + [(f.0, 0)];
    ReadForward(a1, i, "guest", Print(f.1));
    ReadTwo(a, (HostKey(i), Print(f.0)), (GuestKey(i), Print(f.1)));
  }

  lemma ReadAllThen(a: AdvancedConfig, xs: seq<Entry>, b: AdvancedConfig, ys: seq<Entry>, c: AdvancedConfig)
    requires ReadAll(a, xs) == b && ReadAll(b, ys) == c
    ensures ReadAll(a, xs + ys) == c
  {
    hide ReadAll;
    ReadAllAppend(a, xs, ys);
  }

  lemma {:induction false} ReadForwardEntries(a: AdvancedConfig, fs: seq<(u16, u16)>)
    requires a.portForwards == [] && |fs| <= USIZE_MAX + 1
    ensures ReadAll(a, ForwardEntries(fs)) == a.(portForwards := fs)
  {
    hide ReadAdvanced, ForwardPair;
    if fs != [] {
      var front, last := fs[..|fs| - 1], fs[|fs| - 1];
      var xs, ys := ForwardEntries(front), ForwardPair(|front|, last);
      assert ReadAll(a, xs + ys) == a.(portForwards := fs) by {
        ReadForwardEntries(a, front);
        assert fs == front + [last];
        ReadForwardPair(a.(portForwards := front), last);
        ReadAllThen(a, xs, a.(portForwards := front), ys, a.(portForwards := fs));
      }
    }
  }

  lemma {:induction false} ReadDiskEntries(a: AdvancedConfig, ds: seq<string>)
    requires a.additionalDisks == [] && |ds| <= USIZE_MAX + 1
    ensures ReadAll(a, DiskEntries(ds)) == a.(additionalDisks := ds)
  {
    if ds != [] {
      var i := |ds| - 1;
      ReadDiskEntries(a, ds[..i]);
      var front, last := DiskEntries(ds[..i]), (DiskKey(i), ds[i]);
      ReadDisk(a.(additionalDisks := ds[..i]), i, "path", ds[i]);
      assert DiskKey(i) == "advanced.disk" + Print(i) + "." + "path";
      assert (front + [last])[..|front|] == front;
    }
  }

  /** The advanced settings read back are those printed. */
  lemma AdvancedRoundTrip(a: AdvancedConfig)
    requires |a.portForwards| <= USIZE_MAX + 1 && |a.additionalDisks| <= USIZE_MAX + 1
    ensures ReadAll(DEFAULT_ADVANCED, AdvancedEntries(a)) == a
  {
    var scalars := [("advanced.audio", BoolText(a.audioEnabled)),
                   ("advanced.shutdown_timeout", Print(a.shutdownTimeout))];
    var a2 := AdvancedConfig(a.audioEnabled, a.shutdownTimeout, [], []);
    assert ReadAll(DEFAULT_ADVANCED, scalars) == a2 by {
      ParseOfPrint(a.shutdownTimeout, U32_MAX);
      assert scalars[..1] == [scalars[0]] && [scalars[0]][..0] == [];
      assert Lower("true") == "true";
      assert Lower("false")[0] == 'f' && "true"[0] == 't';
      assert "advanced.audio"[9] == 'a' && "advanced.shutdown_timeout"[9] == 's';
      assert ReadAll(DEFAULT_ADVANCED, [scalars[0]]) == DEFAULT_ADVANCED.(audioEnabled := a.audioEnabled);
    }
    ReadForwardEntries(a2, a.portForwards);
    ReadDiskEntries(a2.(portForwards := a.portForwards), a.additionalDisks);
    ReadAllAppend(DEFAULT_ADVANCED, scalars, ForwardEntries(a.portForwards));
    ReadAllAppend(DEFAULT_ADVANCED, scalars + ForwardEntries(a.portForwards), DiskEntries(a.additionalDisks));
  }
}
