/** A log of records in six files: the current one and five backups, renamed in turn. */
module LogRotation {
  import opened Wrappers

  type Record = seq<bv8>
  type File = seq<Record>

  const BACKUPS: nat := 5

  /** File 0 is the current log, file `i` the backup `log.i`; `None` does not exist. */
  predicate IsDirectory(fs: seq<Option<File>>) {
    |fs| == BACKUPS + 1
  }

  function Size(f: File): nat {
    if f == [] then 0 else Size(f[..|f| - 1]) + |f[|f| - 1]|
  }

  // ----- Renaming -----

  function Rename(fs: seq<Option<File>>, from: nat, to: nat): seq<Option<File>>
    requires from < |fs| && to < |fs| && from != to
  {
    fs[to := fs[from]][from := None]
  }

  /** Backups `i` down to 1 move up by one, each if it exists. */
  function ShiftBackups(fs: seq<Option<File>>, i: nat): (r: seq<Option<File>>)
    requires IsDirectory(fs) && i < BACKUPS
    ensures IsDirectory(r)
    decreases i
  {
    if i == 0 then fs
    else ShiftBackups(if fs[i].Some? then Rename(fs, i, i + 1) else fs, i - 1)
  }

  function NeedsRotation(fs: seq<Option<File>>, max: nat): bool
    requires IsDirectory(fs)
  {
    fs[0].Some? && Size(fs[0].value) >= max
  }

  function Rotated(fs: seq<Option<File>>, max: nat): (r: seq<Option<File>>)
    requires IsDirectory(fs)
    ensures IsDirectory(r)
  {
    if !NeedsRotation(fs, max) then fs else Rename(ShiftBackups(fs, BACKUPS - 1), 0, 1)
  }

  // ----- Writing -----

  /** Opening for append creates the current file if it is missing. */
  function Opened(fs: seq<Option<File>>): (r: seq<Option<File>>)
    requires IsDirectory(fs)
    ensures IsDirectory(r) && r[0].Some?
  {
    if fs[0].Some? then fs else fs[0 := Some([])]
  }

  function Appended(fs: seq<Option<File>>, data: Record): (r: seq<Option<File>>)
    requires IsDirectory(fs) && fs[0].Some?
    ensures IsDirectory(r) && r[0].Some?
  {
    fs[0 := Some(fs[0].value + [data])]
  }

  /** A record written through a handle to the current file, which is rotated first if it has
      reached the limit. */
  function Written(fs: seq<Option<File>>, data: Record, max: nat): (r: seq<Option<File>>)
    requires IsDirectory(fs) && fs[0].Some?
    ensures IsDirectory(r) && r[0].Some?
  {
    Appended(if NeedsRotation(fs, max) then Opened(Rotated(fs, max)) else fs, data)
  }

  // ----- The program, on files it renames in place -----

  class LogDirectory {
    const files: array<Option<File>>

    ghost predicate Valid()
      reads this
    {
      files.Length == BACKUPS + 1
    }

    constructor ()
      ensures Valid() && fresh(files)
      ensures files[..] == seq(BACKUPS + 1, _ => None)
    {
      files := new Option<File>[BACKUPS + 1](_ => None);
    }

    method RenameFile(from: nat, to: nat)
      requires Valid() && from <= BACKUPS && to <= BACKUPS && from != to
      modifies files
      ensures files[..] == Rename(old(files[..]), from, to)
    {
      files[to] := files[from];
      files[from] := None;
    }

    method RotateLogFile(max: nat)
      requires Valid()
      modifies files
      ensures files[..] == Rotated(old(files[..]), max)
    {
      if files[0].None? {
        return;
      }
      if Size(files[0].value) < max {
        return;
      }
      var i := BACKUPS - 1;
      while i >= 1
        invariant 0 <= i < BACKUPS
        invariant ShiftBackups(files[..], i) == ShiftBackups(old(files[..]), BACKUPS - 1)
      {
        if files[i].Some? {
          RenameFile(i, i + 1);
        }
        i := i - 1;
      }
      RenameFile(0, 1);
    }

    method OpenLog()
      requires Valid()
      modifies files
      ensures files[..] == Opened(old(files[..]))
    {
      if files[0].None? {
        files[0] := Some([]);
      }
    }

    method WriteLogWithRotation(data: Record, max: nat)
      requires Valid() && files[0].Some?
      modifies files
      ensures files[..] == Written(old(files[..]), data, max)
    {
      if Size(files[0].value) >= max {
        RotateLogFile(max);
        OpenLog();
      }
      files[0] := Some(files[0].value + [data]);
    }
  }

  // ----- Whole runs -----

  datatype Event = Open | Write(data: Record)

  function After(fs: seq<Option<File>>, e: Event, max: nat): (r: seq<Option<File>>)
    requires IsDirectory(fs)
    ensures IsDirectory(r)
  {
    match e
    case Open => Opened(fs)
    case Write(data) => Written(Opened(fs), data, max)
  }

  function RunOf(events: seq<Event>, max: nat): (r: seq<Option<File>>)
    ensures IsDirectory(r)
  {
    if events == [] then seq(BACKUPS + 1, _ => None)
    else After(RunOf(events[..|events| - 1], max), events[|events| - 1], max)
  }

  /** Every record handed to the log. */
  function Records(events: seq<Event>): File {
    if events == [] then []
    else
      var front, last := Records(events[..|events| - 1]), events[|events| - 1];
      if last.Write? then front + [last.data] else front
  }

  function Contents(f: Option<File>): File {
    f.GetOr([])
  }

  /** The oldest backup first, the current file last. */
  function Concatenated(fs: seq<Option<File>>): File
    requires IsDirectory(fs)
  {
    Contents(fs[5]) + Contents(fs[4]) + Contents(fs[3]) + Contents(fs[2]) + Contents(fs[1]) + Contents(fs[0])
  }

  /** The current file was below the limit before its last record. */
  predicate BelowBeforeLast(f: File, max: nat) {
    f != [] ==> Size(f[..|f| - 1]) < max
  }

  /** Backups exist without gaps, each reached the limit with its last record, and records are
      gone only when every backup exists. */
  ghost predicate Keeps(fs: seq<Option<File>>, log: File, max: nat)
    requires IsDirectory(fs)
  {
    && (forall i | 2 <= i <= BACKUPS && fs[i].Some? :: fs[i - 1].Some?)
    && (forall i | 1 <= i <= BACKUPS && fs[i].Some? :: Size(fs[i].value) >= max && BelowBeforeLast(fs[i].value, max))
    && BelowBeforeLast(Contents(fs[0]), max)
    && exists lost: File :: Loses(fs, log, lost)
  }

  ghost predicate Loses(fs: seq<Option<File>>, log: File, lost: File)
    requires IsDirectory(fs)
  {
    log == lost + Concatenated(fs) && (lost != [] ==> fs[BACKUPS].Some?)
  }

  /** Under a gapless set of backups, rotation moves every file up by one. */
  lemma RotationShifts(fs: seq<Option<File>>)
    requires IsDirectory(fs) && forall i | 2 <= i <= BACKUPS && fs[i].Some? :: fs[i - 1].Some?
    ensures var r := Rename(ShiftBackups(fs, BACKUPS - 1), 0, 1);
            && r[0] == None
            && (forall i | 1 <= i <= 4 :: r[i] == fs[i - 1])
            && r[5] == if fs[4].Some? then fs[4] else fs[5]
  {
    var f4 := if fs[4].Some? then Rename(fs, 4, 5) else fs;
    var f3 := if f4[3].Some? then Rename(f4, 3, 4) else f4;
    var f2 := if f3[2].Some? then Rename(f3, 2, 3) else f3;
    var f1 := if f2[1].Some? then Rename(f2, 1, 2) else f2;
    assert ShiftBackups(fs, 4) == ShiftBackups(f4, 3);
    assert ShiftBackups(f4, 3) == ShiftBackups(f3, 2);
    assert ShiftBackups(f3, 2) == ShiftBackups(f2, 1);
    assert ShiftBackups(f2, 1) == ShiftBackups(f1, 0);
  }

  lemma ConcatenationShifts(lost: File, f5: File, f4: File, f3: File, f2: File, f1: File, f0: File)
    ensures lost + (f5 + f4 + f3 + f2 + f1 + f0) == (lost + f5) + (f4 + f3 + f2 + f1 + f0 + [])
  {
  }

  lemma RotatedKeeps(fs: seq<Option<File>>, log: File, max: nat)
    requires IsDirectory(fs) && Keeps(fs, log, max) && NeedsRotation(fs, max)
    ensures Keeps(Opened(Rotated(fs, max)), log, max)
  {
    RotationShifts(fs);
    var r := Opened(Rotated(fs, max));
    var lost: File :| Loses(fs, log, lost);
    if fs[4].Some? {
      ConcatenationShifts(lost, Contents(fs[5]), Contents(fs[4]), Contents(fs[3]), Contents(fs[2]),
                          Contents(fs[1]), Contents(fs[0]));
      assert Loses(r, log, lost + Contents(fs[5]));
    } else {
      assert fs[5].None?;
      ConcatenationShifts(lost, [], [], Contents(fs[3]), Contents(fs[2]), Contents(fs[1]), Contents(fs[0]));
      assert lost + [] == lost;
      assert Loses(r, log, lost);
    }
  }

  lemma AppendedKeeps(fs: seq<Option<File>>, log: File, data: Record, max: nat)
    requires IsDirectory(fs) && Keeps(fs, log, max) && fs[0].Some? && !NeedsRotation(fs, max)
    ensures Keeps(Appended(fs, data), log + [data], max)
  {
    var r := Appended(fs, data);
    var lost: File :| Loses(fs, log, lost);
    assert (fs[0].value + [data])[..|fs[0].value|] == fs[0].value;
    assert Concatenated(r) == Concatenated(fs) + [data];
    assert Loses(r, log + [data], lost);
  }

  lemma OpenedKeeps(fs: seq<Option<File>>, log: File, max: nat)
    requires IsDirectory(fs) && Keeps(fs, log, max)
    ensures Keeps(Opened(fs), log, max)
  {
    var lost: File :| Loses(fs, log, lost);
    assert Loses(Opened(fs), log, lost);
  }

  lemma StepKeeps(fs: seq<Option<File>>, log: File, e: Event, max: nat)
    requires IsDirectory(fs) && Keeps(fs, log, max) && max > 0
    ensures Keeps(After(fs, e, max), if e.Write? then log + [e.data] else log, max)
  {
    OpenedKeeps(fs, log, max);
    if e.Write? {
      var o := Opened(fs);
      if NeedsRotation(o, max) {
        RotatedKeeps(o, log, max);
        RotationShifts(o);
        AppendedKeeps(Opened(Rotated(o, max)), log, e.data, max);
      } else {
        AppendedKeeps(o, log, e.data, max);
      }
    }
  }

  lemma {:induction false} RunKeeps(events: seq<Event>, max: nat)
    requires max > 0
    ensures Keeps(RunOf(events, max), Records(events), max)
  {
    if events == [] {
      assert Loses(RunOf([], max), [], []);
    } else {
      RunKeeps(events[..|events| - 1], max);
      StepKeeps(RunOf(events[..|events| - 1], max), Records(events[..|events| - 1]), events[|events| - 1], max);
    }
  }

  // ----- Main result -----

  lemma {:induction false} SizeAppend(f: File, g: File)
    ensures Size(f + g) == Size(f) + Size(g)
  {
    if g == [] {
      assert f + g == f;
    } else {
      SizeAppend(f, g[..|g| - 1]);
      assert (f + g)[..|f + g| - 1] == f + g[..|g| - 1];
    }
  }

  lemma SizeOfConcatenation(fs: seq<Option<File>>)
    requires IsDirectory(fs)
    ensures Size(Concatenated(fs)) == Size(Contents(fs[5])) + Size(Contents(fs[4])) + Size(Contents(fs[3]))
                                      + Size(Contents(fs[2])) + Size(Contents(fs[1])) + Size(Contents(fs[0]))
  {
    var a := Contents(fs[5]) + Contents(fs[4]);
    SizeAppend(Contents(fs[5]), Contents(fs[4]));
    SizeAppend(a, Contents(fs[3]));
    SizeAppend(a + Contents(fs[3]), Contents(fs[2]));
    SizeAppend(a + Contents(fs[3]) + Contents(fs[2]), Contents(fs[1]));
    SizeAppend(a + Contents(fs[3]) + Contents(fs[2]) + Contents(fs[1]), Contents(fs[0]));
  }

  lemma FullBackupsHoldFiveLimits(fs: seq<Option<File>>, log: File, max: nat)
    requires IsDirectory(fs) && Keeps(fs, log, max)
    ensures fs[BACKUPS].Some? ==> Size(Concatenated(fs)) >= BACKUPS * max
  {
    SizeOfConcatenation(fs);
    if fs[5].Some? {
      assert fs[4].Some? && fs[3].Some? && fs[2].Some? && fs[1].Some?;
    }
  }

  function Min(a: nat, b: nat): nat {
    if a < b then a else b
  }

  /** After any sequence of openings and writes the files, oldest first, are the end of the log,
      cut between records; they hold at least five limits' worth of it, or all of it; and the
      current file passes the limit by its last record at most. */
  lemma LogKeepsItsEnd(events: seq<Event>, max: nat)
    requires max > 0
    ensures var fs, log := RunOf(events, max), Records(events);
            && IsSuffix(Concatenated(fs), log)
            && Size(Concatenated(fs)) >= Min(Size(log), BACKUPS * max)
            && BelowBeforeLast(Contents(fs[0]), max)
  {
    var fs, log := RunOf(events, max), Records(events);
    RunKeeps(events, max);
    var lost: File :| Loses(fs, log, lost);
    FullBackupsHoldFiveLimits(fs, log, max);
    assert log[|lost|..] == Concatenated(fs);
    assert lost == [] ==> log == Concatenated(fs);
  }

  /** Nothing is lost early: all records are still there as long as they amount to less than five
      limits. */
  lemma NothingLostEarly(events: seq<Event>, max: nat)
    requires max > 0 && Size(Records(events)) < BACKUPS * max
    ensures Concatenated(RunOf(events, max)) == Records(events)
  {
    var fs, log := RunOf(events, max), Records(events);
    RunKeeps(events, max);
    var lost: File :| Loses(fs, log, lost);
    SizeAppend(lost, Concatenated(fs));
    FullBackupsHoldFiveLimits(fs, log, max);
    assert lost == [];
  }

  // ----- The same in bytes -----

  /** What a reader of the file sees. */
  function Bytes(f: File): seq<bv8> {
    if f == [] then [] else Bytes(f[..|f| - 1]) + f[|f| - 1]
  }

  lemma {:induction false} SizeIsBytes(f: File)
    ensures Size(f) == |Bytes(f)|
  {
    if f != [] {
      SizeIsBytes(f[..|f| - 1]);
      SizeAppend(f[..|f| - 1], [f[|f| - 1]]);
      assert f == f[..|f| - 1] + [f[|f| - 1]];
      assert Size([f[|f| - 1]]) == |f[|f| - 1]|;
    }
  }

  lemma {:induction false} BytesAppend(f: File, g: File)
    ensures Bytes(f + g) == Bytes(f) + Bytes(g)
  {
    if g == [] {
      assert f + g == f;
    } else {
      BytesAppend(f, g[..|g| - 1]);
      assert (f + g)[..|f + g| - 1] == f + g[..|g| - 1];
    }
  }

  /** The bytes in the six files, oldest first, are the last of all bytes written, at least five limits
      of them or all; and the current file held less than the limit before its last record. */
  lemma LogKeepsItsBytes(events: seq<Event>, max: nat)
    requires max > 0
    ensures var fs, log := RunOf(events, max), Records(events);
            && IsSuffix(Bytes(Concatenated(fs)), Bytes(log))
            && |Bytes(Concatenated(fs))| >= Min(|Bytes(log)|, 5 * max)
            && var current := Contents(fs[0]);
               current != [] ==> |Bytes(current[..|current| - 1])| < max
  {
    hide Bytes, Size, RunOf, Records, Concatenated, Contents;
    LogKeepsItsEnd(events, max);
    var fs, log := RunOf(events, max), Records(events);
    var kept := Concatenated(fs);
    var lost := log[..|log| - |kept|];
    assert log == lost + kept;
    BytesAppend(lost, kept);
    SizeIsBytes(kept);
    SizeIsBytes(log);
    var current := Contents(fs[0]);
    if current != [] {
      SizeIsBytes(current[..|current| - 1]);
    }
  }
}
