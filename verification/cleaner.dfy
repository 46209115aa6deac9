/** The retention enforcer: `EnforceLogRetention`, `handleFile`,
    `handleCompressedFile`, `removeFile` and `EnsurePathExists`. The file
    system is an input: the probe of the directory, the listing, and for each
    entry the outcome of its stat and of its removal. The log calls the
    enforcer makes are returned as `Event`s, in order. */
module Cleaner {
  import opened Strings
  import opened Options
  import opened Define
  import opened Registry

  /** The outcome of `file.Info()`: the size in bytes, or the error text. */
  datatype Info = InfoOk(size: nat) | InfoErr(err: string)

  /** The outcome `os.Remove` would have for the entry. */
  datatype Removal = Removed | RemoveErr(err: string)

  /** One entry of `os.ReadDir`; `name` holds no path separator. */
  datatype DirEntry = DirEntry(name: string, isDir: bool, info: Info, removal: Removal)

  /** Why a file is deleted; the size replaces the source's MiB figure. */
  datatype Reason =
    | InfoFailure
    | OversizedWhitelist(size: nat)
    | OversizedCompressed(size: nat)
    | NonWhitelist
    | NonWhitelistedPrefix

  datatype Verdict = Keep | Delete(reason: Reason)

  /** `filepath.Join(LogDeadRisingPath, name)` for a name without separators. */
  function EntryPath(name: string): string {
    LogDeadRisingPath + name
  }

  /** The plain log a compressed segment was rotated from: the base name up
      to its first hyphen, plus ".log", in the scanned directory. */
  function OriginalLogFile(filePath: string): string {
    LogDeadRisingPath + BeforeFirst(AfterLast(filePath, '/'), '-') + ".log"
  }

  /** The classification a file's path gets, before its size is looked at. */
  datatype FileClass = WhitelistedPlain | WhitelistedCompressed | UnlistedCompressed | UnlistedPlain

  function ClassOf(filePath: string): FileClass {
    if filePath in WhitelistedFiles then WhitelistedPlain
    else if HasSuffix(filePath, ".gz") then
      if OriginalLogFile(filePath) in WhitelistedFiles then WhitelistedCompressed else UnlistedCompressed
    else UnlistedPlain
  }

  /** A path protected from unconditional deletion: whitelisted itself, or a
      compressed segment of a whitelisted log. */
  predicate Protected(filePath: string) {
    filePath in WhitelistedFiles || (HasSuffix(filePath, ".gz") && OriginalLogFile(filePath) in WhitelistedFiles)
  }

  /** `handleCompressedFile`'s decision: a segment is deleted exactly when
      the log it derives back to is not whitelisted or it is over the cap. */
  function CompressedVerdict(filePath: string, size: nat): (v: Verdict)
    ensures v.Delete? <==> OriginalLogFile(filePath) !in WhitelistedFiles || size > MaxLogFileSize
    ensures v.Delete? ==> v.reason == (if OriginalLogFile(filePath) in WhitelistedFiles then OversizedCompressed(size) else NonWhitelistedPrefix)
  {
    if OriginalLogFile(filePath) in WhitelistedFiles then
      if size > MaxLogFileSize then Delete(OversizedCompressed(size)) else Keep
    else
      Delete(NonWhitelistedPrefix)
  }

  /** `handleFile`'s decision: a file is deleted exactly when its metadata
      cannot be read, it is not protected, or it is over the cap; a protected
      file at the cap is kept. */
  function Classify(filePath: string, info: Info): (v: Verdict)
    ensures v.Delete? <==> info.InfoErr? || !Protected(filePath) || info.size > MaxLogFileSize
    ensures info.InfoErr? ==> v == Delete(InfoFailure)
    ensures info.InfoOk? && v.Delete? ==> v.reason == match ClassOf(filePath)
      case WhitelistedPlain => OversizedWhitelist(info.size)
      case WhitelistedCompressed => OversizedCompressed(info.size)
      case UnlistedCompressed => NonWhitelistedPrefix
      case UnlistedPlain => NonWhitelist
  {
    match info
    case InfoErr(_) => Delete(InfoFailure)
    case InfoOk(size) =>
      if filePath in WhitelistedFiles then
        if size > MaxLogFileSize then Delete(OversizedWhitelist(size)) else Keep
      else if HasSuffix(filePath, ".gz") then
        CompressedVerdict(filePath, size)
      else
        Delete(NonWhitelist)
  }

  /** The cap boundary: a protected file of exactly `MaxLogFileSize` bytes is
      kept and one byte more deletes it, whitelisted or compressed. */
  lemma CapBoundary(filePath: string)
    requires Protected(filePath)
    ensures Classify(filePath, InfoOk(MaxLogFileSize)) == Keep
    ensures Classify(filePath, InfoOk(MaxLogFileSize + 1)).Delete?
  {
  }

  /** Whitelist membership is decided first: a whitelisted path is only ever
      deleted as an oversized whitelist file, never by the compressed-file
      rules, and a whitelisted path never ends in ".gz". */
  lemma WhitelistFirst(filePath: string, size: nat)
    requires filePath in WhitelistedFiles
    ensures Classify(filePath, InfoOk(size)) == (if size > MaxLogFileSize then Delete(OversizedWhitelist(size)) else Keep)
    ensures !HasSuffix(filePath, ".gz")
  {
    var w := filePath;
    assert w[|w| - 1] == 'g';
  }

  /** A file that is neither whitelisted nor compressed is deleted at any
      size, the empty file included. */
  lemma UnlistedPlainDeleted(filePath: string, size: nat)
    requires filePath !in WhitelistedFiles && !HasSuffix(filePath, ".gz")
    ensures Classify(filePath, InfoOk(size)) == Delete(NonWhitelist)
    ensures Classify(filePath, InfoOk(0)) == Delete(NonWhitelist)
  {
  }

  /** The path of a directory entry ends in ".gz" exactly when its name does. */
  lemma EntryGzSuffix(name: string)
    ensures HasSuffix(EntryPath(name), ".gz") <==> HasSuffix(name, ".gz")
  {
    var p := EntryPath(name);
    if |name| >= 3 {
      assert p[|p| - 3..] == name[|name| - 3..];
    } else {
      var k := |LogDeadRisingPath| - 1;
      assert p[k] == '/';
      assert p[|p| - 3..][k - (|p| - 3)] == '/';
      assert '/' in p[|p| - 3..] && '/' !in ".gz";
    }
  }

  /** For an entry, the derived original is the scanned directory, the name
      up to its first hyphen (all of it without one), and ".log". */
  lemma OriginalOfEntry(name: string)
    requires '/' !in name
    ensures OriginalLogFile(EntryPath(name)) == LogDeadRisingPath + BeforeFirst(name, '-') + ".log"
  {
    AfterLastOfJoin(LogDeadRisingPath, name, '/');
  }

  /** A compressed entry is protected exactly when the text before the first
      hyphen of its name is one of the three whitelisted stems; protected, it
      is deleted only over the cap, otherwise it is deleted whatever its size. */
  lemma CompressedEntry(name: string, size: nat)
    requires '/' !in name && HasSuffix(name, ".gz")
    ensures var v := Classify(EntryPath(name), InfoOk(size));
            if BeforeFirst(name, '-') in WhitelistStems
            then v == (if size > MaxLogFileSize then Delete(OversizedCompressed(size)) else Keep)
            else v == Delete(NonWhitelistedPrefix)
  {
    var p := EntryPath(name);
    EntryGzSuffix(name);
    assert p[|p| - 1] == 'z';
    assert p !in WhitelistedFiles by {
      assert LogLinkLayer[|LogLinkLayer| - 1] == 'g';
      assert LogPowerEvent[|LogPowerEvent| - 1] == 'g';
      assert LogUnlockSchedule[|LogUnlockSchedule| - 1] == 'g';
    }
    OriginalOfEntry(name);
    WhitelistLayout(BeforeFirst(name, '-'));
  }

  /** A rotated segment `<stem>-<anything>.gz` of a whitelisted log derives
      back to that log, so it is kept up to the cap. */
  lemma RotatedSegmentKept(stem: string, rest: string, size: nat)
    requires stem in WhitelistStems
    requires '/' !in rest && HasSuffix(rest, ".gz")
    ensures OriginalLogFile(EntryPath(stem + "-" + rest)) == LogDeadRisingPath + stem + ".log"
    ensures OriginalLogFile(EntryPath(stem + "-" + rest)) in WhitelistedFiles
    ensures Classify(EntryPath(stem + "-" + rest), InfoOk(size))
         == (if size > MaxLogFileSize then Delete(OversizedCompressed(size)) else Keep)
  {
    WhitelistLayout(stem);
    var name := stem + "-" + rest;
    assert name == stem + ['-'] + rest;
    BeforeFirstOfStem(stem, '-', rest);
    assert '/' !in name;
    assert name[|name| - 3..] == rest[|rest| - 3..];
    OriginalOfEntry(name);
    CompressedEntry(name, size);
  }

  /** The log text of a deletion reason. */
  function ReasonText(r: Reason): string {
    match r
    case InfoFailure => "Failed to get file info"
    case OversizedWhitelist(size) => "Oversized whitelist file (" + Decimal(size) + " bytes)"
    case OversizedCompressed(size) => "Oversized compressed file (" + Decimal(size) + " bytes)"
    case NonWhitelist => "Non-whitelist file"
    case NonWhitelistedPrefix => "Compressed file with non-whitelisted prefix"
  }

  /** One call of `os.Remove` and whether it succeeded. */
  datatype Attempt = Attempt(path: string, reason: Reason, succeeded: bool)

  /** The removal attempts and log calls of part of a scan. */
  datatype Handled = Handled(attempts: seq<Attempt>, events: seq<Event>)

  /** A status event: a warning to the warning log or an error to the error log. */
  predicate StatusEvent(e: Event) {
    (e.path == LogWarningFile && e.level == LevelWarn) || (e.path == LogErrorFile && e.level == LevelError)
  }

  /** `removeFile`: one attempt and exactly one event, a warning to the
      warning log on success and an error to the error log on failure. */
  function RemoveFile(filePath: string, reason: Reason, removal: Removal): (h: Handled)
    ensures |h.attempts| == 1 && |h.events| == 1
    ensures h.attempts[0].succeeded <==> removal.Removed?
    ensures h.events[0].path == (if removal.Removed? then LogWarningFile else LogErrorFile)
    ensures h.events[0].level == (if removal.Removed? then LevelWarn else LevelError)
    ensures StatusEvent(h.events[0])
  {
    var e := match removal
      case Removed => Event(LogWarningFile, LevelWarn, "Deleted " + filePath + ": " + ReasonText(reason))
      case RemoveErr(err) => Event(LogErrorFile, LevelError, "Failed to delete " + filePath + ": " + err);
    Handled([Attempt(filePath, reason, removal.Removed?)], [e])
  }

  /** `handleFile` for a non-directory entry: one removal attempt exactly
      when the verdict is Delete; one event per attempt, preceded by an error
      event when the metadata could not be read. */
  function HandleFile(e: DirEntry): (h: Handled)
    ensures |h.attempts| == (if Classify(EntryPath(e.name), e.info).Delete? then 1 else 0)
    ensures |h.attempts| == 1 ==>
              h.attempts[0].path == EntryPath(e.name) && h.attempts[0].reason == Classify(EntryPath(e.name), e.info).reason
    ensures |h.events| == |h.attempts| + (if e.info.InfoErr? then 1 else 0)
    ensures forall ev | ev in h.events :: StatusEvent(ev)
    ensures e.info.InfoErr? ==> h.events[0].path == LogErrorFile && h.events[0].level == LevelError
    ensures |h.attempts| == 1 ==>
              && (h.attempts[0].succeeded <==> e.removal.Removed?)
              && (h.events[|h.events| - 1].level == LevelWarn <==> e.removal.Removed?)
  {
    var path := EntryPath(e.name);
    var pre := match e.info
      case InfoErr(err) => [Event(LogErrorFile, LevelError, "Failed to get file info for " + path + " (removing): " + err)]
      case InfoOk(_) => [];
    match Classify(path, e.info)
    case Keep => Handled([], pre)
    case Delete(reason) =>
      var rm := RemoveFile(path, reason, e.removal);
      Handled(rm.attempts, pre + rm.events)
  }

  /** One turn of the scan loop: directories are skipped, so only a doomed
      file is removed, and an unreadable file adds one more log call. */
  function ScanEntry(e: DirEntry): (h: Handled)
    ensures |h.attempts| == (if Doomed(e) then 1 else 0)
    ensures |h.events| == |h.attempts| + (if !e.isDir && e.info.InfoErr? then 1 else 0)
  {
    if e.isDir then Handled([], []) else HandleFile(e)
  }

  /** The whole scan loop over a listing, one entry after another: at most
      one removal attempt and two log calls per entry. */
  function Scan(entries: seq<DirEntry>): (r: Handled)
    ensures |r.attempts| <= |entries| && |r.events| <= 2 * |entries|
    decreases |entries|
  {
    if |entries| == 0 then Handled([], [])
    else
      var first := ScanEntry(entries[0]);
      var rest := Scan(entries[1..]);
      Handled(first.attempts + rest.attempts, first.events + rest.events)
  }

  /** The scan of a non-empty listing: its first entry, then the rest. */
  lemma ScanCons(entries: seq<DirEntry>)
    requires |entries| > 0
    ensures Scan(entries) == Handled(ScanEntry(entries[0]).attempts + Scan(entries[1..]).attempts,
                                     ScanEntry(entries[0]).events + Scan(entries[1..]).events)
  {
  }

  /** The scan loop with its per-entry step left abstract. */
  function Fold(step: DirEntry -> Handled, entries: seq<DirEntry>): Handled
    decreases |entries|
  {
    if |entries| == 0 then Handled([], [])
    else
      var first := step(entries[0]);
      var rest := Fold(step, entries[1..]);
      Handled(first.attempts + rest.attempts, first.events + rest.events)
  }

  lemma {:induction false} FoldSplit(step: DirEntry -> Handled, a: seq<DirEntry>, b: seq<DirEntry>)
    ensures Fold(step, a + b) == Handled(Fold(step, a).attempts + Fold(step, b).attempts, Fold(step, a).events + Fold(step, b).events)
    decreases |a|
  {
    if |a| == 0 {
      assert a + b == b;
    } else {
      var first := step(a[0]);
      assert (a + b)[0] == a[0] && (a + b)[1..] == a[1..] + b;
      FoldSplit(step, a[1..], b);
      ConcatAssoc(first.attempts, Fold(step, a[1..]).attempts, Fold(step, b).attempts);
      ConcatAssoc(first.events, Fold(step, a[1..]).events, Fold(step, b).events);
    }
  }

  /** `Scan` is the fold of `ScanEntry`. */
  lemma {:induction false} ScanIsFold(entries: seq<DirEntry>)
    ensures Scan(entries) == Fold(ScanEntry, entries)
    decreases |entries|
  {
    if |entries| > 0 {
      ScanIsFold(entries[1..]);
      ScanCons(entries);
    }
  }

  /** The scan of a listing is the scans of its parts, one after the other:
      each entry's outcome depends on that entry alone. */
  lemma ScanSplit(a: seq<DirEntry>, b: seq<DirEntry>)
    ensures Scan(a + b) == Handled(Scan(a).attempts + Scan(b).attempts, Scan(a).events + Scan(b).events)
  {
    ScanIsFold(a + b);
    ScanIsFold(a);
    ScanIsFold(b);
    FoldSplit(ScanEntry, a, b);
  }

  /** Scanning one more entry appends its outcome. */
  lemma ScanSnoc(entries: seq<DirEntry>, e: DirEntry)
    ensures Scan(entries + [e]) == Handled(Scan(entries).attempts + ScanEntry(e).attempts, Scan(entries).events + ScanEntry(e).events)
  {
    ScanSplit(entries, [e]);
    assert Scan([e]) == ScanEntry(e) by {
      assert [e][1..] == [];
    }
  }

  /** A file is deleted by the scan exactly when it is a non-directory
      entry whose verdict is Delete. */
  predicate Doomed(e: DirEntry) {
    !e.isDir && Classify(EntryPath(e.name), e.info).Delete?
  }

  /** The paths the scan tries to remove are exactly those of doomed entries,
      each with its verdict's reason. */
  lemma {:induction false} ScanRemovesDoomed(entries: seq<DirEntry>)
    ensures (set a | a in Scan(entries).attempts :: a.path)
         == (set e | e in entries && Doomed(e) :: EntryPath(e.name))
    ensures forall a | a in Scan(entries).attempts ::
              exists e | e in entries && Doomed(e) :: a.path == EntryPath(e.name) && a.reason == Classify(a.path, e.info).reason
    decreases |entries|
  {
    if |entries| > 0 {
      ScanRemovesDoomed(entries[1..]);
      var first := ScanEntry(entries[0]);
      assert forall a | a in first.attempts :: a == first.attempts[0];
      assert (set e | e in entries && Doomed(e) :: EntryPath(e.name))
          == (set e | e in [entries[0]] && Doomed(e) :: EntryPath(e.name))
           + (set e | e in entries[1..] && Doomed(e) :: EntryPath(e.name));
    }
  }

  /** How many entries are files whose metadata could not be read. */
  function InfoFailures(entries: seq<DirEntry>): nat
    decreases |entries|
  {
    if |entries| == 0 then 0
    else (if !entries[0].isDir && entries[0].info.InfoErr? then 1 else 0) + InfoFailures(entries[1..])
  }

  /** The scan logs one event per removal attempt plus one per unreadable
      file, and every event is a status event. */
  lemma {:induction false} ScanEvents(entries: seq<DirEntry>)
    ensures |Scan(entries).events| == |Scan(entries).attempts| + InfoFailures(entries)
    ensures forall ev | ev in Scan(entries).events :: StatusEvent(ev)
    decreases |entries|
  {
    if |entries| > 0 {
      ScanEvents(entries[1..]);
    }
  }

  /** How the scanned directory was found by `os.Stat`, and the outcome of
      `os.MkdirAll` when it was missing. */
  datatype DirProbe = Present | Absent(mkdirErr: Option<string>) | StatErr(err: string)

  /** `EnsurePathExists`'s three outcomes. */
  datatype EnsureOutcome = AlreadyExists | Created | Failed(err: string)

  datatype Ensured = Ensured(outcome: EnsureOutcome, events: seq<Event>)

  /** `EnsurePathExists`: a present directory is reported as existing, a
      missing one is created, and only a failing stat or a failing creation
      is an error. Each outcome but a failed creation logs one event. */
  function EnsurePathExists(path: string, probe: DirProbe): (r: Ensured)
    ensures r.outcome.Failed? <==> probe.StatErr? || (probe.Absent? && probe.mkdirErr.Some?)
    ensures r.outcome == Created <==> probe == Absent(None)
    ensures |r.events| == (if probe.Absent? && probe.mkdirErr.Some? then 0 else 1)
    ensures forall ev | ev in r.events :: StatusEvent(ev) && (ev.level == LevelError <==> r.outcome.Failed?)
  {
    match probe
    case Present =>
      Ensured(AlreadyExists, [Event(LogWarningFile, LevelWarn, "Directory already exists: " + path)])
    case Absent(None) =>
      Ensured(Created, [Event(LogWarningFile, LevelWarn, "Directory created: " + path)])
    case Absent(Some(err)) =>
      Ensured(Failed("failed to create directory " + path + ": " + err), [])
    case StatErr(err) =>
      Ensured(Failed(err), [Event(LogErrorFile, LevelError, "Error checking directory " + path + ": " + err)])
  }

  /** The result of `os.ReadDir` on the scanned directory. */
  datatype Listing = Listed(entries: seq<DirEntry>) | ListErr(err: string)

  /** Everything one `EnforceLogRetention` call does: its returned error,
      its removal attempts and its log calls, in order. */
  datatype Retention = Retention(err: Option<string>, attempts: seq<Attempt>, events: seq<Event>)

  /** The reference definition of `EnforceLogRetention`. */
  function Enforce(probe: DirProbe, listing: Listing): (r: Retention)
    ensures r.err.None? <==> !EnsurePathExists(LogDeadRisingPath, probe).outcome.Failed? && listing.Listed?
    ensures r.err.Some? ==> r.attempts == []
    ensures r.err.None? ==> r.attempts == Scan(listing.entries).attempts
    ensures r.err.None? ==> |r.events| == 1 + |r.attempts| + InfoFailures(listing.entries)
    ensures r.err.None? ==> r.events[0].path == LogWarningFile && r.events[0].level == LevelWarn
    ensures r.err.None? ==> r.events[1..] == Scan(listing.entries).events
    ensures r.err.Some? ==> |r.events| > 0 && r.events[|r.events| - 1].path == LogErrorFile
                            && r.events[|r.events| - 1].level == LevelError
  {
    var ensured := EnsurePathExists(LogDeadRisingPath, probe);
    match ensured.outcome
    case Failed(err) =>
      Retention(Some(err), [], ensured.events + [Event(LogErrorFile, LevelError, "Failed to ensure log directory exists: " + err)])
    case _ =>
      match listing
      case ListErr(err) =>
        Retention(Some(err), [], ensured.events + [Event(LogErrorFile, LevelError, "Failed to read log directory: " + err)])
      case Listed(entries) =>
        var scan := Scan(entries);
        ScanEvents(entries);
        Retention(None, scan.attempts, ensured.events + scan.events)
  }

  /** Every log call of a retention run is a status event, so the run only
      ever writes to the warning and error logs. */
  lemma EnforceLogsStatusOnly(probe: DirProbe, listing: Listing)
    ensures forall ev | ev in Enforce(probe, listing).events :: StatusEvent(ev)
  {
    if listing.Listed? {
      ScanEvents(listing.entries);
    }
  }

  /** The loop of `EnforceLogRetention`: directories are skipped, every
      other entry is handled, and nothing a file's handling does stops it. */
  method ScanLoop(entries: seq<DirEntry>) returns (attempts: seq<Attempt>, events: seq<Event>)
    ensures Handled(attempts, events) == Scan(entries)
  {
    attempts, events := [], [];
    for i := 0 to |entries|
      invariant Handled(attempts, events) == Scan(entries[..i])
    {
      var entry := entries[i];
      assert entries[..i + 1] == entries[..i] + [entry];
      ScanSnoc(entries[..i], entry);
      if entry.isDir {
        assert attempts + [] == attempts && events + [] == events;
        continue;
      }
      var h := HandleFile(entry);
      attempts := attempts + h.attempts;
      events := events + h.events;
    }
    assert entries[..|entries|] == entries;
  }

  /** `EnforceLogRetention`. It returns an error only when the directory
      cannot be ensured or listed; no per-file outcome stops the scan or
      changes the result. */
  method EnforceLogRetention(probe: DirProbe, listing: Listing) returns (err: Option<string>, attempts: seq<Attempt>, events: seq<Event>)
    ensures err.None? <==> !EnsurePathExists(LogDeadRisingPath, probe).outcome.Failed? && listing.Listed?
    ensures Retention(err, attempts, events) == Enforce(probe, listing)
  {
    var ensured := EnsurePathExists(LogDeadRisingPath, probe);
    if ensured.outcome.Failed? {
      var e := ensured.outcome.err;
      return Some(e), [], ensured.events + [Event(LogErrorFile, LevelError, "Failed to ensure log directory exists: " + e)];
    }
    if listing.ListErr? {
      return Some(listing.err), [], ensured.events + [Event(LogErrorFile, LevelError, "Failed to read log directory: " + listing.err)];
    }
    var scanned;
    attempts, scanned := ScanLoop(listing.entries);
    events := ensured.events + scanned;
    err := None;
  }

  lemma ScanOfThree(e1: DirEntry, e2: DirEntry, e3: DirEntry)
    ensures Scan([e1, e2, e3]).attempts == ScanEntry(e1).attempts + ScanEntry(e2).attempts + ScanEntry(e3).attempts
  {
    ScanSplit([e1], [e2, e3]);
    ScanSplit([e2], [e3]);
    assert [e1] + [e2, e3] == [e1, e2, e3];
    assert [e2] + [e3] == [e2, e3];
    assert Scan([e1]) == ScanEntry(e1) by { assert [e1][1..] == []; }
    assert Scan([e2]) == ScanEntry(e2) by { assert [e2][1..] == []; }
    assert Scan([e3]) == ScanEntry(e3) by { assert [e3][1..] == []; }
  }

  lemma ScenarioOversizedWhitelisted()
    ensures ScanEntry(DirEntry("link_layer.log", false, InfoOk(2 * 1024 * 1024), Removed)).attempts
         == [Attempt(LogLinkLayer, OversizedWhitelist(2 * 1024 * 1024), true)]
  {
    assert EntryPath("link_layer.log") == LogLinkLayer;
  }

  lemma ScenarioUnlisted()
    ensures ScanEntry(DirEntry("debug.log", false, InfoOk(10 * 1024), Removed)).attempts
         == [Attempt(LogDeadRisingPath + "debug.log", NonWhitelist, true)]
  {
    var dl := LogDeadRisingPath + "debug.log";
    assert dl !in WhitelistedFiles by {
      assert dl[|LogDeadRisingPath|] == 'd';
      assert LogLinkLayer[|LogDeadRisingPath|] == 'l';
      assert LogPowerEvent[|LogDeadRisingPath|] == 'p';
      assert LogUnlockSchedule[|LogDeadRisingPath|] == 'u';
    }
    assert dl[|dl| - 1] == 'g';
    UnlistedPlainDeleted(dl, 10 * 1024);
  }

  /** The segment's name is a whitelisted stem, a hyphen and a ".gz" tail. */
  lemma SegmentName()
    ensures "link_layer" + "-" + "001.log.gz" == "link_layer-001.log.gz"
    ensures '/' !in "001.log.gz" && HasSuffix("001.log.gz", ".gz")
  {
    var rest := "001.log.gz";
    assert rest[|rest| - 3..] == ".gz";
  }

  lemma ScenarioSegment()
    ensures ScanEntry(DirEntry("link_layer-001.log.gz", false, InfoOk(512 * 1024), Removed)).attempts == []
  {
    SegmentName();
    RotatedSegmentKept("link_layer", "001.log.gz", 512 * 1024);
    assert Classify(EntryPath("link_layer-001.log.gz"), InfoOk(512 * 1024)) == Keep;
  }

  /** The scenario of a directory holding an oversized whitelisted log, a
      small unlisted log and a small rotated segment of the whitelisted log,
      listed in name order as `os.ReadDir` returns them: the unlisted log
      and the whitelisted log are removed, in that order, and the segment is
      kept. */
  lemma RetentionScenario()
    ensures var entries := [
              DirEntry("debug.log", false, InfoOk(10 * 1024), Removed),
              DirEntry("link_layer-001.log.gz", false, InfoOk(512 * 1024), Removed),
              DirEntry("link_layer.log", false, InfoOk(2 * 1024 * 1024), Removed)];
            Scan(entries).attempts == [
              Attempt(LogDeadRisingPath + "debug.log", NonWhitelist, true),
              Attempt(LogLinkLayer, OversizedWhitelist(2 * 1024 * 1024), true)]
  {
    ScanOfThree(DirEntry("debug.log", false, InfoOk(10 * 1024), Removed),
                DirEntry("link_layer-001.log.gz", false, InfoOk(512 * 1024), Removed),
                DirEntry("link_layer.log", false, InfoOk(2 * 1024 * 1024), Removed));
    ScenarioUnlisted();
    ScenarioSegment();
    ScenarioOversizedWhitelisted();
  }
}
