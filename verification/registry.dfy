/** The logger registry of `GetLogger`, the handle configuration it builds,
    and the tee'd emission of `LogMessage` and `emit`. The package globals
    (`loggers` and `logTimezoneStr`) are an explicit `Facility` value that
    each operation takes and returns. */
module Registry {
  import opened Strings
  import opened Options
  import opened Define
  import opened Severity
  import opened Console

  /** One call of `LogMessage(path, level, msg)`. */
  datatype Event = Event(path: string, level: LogLevel, msg: string)

  /** The lumberjack settings of a handle's file sink (`MaxSize` in megabytes). */
  datatype RotationPolicy = RotationPolicy(filename: string, maxSizeMB: nat, maxBackups: nat, compress: bool)

  /** The encoder configuration of the JSON file sink. The time layout is
      `TimeLayoutBase`, a space and the timezone label read at construction. */
  datatype FileEncoder = FileEncoder(timeKey: string, levelKey: string, messageKey: string, timezone: string, capitalLevels: bool)

  const TimeLayoutBase: string := "2006-01-02 15:04:05.000"

  function TimeLayout(enc: FileEncoder): string {
    TimeLayoutBase + " " + enc.timezone
  }

  /** One `*zap.Logger`: both cores share `threshold`. */
  datatype Handle = Handle(path: string, threshold: Level, rotation: RotationPolicy, encoder: FileEncoder)

  /** The values of `ZAP_LOG_LEVEL` and `ZAP_LOG_TIMEZONE` (empty when unset). */
  datatype Env = Env(logLevel: string, timezone: string)

  /** The package state: the `loggers` map and `logTimezoneStr`. */
  datatype Facility = Facility(loggers: map<string, Handle>, timezone: string)

  /** The state at package initialisation. */
  const Initial: Facility := Facility(map[], "")

  /** The configuration every handle for `path` is built with, whatever
      the environment: rotation at 1 MB keeping one compressed backup, and
      `time`/`level`/`msg` file records with capital level names. */
  predicate Configured(path: string, h: Handle) {
    && h.path == path
    && h.rotation == RotationPolicy(path, 1, 1, true)
    && h.encoder.timeKey == "time"
    && h.encoder.levelKey == "level"
    && h.encoder.messageKey == "msg"
    && h.encoder.capitalLevels
  }

  /** Each handle is stored under its own path and configured for it. */
  predicate WellFormed(f: Facility) {
    forall p | p in f.loggers :: Configured(p, f.loggers[p])
  }

  /** The handle `GetLogger` builds for `path` on a miss. */
  function NewHandle(path: string, env: Env): (h: Handle)
    ensures Configured(path, h)
    ensures h.threshold == ParseLevel(env.logLevel)
    ensures TimeLayout(h.encoder) == "2006-01-02 15:04:05.000 " + env.timezone
  {
    Handle(path, ParseLevel(env.logLevel),
           RotationPolicy(path, 1, 1, true),
           FileEncoder("time", "level", "msg", env.timezone, true))
  }

  /** What a `GetLogger` call yields: the new state, the handle, and the
      directory it asks `os.MkdirAll` to create (on a miss only). */
  datatype Lookup = Lookup(facility: Facility, handle: Handle, mkdir: Option<string>)

  /** `GetLogger`, run sequentially. A hit returns the stored handle and leaves
      the map alone; a miss adds exactly one entry, keyed by `path`. Either
      way `logTimezoneStr` is overwritten with the current environment value. */
  function GetLogger(f: Facility, env: Env, path: string): (r: Lookup)
    ensures r.facility.timezone == env.timezone
    ensures path in f.loggers ==> r.handle == f.loggers[path] && r.facility.loggers == f.loggers && r.mkdir == None
    ensures path !in f.loggers ==> r.facility.loggers == f.loggers[path := r.handle] && r.mkdir == Some(LogDeadRisingPath)
    ensures path in r.facility.loggers && r.facility.loggers[path] == r.handle
    ensures WellFormed(f) ==> WellFormed(r.facility) && Configured(path, r.handle)
  {
    var f' := f.(timezone := env.timezone);
    if path in f.loggers then
      Lookup(f', f.loggers[path], None)
    else
      var h := NewHandle(path, env);
      Lookup(f'.(loggers := f.loggers[path := h]), h, Some(LogDeadRisingPath))
  }

  /** A new handle is `Configured` for its path and keeps the threshold and
      timezone label of the environment at its first lookup:
      a later lookup under another environment returns it unchanged, while
      the console's timezone label follows the later environment. */
  lemma HandleConfigFrozen(f: Facility, env1: Env, env2: Env, path: string)
    requires path !in f.loggers
    ensures var first := GetLogger(f, env1, path);
            var second := GetLogger(first.facility, env2, path);
            && Configured(path, first.handle)
            && TimeLayout(first.handle.encoder) == "2006-01-02 15:04:05.000 " + env1.timezone
            && second.handle == first.handle
            && second.handle.threshold == ParseLevel(env1.logLevel)
            && second.facility.loggers == first.facility.loggers
            && second.mkdir == None
            && second.facility.timezone == env2.timezone
  {
  }

  /** A sequence of lookups only ever adds keys, never replaces a stored
      handle, and ends up holding every path looked up. */
  function LookupAll(f: Facility, env: Env, paths: seq<string>): (r: Facility)
    ensures r.loggers.Keys == f.loggers.Keys + set p | p in paths
    ensures forall p | p in f.loggers :: r.loggers[p] == f.loggers[p]
    ensures WellFormed(f) ==> WellFormed(r)
    decreases |paths|
  {
    if |paths| == 0 then f
    else
      var rest := LookupAll(GetLogger(f, env, paths[0]).facility, env, paths[1..]);
      assert (set p | p in paths) == {paths[0]} + set p | p in paths[1..];
      rest
  }

  lemma PathsOfCons(events: seq<Event>)
    requires |events| > 0
    ensures (set e | e in events :: e.path) == {events[0].path} + set e | e in events[1..] :: e.path
  {
    assert forall e | e in events :: e == events[0] || e in events[1..];
  }

  /** One JSON key/value pair of a file record. */
  datatype Field = Field(key: string, value: string)

  /** One line appended to the file sink, its fields in the JSON encoder's order. */
  datatype FileRecord = FileRecord(filename: string, fields: seq<Field>)

  /** The two clock readings of one call: the entry time (formatted with the
      base layout) and the reading `formatConsoleMessage` takes itself. */
  datatype Clock = Clock(entryTime: string, consoleTime: string)

  /** What one call writes: a file record and a console line, or neither. */
  datatype Emission = Emission(record: Option<FileRecord>, line: Option<string>)

  function LevelText(enc: FileEncoder, l: Level): string {
    if enc.capitalLevels then Upper(Name(l)) else Name(l)
  }

  /** The JSON file sink's record of an entry at level `l`. */
  function EncodeRecord(h: Handle, now: Clock, l: Level, msg: string): (r: FileRecord)
    ensures Configured(h.path, h) ==>
              && r.filename == h.path
              && r.fields == [Field("level", Upper(Name(l))),
                              Field("time", now.entryTime + " " + h.encoder.timezone),
                              Field("msg", msg)]
  {
    FileRecord(h.rotation.filename,
               [Field(h.encoder.levelKey, LevelText(h.encoder, l)),
                Field(h.encoder.timeKey, now.entryTime + " " + h.encoder.timezone),
                Field(h.encoder.messageKey, msg)])
  }

  /** The tee of the file core and the console core, built with the same
      threshold: an entry reaches both sinks or neither. */
  function Write(h: Handle, timezone: string, now: Clock, l: Level, msg: string): (e: Emission)
    ensures e.record.Some? <==> Enabled(h.threshold, l)
    ensures e.line.Some? <==> Enabled(h.threshold, l)
  {
    if Enabled(h.threshold, l) then
      Emission(Some(EncodeRecord(h, now, l, msg)), Some(EncodeEntryMessage(l, msg, now.consoleTime, timezone)))
    else
      Emission(None, None)
  }

  /** What one `LogMessage` call yields: the new state, what it wrote, and
      the directory its lookup asks `os.MkdirAll` to create. */
  datatype Logged = Logged(facility: Facility, emission: Emission, mkdir: Option<string>)

  /** `LogMessage`: look the handle up (creating it on first use), then `emit`
      at the level the `LogLevel` selects. */
  function LogMessage(f: Facility, env: Env, now: Clock, path: string, level: LogLevel, msg: string): (r: Logged)
    ensures r.facility == GetLogger(f, env, path).facility
    ensures path in r.facility.loggers
    ensures r.emission.record.Some? <==> Enabled(r.facility.loggers[path].threshold, EmitLevel(level))
    ensures r.emission.line.Some? <==> r.emission.record.Some?
    ensures r.mkdir == (if path in f.loggers then None else Some(LogDeadRisingPath))
  {
    var lk := GetLogger(f, env, path);
    Logged(lk.facility, Write(lk.handle, lk.facility.timezone, now, EmitLevel(level), msg), lk.mkdir)
  }

  /** On a well-formed registry a written record goes to `path`'s file and
      reads `{"level": LEVEL, "time": "<entry time> <tz>", "msg": msg}` with
      the handle's timezone label and the upper-cased level name, and the
      console line ends with the message under the current timezone label. */
  lemma LogMessageRecord(f: Facility, env: Env, now: Clock, path: string, level: LogLevel, msg: string)
    requires WellFormed(f)
    requires LogMessage(f, env, now, path, level, msg).emission.record.Some?
    ensures var r := LogMessage(f, env, now, path, level, msg);
            var h := r.facility.loggers[path];
            && r.emission.record.value.filename == path
            && r.emission.record.value.fields
               == [Field("level", Upper(Name(EmitLevel(level)))),
                   Field("time", now.entryTime + " " + h.encoder.timezone),
                   Field("msg", msg)]
            && r.emission.line.value
               == FormatConsoleMessage(Upper(Name(EmitLevel(level))), msg, now.consoleTime, env.timezone)
  {
    var lk := GetLogger(f, env, path);
    if path in f.loggers {
      assert WellFormed(f);
    }
  }

  lemma WellFormedInitial()
    ensures WellFormed(Initial) && Initial.loggers == map[]
  {
  }

  /** The file sinks and console lines a run of calls produces. */
  datatype Batch = Batch(facility: Facility, records: seq<FileRecord>, lines: seq<string>, mkdirs: seq<string>)

  function OptionSeq<T>(o: Option<T>): seq<T> {
    match o
    case Some(v) => [v]
    case None => []
  }

  /** A run of `LogMessage` calls sharing one clock reading. Both sinks
      receive the same number of entries; the registry gains exactly the
      paths logged to and keeps every handle it had. */
  function LogAll(f: Facility, env: Env, now: Clock, events: seq<Event>): (r: Batch)
    ensures |r.records| == |r.lines|
    ensures r.facility.loggers.Keys == f.loggers.Keys + set e | e in events :: e.path
    ensures forall e | e in events :: e.path in r.facility.loggers
    ensures forall p | p in f.loggers :: r.facility.loggers[p] == f.loggers[p]
    ensures WellFormed(f) ==> WellFormed(r.facility)
    decreases |events|
  {
    if |events| == 0 then Batch(f, [], [], [])
    else
      var first := LogMessage(f, env, now, events[0].path, events[0].level, events[0].msg);
      var rest := LogAll(first.facility, env, now, events[1..]);
      PathsOfCons(events);
      Batch(rest.facility,
            OptionSeq(first.emission.record) + rest.records,
            OptionSeq(first.emission.line) + rest.lines,
            OptionSeq(first.mkdir) + rest.mkdirs)
  }

  /** The file records a run's events call for, in order: one for each
      event whose level the handle for its path admits. */
  function RecordsFor(loggers: map<string, Handle>, now: Clock, events: seq<Event>): seq<FileRecord>
    requires forall e | e in events :: e.path in loggers
    decreases |events|
  {
    if |events| == 0 then []
    else
      var e := events[0];
      var h := loggers[e.path];
      (if Enabled(h.threshold, EmitLevel(e.level)) then [EncodeRecord(h, now, EmitLevel(e.level), e.msg)] else [])
        + RecordsFor(loggers, now, events[1..])
  }

  /** The console lines a run's events call for, in order, under one
      timezone label. */
  function LinesFor(loggers: map<string, Handle>, now: Clock, timezone: string, events: seq<Event>): seq<string>
    requires forall e | e in events :: e.path in loggers
    decreases |events|
  {
    if |events| == 0 then []
    else
      var e := events[0];
      var h := loggers[e.path];
      (if Enabled(h.threshold, EmitLevel(e.level)) then [EncodeEntryMessage(EmitLevel(e.level), e.msg, now.consoleTime, timezone)] else [])
        + LinesFor(loggers, now, timezone, events[1..])
  }

  /** A run writes, in emission order, one file record and one console line
      for each event its path's handle admits: the record is that handle's
      encoding of the event's level and message, and the line is the
      formatted message under the run's timezone label. Handles never
      change once built, so the registry at the end of the run names the
      handle each call used. */
  lemma {:induction false} LogAllWrites(f: Facility, env: Env, now: Clock, events: seq<Event>)
    ensures var r := LogAll(f, env, now, events);
            && r.records == RecordsFor(r.facility.loggers, now, events)
            && r.lines == LinesFor(r.facility.loggers, now, env.timezone, events)
    decreases |events|
  {
    if |events| > 0 {
      var e := events[0];
      var first := LogMessage(f, env, now, e.path, e.level, e.msg);
      var rest := LogAll(first.facility, env, now, events[1..]);
      var r := LogAll(f, env, now, events);
      LogAllWrites(first.facility, env, now, events[1..]);
      var loggers := r.facility.loggers;
      var h := GetLogger(f, env, e.path).handle;
      assert loggers == rest.facility.loggers;
      assert loggers[e.path] == h;
      assert first.emission == Write(h, env.timezone, now, EmitLevel(e.level), e.msg);
    }
  }

  /** The directory requests a run's events call for, given the paths
      already registered: one for each event whose path is not yet known. */
  function MkdirsFor(known: set<string>, events: seq<Event>): seq<string>
    decreases |events|
  {
    if |events| == 0 then []
    else
      (if events[0].path in known then [] else [LogDeadRisingPath]) + MkdirsFor(known + {events[0].path}, events[1..])
  }

  /** Those requests all name the scanned directory, and there is one
      exactly when some event's path was not known. */
  lemma {:induction false} MkdirsForNew(known: set<string>, events: seq<Event>)
    ensures forall d | d in MkdirsFor(known, events) :: d == LogDeadRisingPath
    ensures |MkdirsFor(known, events)| > 0 <==> exists e | e in events :: e.path !in known
    decreases |events|
  {
    if |events| > 0 {
      var e0 := events[0];
      var known' := known + {e0.path};
      MkdirsForNew(known', events[1..]);
      if e0.path in known {
        assert known' == known;
        if exists e | e in events :: e.path !in known {
          var e :| e in events && e.path !in known;
          assert e in events[1..];
        }
        if |MkdirsFor(known', events[1..])| > 0 {
          var e :| e in events[1..] && e.path !in known';
          assert e in events;
        }
      } else {
        assert e0 in events;
      }
    }
  }

  /** A run asks for the scanned directory to be created once per call that
      misses: exactly when some event's path was not yet registered, and
      never for any other directory. */
  lemma {:induction false} LogAllCreatesDirectory(f: Facility, env: Env, now: Clock, events: seq<Event>)
    ensures var r := LogAll(f, env, now, events);
            && r.mkdirs == MkdirsFor(f.loggers.Keys, events)
            && (forall d | d in r.mkdirs :: d == LogDeadRisingPath)
            && (|r.mkdirs| > 0 <==> exists e | e in events :: e.path !in f.loggers)
    decreases |events|
  {
    MkdirsForNew(f.loggers.Keys, events);
    if |events| > 0 {
      var e0 := events[0];
      var first := LogMessage(f, env, now, e0.path, e0.level, e0.msg);
      LogAllCreatesDirectory(first.facility, env, now, events[1..]);
      assert first.facility.loggers.Keys == f.loggers.Keys + {e0.path};
    }
  }

  /** With ZAP_LOG_LEVEL set to "WARN", a logger records exactly the
      `LogLevel`s "warn" and "error", in both sinks: "debug", "info" and any
      unrecognised text are dropped. */
  lemma WarnThresholdFilter(f: Facility, tz: string, now: Clock, path: string, level: LogLevel, msg: string)
    requires path !in f.loggers
    ensures var env := Env("WARN", tz);
            var r := LogMessage(GetLogger(f, env, path).facility, env, now, path, level, msg);
            && (r.emission.record.Some? <==> level == LevelWarn || level == LevelError)
            && (r.emission.line.Some? <==> level == LevelWarn || level == LevelError)
  {
    assert Lower("WARN") == "warn";
  }
}
