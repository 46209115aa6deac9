# necrolog, modelled in Dafny

necrolog is a small Go logging facility built on zap and lumberjack. A
caller names a log file path and a `LogLevel`. The package keeps one zap
logger per path, each a tee of a JSON file sink and a coloured console sink.
A retention enforcer cleans the `/var/log/japp/edotensei/` directory: it
keeps whitelisted logs and their rotated `.gz` segments up to a size cap,
and deletes everything else. It reports each deletion to the package's own
warning or error log.

This project models that core as pure functions over immutable datatypes.

- **Strings** (`strings.dfy`) models the Go string operations the code relies
  on:
  - `Lower` and `Upper` model `strings.ToLower` and `strings.ToUpper`
    restricted to the code points whose case image is an ASCII letter. They
    leave every other code point unchanged, where Go maps many of them (É to
    é, ς to Σ).
  - `BeforeFirst` is `strings.Split(s, "-")[0]`.
  - `AfterLast` is `filepath.Base`, but only on a non-empty path that does
    not end in the separator. `filepath.Base` returns "." for "" and drops
    trailing separators, where `AfterLast` returns "". The scan only takes
    the base name of paths ending in ".gz", which never end in the
    separator.
- **Define** (`define.dfy`) holds the package constants:
  - the directory layout;
  - the 1228800-byte cap;
  - the three-path whitelist;
  - the four named `LogLevel` values.
- **Severity** (`severity.dfy`) models the zapcore levels and their order,
  plus the two parsers. `getZapLevel` is `ParseLevel`, which lower-cases the
  setting before matching it.
  The switch in `emit` is `EmitLevel`, which is case-sensitive.
- **Console** (`console.dfy`) models `formatConsoleMessage` and the
  upper-casing done by `colorConsoleEncoder.EncodeEntry`. `Visible` is the
  text a terminal shows once the ANSI colour sequences are removed.
- **Registry** (`registry.dfy`) models `GetLogger` as an operation on an
  explicit `Facility` value. That value holds the `loggers` map and the
  global `logTimezoneStr`. The module also models:
  - the configuration every new handle gets;
  - the tee of the two sinks under one threshold;
  - `LogMessage` and `emit`, with one `Event` per `LogMessage` call;
  - `LogAll`, a run of calls.
- **Cleaner** (`cleaner.dfy`) models the retention enforcer. `Classify` is
  the decision tree of `handleFile` and `handleCompressedFile`. `HandleFile`
  and `RemoveFile` return the removal attempts and log calls as values.
  `Scan` is the loop, and `Enforce` is `EnforceLogRetention` as a reference
  function. The method `EnforceLogRetention` computes the same result with
  a loop.
- **Necrolog** (`necrolog.dfy`) connects the two halves. A retention run's
  log calls, fed through the registry, only ever add the warning and error
  logs. No removal attempt names those two logs.

The file system, the environment and the clock are inputs to the model:
- a `DirProbe` says how `os.Stat` found the scanned directory and what
  `os.MkdirAll` did;
- a `Listing` is the result of `os.ReadDir`;
- each `DirEntry` carries the outcome of its `Info()` and of its `os.Remove`;
- an `Env` holds `ZAP_LOG_LEVEL` and `ZAP_LOG_TIMEZONE`;
- a `Clock` holds the formatted time readings.

Where the code and its comments or documentation disagree, the model follows
the code:
- `MaxLogFileSize` is 1228800 bytes, which is 1200 KiB. The comment beside it
  says `1.2 * 1024 * 1024`, which is 1258291.2. `Define.CapIsTwelveHundredKiB`
  states the difference.
- `EnforceLogRetention` returns an error when the directory cannot be
  ensured, as well as when it cannot be listed.
- `GetLogger` creates `LogDeadRisingPath` on every miss, whatever directory
  the requested path is in.
- The threshold is read from `ZAP_LOG_LEVEL` each time a handle is built, so
  handles built under different settings keep different thresholds.
- `GetLogger` overwrites `logTimezoneStr` on every call, hits included. The
  file sink keeps the label it was built with. The console line shows the
  label of the latest lookup.

## Model

| member | source | states |
|---|---|---|
| Strings.Lower | necrolog/necrolog.go:33 | The model of `strings.ToLower`, restricted to the code points whose lower case is an ASCII letter. It keeps the length, turns each ASCII capital into its small letter, and leaves no ASCII capital. It changes only the capitals, U+0130 and the Kelvin sign. |
| Strings.Upper | necrolog/necrolog.go:49 | The model of `strings.ToUpper`, restricted to the code points whose upper case is an ASCII letter. It keeps the length, turns each ASCII small letter into its capital, and leaves no ASCII small letter. It changes only the small letters, the dotless i and the long s. |
| Strings.LowerOfUpper | necrolog/necrolog.go:33 | In the restricted case mapping, lower-casing after upper-casing gives the same text as lower-casing alone, for text without the dotless i (U+0131) or the long s (U+017F). |
| Strings.UpperLowerMovesDotless | necrolog/necrolog.go:33 | For the dotless i and the long s, upper-casing then lower-casing gives "i" and "s", not the code point itself. |
| Strings.SuffixMeansConcat | necrolog/necrolog_cleaner.go:65 | `strings.HasSuffix(s, t)` holds exactly when `s` is some text followed by `t`. |
| Strings.BeforeFirst | necrolog/necrolog_cleaner.go:76 | The first piece of a split on the hyphen is a prefix of the name and holds no hyphen. It is either the whole name or is followed by a hyphen. |
| Strings.AfterLast | necrolog/necrolog_cleaner.go:76 | The base name is a suffix of the path and holds no separator. It is either the whole path or is preceded by a separator. |
| Strings.BeforeFirstOfStem | necrolog/necrolog_cleaner.go:76 | A stem without hyphens, followed by a hyphen and anything else, splits back to exactly that stem. |
| Strings.AfterLastOfJoin | necrolog/necrolog_cleaner.go:36 | Joining the scanned directory, which ends in the separator, with a separator-free name gives a path whose base name is that name. |
| Define.CapIsTwelveHundredKiB | necrolog/necrolog_define.go:24-25 | The cap is exactly 1200 x 1024 bytes and lies below the 1.2 x 1024 x 1024 its comment names. |
| Define.WhitelistLayout | necrolog/necrolog_define.go:11-32 | A path of the form scanned directory + stem + ".log" is whitelisted exactly when the stem is link_layer, power_event or unlock_schedule. None of those stems holds a hyphen or a separator. |
| Define.WhitelistHasStems | necrolog/necrolog_define.go:28-32 | Every whitelisted path is the scanned directory, one of the three stems, and ".log". |
| Define.StatusLogsOutsideScannedDir | necrolog/necrolog_define.go:17-22 | The error and warning logs are not under the scanned directory: no directory entry's path equals them. Neither is whitelisted. |
| Severity.ParseLevel | necrolog/necrolog.go:32-46 | The threshold is Info, Warn or Error exactly when the lower-cased setting is "info", "warn" or "error". Every other setting, the empty one included, gives Debug. |
| Severity.EmitLevel | necrolog/necrolog.go:125-136 | A `LogLevel` is logged at Info, Warn or Error exactly when it equals "info", "warn" or "error". Any other text is logged at Debug. |
| Severity.LevelOrder | necrolog/necrolog.go:107-111 | The levels are totally ordered as Debug < Info < Warn < Error. A threshold admits its own level and everything above it, and a Debug threshold admits every level. |
| Severity.NameRoundTrip | necrolog/necrolog_define.go:34-40 | Every level name is a named `LogLevel`. It selects its own level through `getZapLevel`, in either case, and through `emit`. |
| Severity.NamedLevelsAreLevelNames | necrolog/necrolog_define.go:34-40 | The four named `LogLevel` constants are exactly the four level names. |
| Severity.ParseIgnoresCase | necrolog/necrolog.go:33-43 | Upper-casing a setting never changes the level it selects, unless the setting holds the dotless i or the long s. |
| Severity.UpperCanChangeLevel | necrolog/necrolog.go:33-43 | The exception exists: "ınfo" (with U+0131) selects Debug, while its upper case "INFO" selects Info. |
| Severity.CaseSensitivityDiffers | necrolog/necrolog.go:125-136 | "INFO" selects Info as a threshold but is logged at Debug. "İNFO" (U+0130) also selects Info. |
| Console.EncodeEntryMessage | necrolog/necrolog.go:48-60 | Every level the logger emits reaches the formatter upper-cased and gets a colour. The entry's message becomes a line that starts with the coloured level and ends with the original message. |
| Console.FormatConsoleMessage | necrolog/necrolog.go:143-159 | The message is the verbatim tail of the line, and the coloured level is its head. |
| Console.ColorizeThen | necrolog/necrolog.go:145-157 | On a terminal the colouring of a level disappears: the coloured level shows as the bare level, whatever follows it. |
| Console.ConsoleLineShows | necrolog/necrolog.go:158 | A console line shows as `LEVEL [timestamp] timezone message`. |
| Console.LevelColors | necrolog/necrolog.go:146-157 | The upper-cased name of each emitted level gets its colour: DEBUG 32, INFO 34, WARN 33, ERROR 31. Any other level string passes through unchanged. |
| Console.MessageDeterminesLine | necrolog/necrolog.go:158 | With the level, timestamp and timezone fixed, two lines are equal exactly when their messages are. |
| Registry.NewHandle | necrolog/necrolog.go:81-111 | A handle built on a miss is configured for its path. Its threshold is the level the current setting selects. Its time layout ends in the current timezone label. |
| Registry.EncodeRecord | necrolog/necrolog.go:88-94 | A configured handle's file record goes to the file its lumberjack `Filename` setting names, which is the handle's path. Its fields, in order, are level (the upper-cased name), time (entry time and label) and msg. |
| Registry.GetLogger | necrolog/necrolog.go:62-116 | A hit returns the stored handle and leaves the map unchanged. A miss adds exactly one entry, keyed by the path, and asks for the scanned directory to be created. Each call sets the global timezone label. Well-formedness of the registry is preserved. |
| Registry.HandleConfigFrozen | necrolog/necrolog.go:81-94 | A new handle gets rotation at 1 MB with one compressed backup and time/level/msg keys, and its time layout ends in the timezone label current at its first lookup. A later lookup under another environment returns it unchanged, while the global label follows the new environment. |
| Registry.LookupAll | necrolog/necrolog.go:113-115 | Any sequence of lookups only ever adds keys, exactly the paths looked up. It never replaces a stored handle. |
| Registry.Write | necrolog/necrolog.go:107-111 | An entry reaches the file sink exactly when it reaches the console sink, exactly when its level is at or above the handle's threshold. |
| Registry.LogMessage | necrolog/necrolog.go:118-123 | A call leaves the registry as the lookup of its path does. It writes to both sinks or neither, as the threshold of the path's handle admits the level `emit` selects. On a miss it asks for the scanned directory to be created. |
| Registry.LogMessageRecord | necrolog/necrolog.go:88-94 | On a well-formed registry, a written record goes to the file the path's handle names as its `Filename` setting, which is the path. Its level, time and msg fields are the upper-cased level, the entry time with the handle's timezone label, and the message. The console line is the formatted message under the current label. |
| Registry.WellFormedInitial | necrolog/necrolog.go:21-25 | The registry starts empty and well-formed. |
| Registry.LogAll | necrolog/necrolog.go:118-123 | A run of calls writes as many console lines as file records. The registry gains exactly the paths logged to and keeps every handle it held. |
| Registry.LogAllWrites | necrolog/necrolog.go:107-123 | A run writes, in emission order, one record and one line per event that its path's handle admits. The record is that handle's encoding of the event, and the line is the formatted message under the run's label. |
| Registry.MkdirsForNew | necrolog/necrolog.go:75-79 | Every directory request names the scanned directory. A run makes one exactly when some event's path was not yet registered. |
| Registry.LogAllCreatesDirectory | necrolog/necrolog.go:79 | A run asks for the scanned directory once per lookup that misses, and for no other directory. It asks at least once exactly when some event's path was new. |
| Registry.WarnThresholdFilter | necrolog/necrolog.go:107-111 | Under ZAP_LOG_LEVEL=WARN, a new logger writes exactly the `LogLevel`s "warn" and "error", to both sinks. |
| Cleaner.Classify | necrolog/necrolog_cleaner.go:46-72 | A file is deleted exactly when its metadata cannot be read, it is not protected, or it is over the cap. An unreadable file is deleted for that reason. Otherwise the reason follows the file's class. |
| Cleaner.CompressedVerdict | necrolog/necrolog_cleaner.go:75-87 | A compressed file is deleted exactly when the log it derives back to is not whitelisted or it is over the cap. The reason says which. |
| Cleaner.CapBoundary | necrolog/necrolog_cleaner.go:56-62 | A protected file of exactly the cap is kept, and one byte more deletes it. |
| Cleaner.WhitelistFirst | necrolog/necrolog_cleaner.go:56-68 | A whitelisted path is deleted only as an oversized whitelist file, never by the compressed-file rules. It never ends in ".gz". |
| Cleaner.UnlistedPlainDeleted | necrolog/necrolog_cleaner.go:70-71 | A file that is neither whitelisted nor compressed is deleted at every size, zero included. |
| Cleaner.EntryGzSuffix | necrolog/necrolog_cleaner.go:64-68 | An entry's path ends in ".gz" exactly when its name does. |
| Cleaner.OriginalOfEntry | necrolog/necrolog_cleaner.go:76-77 | For an entry, the derived original log is the scanned directory, the name up to its first hyphen (or the whole name if it has none), and ".log". |
| Cleaner.CompressedEntry | necrolog/necrolog_cleaner.go:75-87 | A compressed entry whose name before the first hyphen is a whitelisted stem is deleted only over the cap. Any other compressed entry is deleted whatever its size. |
| Cleaner.RotatedSegmentKept | necrolog/necrolog_cleaner.go:76-82 | A rotated segment `<stem>-<anything>.gz` of a whitelisted log derives back to that log. It is kept up to the cap. |
| Cleaner.RemoveFile | necrolog/necrolog_cleaner.go:90-96 | One removal attempt gives exactly one log event. A success is a warning to the warning log. A failure is an error to the error log. |
| Cleaner.HandleFile | necrolog/necrolog_cleaner.go:46-72 | A file gets one removal attempt, with its verdict's path and reason, exactly when its verdict is Delete. An unreadable file first logs one error to the error log. The last event is a warning exactly when the removal succeeded. Every event is a status event. |
| Cleaner.ScanEntry | necrolog/necrolog_cleaner.go:30-39 | An entry gets one removal attempt exactly when it is a file whose verdict is Delete. It logs one event per attempt, plus one if it is an unreadable file. |
| Cleaner.Scan | necrolog/necrolog_cleaner.go:30-40 | A scan makes at most one removal attempt and two log calls per entry. |
| Cleaner.FoldSplit | necrolog/necrolog_cleaner.go:30-40 | Whatever the per-entry step, running the loop over two listings one after the other gives the concatenated attempts and events. |
| Cleaner.ScanSplit | necrolog/necrolog_cleaner.go:30-40 | Scanning a listing gives the scan of its first part followed by the scan of the rest. Each entry's outcome depends on that entry alone. |
| Cleaner.ScanRemovesDoomed | necrolog/necrolog_cleaner.go:30-40 | The scan tries to remove exactly the paths of non-directory entries whose verdict is Delete. Each attempt carries its entry's reason. |
| Cleaner.ScanEvents | necrolog/necrolog_cleaner.go:46-53 | A scan logs one event per removal attempt plus one per unreadable file. Every event is a status event. |
| Cleaner.EnsurePathExists | necrolog/necrolog_cleaner.go:98-116 | The outcome is a failure exactly when the stat fails or the creation fails. It is Created exactly when the directory was missing and was created. Each outcome except a failed creation logs one event, and the event is an error exactly on failure. |
| Cleaner.Enforce | necrolog/necrolog_cleaner.go:16-43 | A retention run returns an error exactly when the directory cannot be ensured or listed. It then makes no removal attempt, and its last log call is an error to the error log. Otherwise its attempts are those of the scan. Its first log call is then a warning to the warning log, the rest are the scan's events, and it makes one log call per attempt and per unreadable file, plus one. |
| Cleaner.EnforceLogsStatusOnly | necrolog/necrolog_cleaner.go:16-43 | Every log call a retention run makes is a warning to the warning log or an error to the error log. |
| Cleaner.ScanLoop | necrolog/necrolog_cleaner.go:30-40 | The loop that skips directories and handles every other entry computes the scan, with no entry stopping it. |
| Cleaner.EnforceLogRetention | necrolog/necrolog_cleaner.go:16-43 | The method returns no error exactly when the directory was ensured and listed. Its error, attempts and events equal the reference run's. |
| Cleaner.ScenarioOversizedWhitelisted | necrolog/necrolog_cleaner.go:56-62 | A 2 MiB link_layer.log is removed as an oversized whitelist file. |
| Cleaner.ScenarioUnlisted | necrolog/necrolog_cleaner.go:70-71 | A 10 KiB debug.log is removed as a non-whitelist file. |
| Cleaner.ScenarioSegment | necrolog/necrolog_cleaner.go:75-83 | A 512 KiB link_layer-001.log.gz is kept. |
| Cleaner.RetentionScenario | necrolog/necrolog_cleaner.go:16-43 | Take a directory with the three files above, listed in name order as `os.ReadDir` returns them. Exactly debug.log and then link_layer.log are removed. |
| Necrolog.RetentionLogsToStatusFiles | necrolog/necrolog_cleaner.go:90-96 | Feeding a retention run's log calls through the registry adds at most the error and warning logs. It keeps every existing handle and writes as many console lines as file records. |
| Necrolog.RetentionSparesStatusLogs | necrolog/necrolog_define.go:17-22 | No removal attempt of a retention run names the error log or the warning log. |

## Left out

- `LogHandler` (the HTTP endpoint) and the command-line client are left out. They are request decoding and network I/O.
- The package test is left out. It writes a real file under `/var/log` and searches it.
- The internals of zap and lumberjack are left out: JSON escaping and framing, the console encoder's own framing and trailing newline, size-based rollover, gzip compression and backup pruning. A handle's rotation policy is an immutable record.
- The `sync.RWMutex` double-checked locking in `GetLogger` is left out. The registry is modelled sequentially.
- `time.Now()` is left out. The formatted readings are parameters (`Clock`), and Go's interpretation of layout tokens inside the timezone label is not modelled.
- Registry.LogAll: every call in a run shares one `Clock` reading.
- `Listing` order is taken as given. `os.ReadDir` sorts entries by file name, but the model accepts any order; the scan's result depends on the order only through the order of its attempts and events.
- `os.Stat`, `os.ReadDir`, `os.Remove` and `os.MkdirAll` are abstract inputs. `GetLogger` records the directory it would create, and ignores the result as the code does.
- `filepath.Join` is concatenation. Entry names are assumed to hold no separator, and the scanned directory ends in one.
- Registry.EncodeRecord: the record's file is lumberjack's `Filename` setting. For an empty path lumberjack falls back to `<program>-lumberjack.log` under `os.TempDir()`, and that default file is not modelled.
- Registry.LogMessageRecord: as for `EncodeRecord`, the empty path's fallback to lumberjack's default file is not modelled.
- Cleaner.RemoveFile: a deletion reason carries the size in bytes, as decimal digits, instead of the `%.2f MB` float text.
- Strings.Lower: models `strings.ToLower` only for the code points whose lower case is an ASCII letter. Go also lowers other capitals (É to é, Σ to σ), which the model leaves unchanged. No other code point lowers to an ASCII letter, so the level parse is unaffected.
- Strings.Upper: models `strings.ToUpper` only for the code points whose upper case is an ASCII letter. Go also raises other small letters (é to É, ς to Σ), which the model leaves unchanged. The upper-cased level names are ASCII, so the encoded level is unaffected.
- Strings.LowerOfUpper: holds of the restricted case mapping only. Under Go's full mapping, `strings.ToLower(strings.ToUpper("ς"))` is "σ". `Severity.ParseIgnoresCase` still holds of Go: only the modelled code points lower or raise to an ASCII letter, so any other code point keeps a setting away from every level name before and after upper-casing.
- `printBanner`, the `godotenv` loading in `init` and `getCallerInfo` are left out. They are console decoration, environment-file I/O and stack reflection.
- `Debug`, `Info`, `Warn` and `Error` are left out as wrappers. They are `LogMessage` with a fixed `LogLevel`, so they appear as `Event`s at those levels.
- Logger `Sync()` is left out. Flushing is I/O.
