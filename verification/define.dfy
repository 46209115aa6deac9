/** The package-level constants of necrolog: directory layout, the size cap,
    the retention whitelist and the named `LogLevel` values. */
module Define {
  import opened Strings

  /** The directory the retention scan cleans; it ends in the separator. */
  const LogDeadRisingPath: string := "/var/log/japp/edotensei/"
  const LogLinkLayer: string := LogDeadRisingPath + "link_layer.log"
  const LogPowerEvent: string := LogDeadRisingPath + "power_event.log"
  const LogUnlockSchedule: string := LogDeadRisingPath + "unlock_schedule.log"

  const LogDefaultPath: string := "/var/log/japp/"
  const LogDefaultFile: string := LogDefaultPath + "app.log"
  const LogErrorFile: string := LogDefaultPath + "error.log"
  const LogWarningFile: string := LogDefaultPath + "warning.log"

  /** The retention cap in bytes: 1200 KiB, about 1.17 MiB. */
  const MaxLogFileSize: nat := 1228800

  /** Paths kept by the retention scan unless they exceed the cap. */
  const WhitelistedFiles: set<string> := {LogLinkLayer, LogPowerEvent, LogUnlockSchedule}

  /** The base names of the whitelisted paths without their ".log". */
  const WhitelistStems: set<string> := {"link_layer", "power_event", "unlock_schedule"}

  /** The source's `LogLevel` is a string type: any text is a `LogLevel`. */
  type LogLevel = string

  const LevelDebug: LogLevel := "debug"
  const LevelInfo: LogLevel := "info"
  const LevelWarn: LogLevel := "warn"
  const LevelError: LogLevel := "error"

  /** The four named `LogLevel` constants, in declaration order. */
  const NamedLevels: seq<LogLevel> := [LevelDebug, LevelInfo, LevelWarn, LevelError]

  /** The cap is 1.2 x 1000 x 1024 bytes, which is below 1.2 MiB
      (1.2 x 1024 x 1024 = 1258291.2 bytes). */
  lemma CapIsTwelveHundredKiB()
    ensures MaxLogFileSize == 1200 * 1024
    ensures MaxLogFileSize * 10 < 12 * 1024 * 1024
  {
  }

  /** The whitelisted path for a stem is the scanned directory, the stem and
      ".log"; a path of that shape is whitelisted exactly for the three stems,
      none of which holds a hyphen or a separator. */
  lemma WhitelistLayout(stem: string)
    ensures LogDeadRisingPath + stem + ".log" in WhitelistedFiles <==> stem in WhitelistStems
    ensures stem in WhitelistStems ==> '-' !in stem && '/' !in stem
  {
    var p := LogDeadRisingPath + stem + ".log";
    if p == LogLinkLayer {
      ConcatCancel(LogDeadRisingPath, stem, "link_layer", ".log");
    } else if p == LogPowerEvent {
      ConcatCancel(LogDeadRisingPath, stem, "power_event", ".log");
    } else if p == LogUnlockSchedule {
      ConcatCancel(LogDeadRisingPath, stem, "unlock_schedule", ".log");
    }
  }

  /** Every whitelisted path has one of the three stems. */
  lemma WhitelistHasStems(p: string)
    requires p in WhitelistedFiles
    ensures exists stem :: stem in WhitelistStems && p == LogDeadRisingPath + stem + ".log"
  {
    if p == LogLinkLayer {
      assert "link_layer" in WhitelistStems;
    } else if p == LogPowerEvent {
      assert "power_event" in WhitelistStems;
    } else {
      assert "unlock_schedule" in WhitelistStems;
    }
  }

  /** The status logs the retention scan writes to live outside the scanned
      directory and are not whitelisted. */
  lemma StatusLogsOutsideScannedDir(name: string)
    ensures LogDeadRisingPath + name != LogErrorFile
    ensures LogDeadRisingPath + name != LogWarningFile
    ensures LogErrorFile !in WhitelistedFiles && LogWarningFile !in WhitelistedFiles
  {
    assert (LogDeadRisingPath + name)[15] == 'd';
    assert LogErrorFile[15] == 'r';
    assert LogWarningFile[14] == 'w';
    assert (LogDeadRisingPath + name)[14] == 'e';
    assert LogLinkLayer[14] == 'e';
    assert LogPowerEvent[14] == 'e';
    assert LogUnlockSchedule[14] == 'e';
    assert LogLinkLayer[15] == 'd';
    assert LogPowerEvent[15] == 'd';
    assert LogUnlockSchedule[15] == 'd';
  }
}
