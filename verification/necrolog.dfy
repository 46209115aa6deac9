/** How the retention enforcer and the logger meet: the enforcer's log calls
    go through the same registry and sinks as any other caller's. */
module Necrolog {
  import opened Define
  import opened Registry
  import opened Cleaner

  /** Delivering a retention run's log calls adds at most the error and
      warning logs to the registry, keeps every handle it already held, and
      writes as many console lines as file records. */
  lemma RetentionLogsToStatusFiles(f: Facility, env: Env, now: Clock, probe: DirProbe, listing: Listing)
    ensures var b := LogAll(f, env, now, Enforce(probe, listing).events);
            && b.facility.loggers.Keys <= f.loggers.Keys + {LogErrorFile, LogWarningFile}
            && (forall p | p in f.loggers :: b.facility.loggers[p] == f.loggers[p])
            && |b.records| == |b.lines|
  {
    var events := Enforce(probe, listing).events;
    EnforceLogsStatusOnly(probe, listing);
    var b := LogAll(f, env, now, events);
    var targets := set e | e in events :: e.path;
    assert b.facility.loggers.Keys == f.loggers.Keys + targets;
    assert targets <= {LogErrorFile, LogWarningFile} by {
      forall p | p in targets
        ensures p == LogErrorFile || p == LogWarningFile
      {
        var e :| e in events && e.path == p;
        assert StatusEvent(e);
      }
    }
  }

  /** A retention run never touches the logs it reports to: no removal
      attempt names the error or warning log. */
  lemma RetentionSparesStatusLogs(probe: DirProbe, listing: Listing)
    ensures forall a | a in Enforce(probe, listing).attempts :: a.path != LogErrorFile && a.path != LogWarningFile
  {
    if listing.Listed? && Enforce(probe, listing).err.None? {
      ScanRemovesDoomed(listing.entries);
      forall a | a in Enforce(probe, listing).attempts
        ensures a.path != LogErrorFile && a.path != LogWarningFile
      {
        var e :| e in listing.entries && Doomed(e) && a.path == EntryPath(e.name) && a.reason == Classify(a.path, e.info).reason;
        StatusLogsOutsideScannedDir(e.name);
      }
    }
  }
}
