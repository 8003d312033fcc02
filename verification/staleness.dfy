/** The staleness line both owner scripts end the digest with
    (`manifest_staleness` / `staleness`): how old the snapshot the
    manifest points at is, flagged when it is older than a threshold. */
module Staleness {
  import opened Text
  import opened Python
  import opened Sections

  /** The owner-only script flags snapshots older than 90 minutes. */
  const OwnerOnlyStaleMinutes: int := 90
  /** The owner_pat script reads the threshold from `STALE_MINUTES`,
      120 when that is unset. */
  const DefaultStaleMinutes: int := 120

  function Threshold(v: Variant): int {
    match v
    case OwnerOnly => OwnerOnlyStaleMinutes
    case OwnerPat(m) => m
  }

  /** `m.get("snapshot_iso") or m.get("timestamp") or ""` */
  function TimestampValue(m: Row): (t: Value)
    ensures Truthy(GetOr(m, "snapshot_iso", Null)) ==> t == Get(m, "snapshot_iso").value
    ensures !Truthy(GetOr(m, "snapshot_iso", Null)) && Truthy(GetOr(m, "timestamp", Null))
            ==> t == Get(m, "timestamp").value
    ensures !Truthy(t) <==> !Truthy(GetOr(m, "snapshot_iso", Null)) && !Truthy(GetOr(m, "timestamp", Null))
  {
    var a := GetOr(m, "snapshot_iso", Null);
    if Truthy(a) then a
    else
      var b := GetOr(m, "timestamp", Null);
      if Truthy(b) then b else Str("")
  }

  /** `int((now - ts).total_seconds() // 60)`: whole minutes elapsed,
      rounded down (so a snapshot in the future gives a negative
      count). */
  function MinutesSince(now: int, ts: DateTime): (m: int)
    ensures m * MicrosPerMinute <= now - UtcMicros(ts) < (m + 1) * MicrosPerMinute
  {
    FloorDiv(now - UtcMicros(ts), MicrosPerMinute)
  }

  /** The flag is raised exactly when at least `threshold + 1` whole
      minutes have passed: one more whole minute than the threshold. */
  lemma StaleIffElapsed(now: int, ts: DateTime, threshold: int)
    ensures MinutesSince(now, ts) > threshold <==> now - UtcMicros(ts) >= (threshold + 1) * MicrosPerMinute
  {
    var m := MinutesSince(now, ts);
    var e := now - UtcMicros(ts);
    if m > threshold {
      assert m * MicrosPerMinute >= (threshold + 1) * MicrosPerMinute;
    } else {
      assert (m + 1) * MicrosPerMinute <= (threshold + 1) * MicrosPerMinute;
    }
  }

  /** What the function reports, before it is rendered as text. */
  datatype Report =
    | ManifestMissing(url: string)
    | TimestampMissing
    | Snapshot(iso: string, minutes: int, stale: bool)
    | Unreadable(raw: string)

  /** The decision the function takes. A truthy manifest that is not a
      dict raises (`.get` is an AttributeError), which escapes the
      digest; a truthy timestamp that is not a str fails inside the
      `try` and is reported as unreadable. */
  function Assess(v: Variant, h: Host, now: int, url: string, manifest: Value): (r: Outcome<Report>)
    ensures !Truthy(manifest) ==> r == Done(ManifestMissing(url))
    ensures r.Done? && r.value.ManifestMissing? ==> !Truthy(manifest)
    ensures r.Raised? <==> Truthy(manifest) && !manifest.Dict?
    ensures manifest.Dict? && Truthy(manifest) && TimestampValue(manifest.entries).Str?
            && Truthy(TimestampValue(manifest.entries))
            && h.fromIso(ReplaceZ(TimestampValue(manifest.entries).s)).Some?
            ==> r.Done? && r.value.Snapshot?
    ensures r.Done? && r.value.Unreadable? <==>
      && manifest.Dict? && Truthy(manifest) && Truthy(TimestampValue(manifest.entries))
      && !(TimestampValue(manifest.entries).Str? && h.fromIso(ReplaceZ(TimestampValue(manifest.entries).s)).Some?)
    ensures r.Done? && r.value.TimestampMissing?
            <==> manifest.Dict? && Truthy(manifest) && !Truthy(TimestampValue(manifest.entries))
    ensures r.Done? && r.value.Snapshot? ==>
      (manifest.Dict? && TimestampValue(manifest.entries) == Str(r.value.iso)
       && h.fromIso(ReplaceZ(r.value.iso)).Some?
       && r.value.minutes * MicrosPerMinute
          <= now - UtcMicros(h.fromIso(ReplaceZ(r.value.iso)).value)
          < (r.value.minutes + 1) * MicrosPerMinute
       && (r.value.stale <==> r.value.minutes > Threshold(v)))
    ensures r.Done? && r.value.Unreadable? ==>
      (manifest.Dict? && Truthy(TimestampValue(manifest.entries))
       && r.value.raw == StrOf(h, TimestampValue(manifest.entries))
       && (TimestampValue(manifest.entries).Str? ==>
             h.fromIso(ReplaceZ(TimestampValue(manifest.entries).s)).None?))
  {
    if !Truthy(manifest) then Done(ManifestMissing(url))
    else match manifest
      case Dict(es) =>
        var iso := TimestampValue(es);
        if !Truthy(iso) then Done(TimestampMissing)
        else (match iso
          case Str(s) =>
            (match h.fromIso(ReplaceZ(s))
             case Some(ts) =>
               var m := MinutesSince(now, ts);
               Done(Snapshot(s, m, m > Threshold(v)))
             case None => Done(Unreadable(s)))
          case _ => Done(Unreadable(StrOf(h, iso))))
      case _ => Raised
  }

  function ReportText(rep: Report): string {
    match rep
    case ManifestMissing(url) => "Manifest missing at " + url
    case TimestampMissing => "Manifest timestamp missing"
    case Snapshot(iso, m, stale) =>
      "Snapshot " + iso + " — " + IntText(m) + " minutes ago" + (if stale then " (STALE!)" else "")
    case Unreadable(raw) => "Manifest timestamp unreadable: " + raw
  }

  /** A snapshot line names the raw timestamp and carries the flag
      exactly when the report is stale. */
  lemma {:induction false} SnapshotTextFlagsStale(iso: string, m: int, stale: bool)
    ensures StartsWith(ReportText(Snapshot(iso, m, stale)), "Snapshot " + iso + " — ")
    ensures EndsWith(ReportText(Snapshot(iso, m, stale)), " (STALE!)") <==> stale
  {
    var t := ReportText(Snapshot(iso, m, stale));
    var base := "Snapshot " + iso + " — " + IntText(m) + " minutes ago";
    assert t[..|"Snapshot " + iso + " — "|] == "Snapshot " + iso + " — ";
    if !stale {
      assert t == base;
      assert t[|t| - 1] == 'o';
    }
  }

  /** `manifest_staleness(m)` / `staleness(m)` */
  function ManifestStaleness(v: Variant, h: Host, now: int, url: string, manifest: Value): (r: Outcome<string>)
    ensures !Truthy(manifest) ==> r == Done("Manifest missing at " + url)
    ensures r.Raised? <==> Truthy(manifest) && !manifest.Dict?
    ensures manifest.Dict? && Truthy(manifest) && !Truthy(TimestampValue(manifest.entries))
            ==> r == Done("Manifest timestamp missing")
    ensures r.Done? ==> Assess(v, h, now, url, manifest).Done?
                        && r.value == ReportText(Assess(v, h, now, url, manifest).value)
  {
    var rep :- Assess(v, h, now, url, manifest);
    Done(ReportText(rep))
  }

  /** For a manifest whose timestamp parses, the line names the timestamp
      and ends in "(STALE!)" exactly when more whole minutes than the
      threshold have passed. */
  lemma StaleFlagIffOverThreshold(v: Variant, h: Host, now: int, url: string, manifest: Value)
    requires manifest.Dict? && Truthy(manifest)
    requires TimestampValue(manifest.entries).Str? && TimestampValue(manifest.entries).s != []
    requires h.fromIso(ReplaceZ(TimestampValue(manifest.entries).s)).Some?
    ensures ManifestStaleness(v, h, now, url, manifest).Done?
    ensures StartsWith(ManifestStaleness(v, h, now, url, manifest).value,
                       "Snapshot " + TimestampValue(manifest.entries).s + " — ")
    ensures EndsWith(ManifestStaleness(v, h, now, url, manifest).value, " (STALE!)")
            <==> MinutesSince(now, h.fromIso(ReplaceZ(TimestampValue(manifest.entries).s)).value) > Threshold(v)
  {
    var rep := Assess(v, h, now, url, manifest).value;
    SnapshotTextFlagsStale(rep.iso, rep.minutes, rep.stale);
  }
}
