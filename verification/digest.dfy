/** `build_digest` of the two owner scripts: five sections and the
    staleness line, always in the same order, each list section shown as
    its lines or the placeholder. */
module Digest {
  import opened Text
  import opened Python
  import opened Fields
  import opened Sections
  import opened Staleness

  /** The five tabs the digest reads, in the order it reads them. */
  const Tabs: seq<string> := ["EntryWatchlist", "OversoldTracker", "ExitMonitor", "RiskMonitor", "EarningsMonitor"]

  /** A list section as a block of text: its lines one per line, or the
      placeholder when there are none. The owner_pat script joins its
      list sections without the placeholder test; that agrees with
      `Block`, because its sections are never empty. */
  function Block(lines: seq<string>): (b: string)
    ensures lines == [] ==> b == Placeholder
    ensures lines != [] ==> b == Join("\n", lines)
    ensures |lines| == 1 ==> b == lines[0]
    ensures lines != [] ==> StartsWith(b, lines[0])
  {
    if lines == [] then Placeholder else Join("\n", lines)
  }

  /** The five numbered headings, in the order they are printed. */
  const Headings: seq<string> :=
    ["1) Buy Candidates", "2) Oversold but Not Ready", "3) Exits", "4) Risk & Quotas",
     "5) Upcoming Earnings (next 14 days)"]

  /** A numbered part of the report: its heading, its body, a blank
      line. */
  function Part(heading: string, body: string): string {
    heading + "\n" + body + "\n\n"
  }

  /** The report text around the section bodies: the title, the five
      numbered parts in heading order (the risk and earnings bodies
      indented by three spaces), and the staleness part last. */
  function DigestText(stamp: string, buy: string, over: string, exits: string, risk: string,
                      earnings: string, stale: string): (t: string)
    ensures StartsWith(t, "Watchlist Digest — " + stamp + "\n\n1) Buy Candidates\n")
    ensures EndsWith(t, "\n")
    ensures t == "Watchlist Digest — " + stamp + "\n\n"
                 + Part(Headings[0], buy) + Part(Headings[1], over) + Part(Headings[2], exits)
                 + Part(Headings[3], "   " + risk) + Part(Headings[4], "   " + earnings)
                 + "Staleness\n   " + stale + "\n"
  {
    DigestShape(stamp, buy, over, exits, risk, earnings, stale);
    "Watchlist Digest — " + stamp + "\n\n"
    + Part(Headings[0], buy) + Part(Headings[1], over) + Part(Headings[2], exits)
    + Part(Headings[3], "   " + risk) + Part(Headings[4], "   " + earnings)
    + "Staleness\n   " + stale + "\n"
  }

  lemma DigestShape(stamp: string, buy: string, over: string, exits: string, risk: string,
                    earnings: string, stale: string)
    ensures var t := "Watchlist Digest — " + stamp + "\n\n"
                     + Part(Headings[0], buy) + Part(Headings[1], over) + Part(Headings[2], exits)
                     + Part(Headings[3], "   " + risk) + Part(Headings[4], "   " + earnings)
                     + "Staleness\n   " + stale + "\n";
            StartsWith(t, "Watchlist Digest — " + stamp + "\n\n1) Buy Candidates\n") && EndsWith(t, "\n")
  {
    var title := "Watchlist Digest — " + stamp + "\n\n";
    var head := title + Headings[0] + "\n";
    var t1 := title + Part(Headings[0], buy);
    assert t1[..|head|] == head;
    var t2 := t1 + Part(Headings[1], over);
    KeepsPrefix(t1, Part(Headings[1], over), head);
    var t3 := t2 + Part(Headings[2], exits);
    KeepsPrefix(t2, Part(Headings[2], exits), head);
    var t4 := t3 + Part(Headings[3], "   " + risk);
    KeepsPrefix(t3, Part(Headings[3], "   " + risk), head);
    var t5 := t4 + Part(Headings[4], "   " + earnings);
    KeepsPrefix(t4, Part(Headings[4], "   " + earnings), head);
    var t6 := t5 + "Staleness\n   ";
    KeepsPrefix(t5, "Staleness\n   ", head);
    var t7 := t6 + stale;
    KeepsPrefix(t6, stale, head);
    KeepsPrefix(t7, "\n", head);
    assert head == "Watchlist Digest — " + stamp + "\n\n1) Buy Candidates\n";
    assert (t7 + "\n")[|t7 + "\n"| - 1..] == "\n";
  }

  lemma KeepsPrefix(s: string, b: string, p: string)
    requires StartsWith(s, p)
    ensures StartsWith(s + b, p)
  {
    assert (s + b)[..|p|] == s[..|p|];
  }

  /** The payload of tab `k`; `data.get(k)` is None when it is absent. */
  function Tab(data: Row, k: string): Value {
    GetOr(data, k, Null)
  }

  /** `parse_rows` of each named tab, in order; the first payload that
      raises stops the digest. */
  function ParseTabs(data: Row, names: seq<string>): (r: Outcome<seq<seq<Row>>>)
    ensures r.Raised? <==> exists i :: 0 <= i < |names| && ParseRows(Tab(data, names[i])).Raised?
    ensures r.Done? ==> |r.value| == |names|
    ensures r.Done? ==> forall i :: 0 <= i < |names| ==> ParseRows(Tab(data, names[i])) == Done(r.value[i])
  {
    if names == [] then Done([])
    else
      var first :- ParseRows(Tab(data, names[0]));
      var rest :- ParseTabs(data, names[1..]);
      assert forall i :: 1 <= i < |names| ==> names[i] == names[1..][i - 1];
      Done([first] + rest)
  }

  /** The digest once every tab is parsed and the staleness line is
      known. */
  function Render(v: Variant, h: Host, now: int, tables: seq<seq<Row>>, stale: string): (t: string)
    requires |tables| == |Tabs|
    ensures StartsWith(t, "Watchlist Digest — " + h.utcStamp(now) + "\n\n1) Buy Candidates\n")
    ensures EndsWith(t, "\n")
    ensures t == DigestText(h.utcStamp(now), Block(BuyLines(v, h, tables[0])), Block(OversoldLines(v, h, tables[1])),
                            Block(ExitLines(v, h, tables[2])), RiskQuota(v, h, tables[3]),
                            UpcomingEarnings(h, now / MicrosPerDay, tables[4]), stale)
  {
    RiskNeverEmpty(v, h, tables[3]);
    var riskText := RiskQuota(v, h, tables[3]);
    // The owner-only script writes `section_risk_quota(...) or <bootstrap>`.
    var riskBlock := if v.OwnerOnly? && riskText == "" then Bootstrap else riskText;
    var today := now / MicrosPerDay;
    DigestText(h.utcStamp(now), Block(BuyLines(v, h, tables[0])), Block(OversoldLines(v, h, tables[1])),
               Block(ExitLines(v, h, tables[2])), riskBlock, UpcomingEarnings(h, today, tables[4]), stale)
  }

  /** `build_digest(data)` at instant `now` (UTC microseconds), with the
      manifest URL the missing-manifest line names. */
  function BuildDigest(v: Variant, h: Host, now: int, url: string, data: Row): (r: Outcome<string>)
    ensures r.Raised? <==>
      (exists i :: 0 <= i < |Tabs| && ParseRows(Tab(data, Tabs[i])).Raised?)
      || (Truthy(Tab(data, "manifest")) && !Tab(data, "manifest").Dict?)
    ensures r.Done? ==> StartsWith(r.value, "Watchlist Digest — " + h.utcStamp(now) + "\n\n1) Buy Candidates\n")
    ensures r.Done? ==> EndsWith(r.value, "\n")
  {
    var tables :- ParseTabs(data, Tabs);
    var stale :- ManifestStaleness(v, h, now, url, Tab(data, "manifest"));
    Done(Render(v, h, now, tables, stale))
  }

  /** Which tab feeds which part: once every tab parses and the
      staleness line is known, the digest is the entry watchlist's buy
      lines, the oversold tracker's lines, the exit monitor's lines, the
      first risk row's flags, the earnings monitor's items and the
      staleness line, in that order. */
  lemma BuildDigestRoutesTabs(v: Variant, h: Host, now: int, url: string, data: Row,
                              tables: seq<seq<Row>>, stale: string)
    requires |tables| == |Tabs| && forall i :: 0 <= i < |Tabs| ==> ParseRows(Tab(data, Tabs[i])) == Done(tables[i])
    requires ManifestStaleness(v, h, now, url, Tab(data, "manifest")) == Done(stale)
    ensures BuildDigest(v, h, now, url, data) ==
      Done(DigestText(h.utcStamp(now), Block(BuyLines(v, h, tables[0])), Block(OversoldLines(v, h, tables[1])),
                      Block(ExitLines(v, h, tables[2])), RiskQuota(v, h, tables[3]),
                      UpcomingEarnings(h, now / MicrosPerDay, tables[4]), stale))
  {
    var p := ParseTabs(data, Tabs);
    assert p.Done?;
    assert p.value == tables;
  }

  /** With no data every tab parses to no rows. */
  lemma NoTabs()
    ensures ParseTabs([], Tabs) == Done([[], [], [], [], []])
  {
    forall i | 0 <= i < |Tabs| ensures ParseRows(Tab([], Tabs[i])) == Done([]) {
      assert Tab([], Tabs[i]) == Null;
    }
    var r := ParseTabs([], Tabs);
    assert r.Done?;
    assert |r.value| == 5;
    assert forall i :: 0 <= i < |Tabs| ==> r.value[i] == [];
    assert r.value == [[], [], [], [], []];
  }

  /** Every section of an empty table shows its empty form. */
  lemma EmptySections(v: Variant, h: Host, today: int)
    ensures Block(BuyLines(v, h, [])) == Placeholder
    ensures Block(OversoldLines(v, h, [])) == Placeholder
    ensures Block(ExitLines(v, h, [])) == Placeholder
    ensures RiskQuota(v, h, []) == Bootstrap
    ensures UpcomingEarnings(h, today, []) == "—"
  {
    assert TickerRows(h, []) == [];
  }

  /** Empty tables render every section in its empty form. */
  lemma EmptyRender(v: Variant, h: Host, now: int, stale: string)
    ensures Render(v, h, now, [[], [], [], [], []], stale) ==
      DigestText(h.utcStamp(now), Placeholder, Placeholder, Placeholder, Bootstrap, "—", stale)
  {
    EmptySections(v, h, now / MicrosPerDay);
  }

  /** With no data at all every section shows its empty form and the
      staleness line names the manifest URL. */
  lemma EmptyDigest(v: Variant, h: Host, now: int, url: string)
    ensures BuildDigest(v, h, now, url, []) ==
      Done(DigestText(h.utcStamp(now), Placeholder, Placeholder, Placeholder, Bootstrap, "—",
                      "Manifest missing at " + url))
  {
    assert Tab([], "manifest") == Null;
    assert ManifestStaleness(v, h, now, url, Null) == Done("Manifest missing at " + url);
    NoTabs();
    EmptyRender(v, h, now, "Manifest missing at " + url);
  }

  /** The oversold and exit blocks are the same text in both scripts:
      only the buy, risk and staleness parts tell them apart. */
  lemma ListBlocksAgree(h: Host, m: int, rows: seq<Row>)
    ensures Block(OversoldLines(OwnerOnly, h, rows)) == Block(OversoldLines(OwnerPat(m), h, rows))
    ensures Block(ExitLines(OwnerOnly, h, rows)) == Block(ExitLines(OwnerPat(m), h, rows))
  {
  }

  /** The owner-only fallback to the bootstrap line after the risk
      section never fires: the section is never empty. */
  lemma RiskNeverEmpty(v: Variant, h: Host, rows: seq<Row>)
    ensures RiskQuota(v, h, rows) != ""
  {
  }
}
