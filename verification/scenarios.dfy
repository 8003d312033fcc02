/** Worked examples: concrete inputs whose outcome the model pins down. */
module Scenarios {
  import opened Text
  import opened Python
  import opened Fields
  import opened Sorting
  import opened Sections
  import opened Staleness
  import PostDigest

  /** The elements of `[x]` whose score is `k`. */
  function ScoredAs(x: Candidate, k: real): seq<Candidate> {
    if Score(x) == k then [x] else []
  }

  /** Scores {5.0, none, 8.0, none}, in that input order: 8.0 first, 5.0
      second, and the two unscored candidates last in their input
      order. The order is the one stable descending order of the input. */
  lemma MixedScoresOrder(a: Candidate, b: Candidate, c: Candidate, d: Candidate)
    requires a.score == 5.0 && b.score == Unscored && c.score == 8.0 && d.score == Unscored
    ensures SortDesc([a, b, c, d], Score) == [c, a, b, d]
  {
    var s := [a, b, c, d];
    var r := [c, a, b, d];
    assert Descending(r, Score);
    forall k ensures KeyClass(r, Score, k) == KeyClass(s, Score, k) {
      assert KeyClass([d], Score, k) == ScoredAs(d, k);
      assert KeyClass([b, d], Score, k) == ScoredAs(b, k) + ScoredAs(d, k) by {
        assert [b, d][1..] == [d];
      }
      assert KeyClass([c, d], Score, k) == ScoredAs(c, k) + ScoredAs(d, k) by {
        assert [c, d][1..] == [d];
      }
      assert KeyClass([a, b, d], Score, k) == ScoredAs(a, k) + ScoredAs(b, k) + ScoredAs(d, k) by {
        assert [a, b, d][1..] == [b, d];
      }
      assert KeyClass([b, c, d], Score, k) == ScoredAs(b, k) + ScoredAs(c, k) + ScoredAs(d, k) by {
        assert [b, c, d][1..] == [c, d];
      }
      assert KeyClass(r, Score, k) == ScoredAs(c, k) + ScoredAs(a, k) + ScoredAs(b, k) + ScoredAs(d, k) by {
        assert r[1..] == [a, b, d];
      }
      assert KeyClass(s, Score, k) == ScoredAs(a, k) + ScoredAs(b, k) + ScoredAs(c, k) + ScoredAs(d, k) by {
        assert s[1..] == [b, c, d];
      }
    }
    SortDescIsTheStableSort(s, Score, r);
  }

  /** Two watchlist rows: AAA scored 8 with an RSI of 40, BBB scored 3
      with no indicators. */
  const RowAAA: Row := [("Ticker", Str("AAA")), ("BounceScore", Int(8)), ("RSI", Int(40))]
  const RowBBB: Row := [("Ticker", Str("BBB")), ("BounceScore", Int(3))]

  /** A row whose first entry is a non-blank `Ticker` has that ticker. */
  lemma TickerOf(h: Host, r: Row, t: string)
    requires |r| > 0 && r[0] == ("Ticker", Str(t)) && t != [] && !IsSpace(t[0])
    ensures Ticker(h, r) == t && HasTicker(h, r)
  {
    assert Resolves(h, r, "Ticker") by {
      assert !Blank(t) by { assert !IsSpace(t[0]); }
    }
    FirstNonemptyPicksFirstAlias(h, r, TickerAliases, 0);
  }

  /** A row without any zone alias has no zone. */
  lemma NoZone(h: Host, r: Row)
    requires forall i :: 0 <= i < |r| ==> r[i].0 !in ZoneAliases
    ensures FirstNonempty(h, r, ZoneAliases) == ""
  {
    forall i | 0 <= i < |ZoneAliases| ensures !Resolves(h, r, ZoneAliases[i]) {
      assert !HasKey(r, ZoneAliases[i]);
    }
  }

  /** The owner_pat script reads a missing RSI as "100" and a missing %B
      as "1"; the worked examples need the host to parse those texts. */
  predicate ReadsDefaults(v: Variant, h: Host) {
    v.OwnerOnly? || (h.parseFloat("100") == Some(100.0) && h.parseFloat("1") == Some(1.0))
  }

  /** No literal test against non-None literals accepts None. */
  lemma NullMatchesNoLiteral(lits: seq<Value>)
    requires Null !in lits
    ensures !InLiterals(Null, lits)
  {
    if lits != [] {
      assert !EqLiteral(Null, lits[0]);
      NullMatchesNoLiteral(lits[1..]);
    }
  }

  /** A row without an EarningsSafe key never gets the earnings tag. */
  lemma NoEarningsSafeKey(v: Variant, h: Host, r: Row)
    requires !HasKey(r, "EarningsSafe")
    ensures !EarningsSafe(v, h, r)
  {
    assert GetOr(r, "EarningsSafe", Null) == Null;
    assert GetOr(r, "EarningsSafe", Str("")) == Str("");
    NullMatchesNoLiteral([Bool(true), Str("true"), Str("True"), Str("OK"), Str("ok"), Str("yes")]);
  }

  /** A row without a Recommendation or MACDHook key gets neither tag. */
  lemma NoBuyNoMacd(h: Host, r: Row)
    requires !HasKey(r, "Recommendation") && !HasKey(r, "MACDHook")
    ensures !RecommendsBuy(h, r) && !MacdHook(h, r)
  {
    assert GetOr(r, "Recommendation", Str("")) == Str("");
    assert GetOr(r, "MACDHook", Str("")) == Str("");
    assert Lower("") == "";
  }

  /** Of AAA's tests only the RSI one passes, under either script. */
  lemma AaaTests(v: Variant, h: Host)
    requires ReadsDefaults(v, h)
    ensures TestsOf(v, h, RowAAA) == Tests(false, true, false, false, false)
  {
    NoBuyNoMacd(h, RowAAA);
    NoEarningsSafeKey(v, h, RowAAA);
    AaaIndicators(v, h);
  }

  /** AAA's RSI of 40 is low; its missing %B is not. */
  lemma AaaIndicators(v: Variant, h: Host)
    requires ReadsDefaults(v, h)
    ensures RsiLow(v, h, RowAAA) && !BandLow(v, h, RowAAA)
  {
    assert Get(RowAAA, "RSI") == Some(Int(40));
    assert Get(RowAAA, "%B") == None;
    if v.OwnerPat? {
      assert GetOr(RowAAA, "RSI", Str("100")) == Int(40);
      assert GetOr(RowAAA, "%B", Str("1")) == Str("1");
    }
  }

  /** None of BBB's tests passes, under either script. */
  lemma BbbTests(v: Variant, h: Host)
    requires ReadsDefaults(v, h)
    ensures TestsOf(v, h, RowBBB) == Tests(false, false, false, false, false)
  {
    NoBuyNoMacd(h, RowBBB);
    NoEarningsSafeKey(v, h, RowBBB);
    assert Get(RowBBB, "RSI") == None;
    assert Get(RowBBB, "%B") == None;
    if v.OwnerPat? {
      OwnerPatMissingIndicatorsNoTag(v.staleMinutes, h, RowBBB);
    }
  }

  lemma RsiTagOnly()
    ensures TagsFrom(Tests(false, true, false, false, false), 0) == [RsiTag]
  {
    // No test of rank two or above passes.
    assert TagsFrom(Tests(false, true, false, false, false), 2) == [];
  }

  lemma NoTag()
    ensures TagsFrom(Tests(false, false, false, false, false), 0) == []
  {
    assert TagsFrom(Tests(false, false, false, false, false), 2) == [];
  }

  /** One tag reads as that tag's text. */
  lemma ReasonOfOneTag(v: Variant, h: Host, r: Row, x: Tag)
    requires Tags(v, h, r) == [x]
    ensures Reason(v, h, r) == TagText(x)
  {
    assert TagTexts([x]) == [TagText(x)];
  }

  lemma AaaReason(v: Variant, h: Host)
    requires ReadsDefaults(v, h)
    ensures Reason(v, h, RowAAA) == "RSI<45"
  {
    AaaTests(v, h);
    RsiTagOnly();
    ReasonOfOneTag(v, h, RowAAA, RsiTag);
  }

  lemma BbbReason(v: Variant, h: Host)
    requires ReadsDefaults(v, h)
    ensures Reason(v, h, RowBBB) == "watch"
  {
    BbbTests(v, h);
    NoTag();
  }

  /** An integer score is read as that number by both scripts. */
  lemma IntScore(v: Variant, h: Host, r: Row, n: int)
    requires Get(r, "BounceScore") == Some(Int(n))
    ensures BounceScore(v, h, r) == Some(n as real)
  {
    assert Int(n) !in {Null, Str("")};
    assert StrOf(h, Int(n)) != "";
  }

  /** The ticker, score and zone of the two rows. */
  lemma AaaFields(v: Variant, h: Host)
    ensures Ticker(h, RowAAA) == "AAA" && HasTicker(h, RowAAA)
    ensures BounceScore(v, h, RowAAA) == Some(8.0)
    ensures FirstNonempty(h, RowAAA, ZoneAliases) == ""
  {
    TickerOf(h, RowAAA, "AAA");
    IntScore(v, h, RowAAA, 8);
    NoZone(h, RowAAA);
  }

  lemma BbbFields(v: Variant, h: Host)
    ensures Ticker(h, RowBBB) == "BBB" && HasTicker(h, RowBBB)
    ensures BounceScore(v, h, RowBBB) == Some(3.0)
    ensures FirstNonempty(h, RowBBB, ZoneAliases) == ""
  {
    TickerOf(h, RowBBB, "BBB");
    IntScore(v, h, RowBBB, 3);
    NoZone(h, RowBBB);
  }

  lemma AaaCandidate(v: Variant, h: Host)
    requires ReadsDefaults(v, h)
    ensures HasTicker(h, RowAAA)
    ensures CandidateOf(v, h, RowAAA) == Candidate(8.0, "AAA", "RSI<45", "")
  {
    AaaReason(v, h);
    AaaFields(v, h);
  }

  lemma BbbCandidate(v: Variant, h: Host)
    requires ReadsDefaults(v, h)
    ensures HasTicker(h, RowBBB)
    ensures CandidateOf(v, h, RowBBB) == Candidate(3.0, "BBB", "watch", "")
  {
    BbbReason(v, h);
    BbbFields(v, h);
  }

  /** Two rows that both have a ticker are both read, in order. */
  lemma BothRowsRead(h: Host, x: Row, y: Row)
    requires HasTicker(h, x) && HasTicker(h, y)
    ensures TickerRows(h, [x, y]) == [x, y]
  {
    assert [x, y][1..] == [y];
  }

  lemma PairDescending(x: Candidate, y: Candidate)
    requires x.score >= y.score
    ensures SortDesc([x, y], Score) == [x, y]
  {
    assert Descending([x, y], Score);
    SortDescKeepsDescending([x, y], Score);
  }

  /** Two candidates already in descending order stay in that order. */
  lemma RankedPair(v: Variant, h: Host, rows: seq<Row>, x: Candidate, y: Candidate)
    requires Candidates(v, h, rows) == [x, y] && x.score >= y.score
    ensures Ranked(v, h, rows) == [x, y]
  {
    PairDescending(x, y);
    assert Ranked(v, h, rows) == SortDesc([x, y], Score);
  }

  lemma TwoRowCandidates(v: Variant, h: Host)
    requires ReadsDefaults(v, h)
    ensures TickerRows(h, [RowAAA, RowBBB]) == [RowAAA, RowBBB]
    ensures Candidates(v, h, [RowAAA, RowBBB])
            == [Candidate(8.0, "AAA", "RSI<45", ""), Candidate(3.0, "BBB", "watch", "")]
  {
    AaaCandidate(v, h);
    BbbCandidate(v, h);
    BothRowsRead(h, RowAAA, RowBBB);
  }

  lemma TwoRowsRanked(v: Variant, h: Host)
    requires ReadsDefaults(v, h)
    ensures TickerRows(h, [RowAAA, RowBBB]) == [RowAAA, RowBBB]
    ensures Ranked(v, h, [RowAAA, RowBBB])
            == [Candidate(8.0, "AAA", "RSI<45", ""), Candidate(3.0, "BBB", "watch", "")]
  {
    TwoRowCandidates(v, h);
    RankedPair(v, h, [RowAAA, RowBBB], Candidate(8.0, "AAA", "RSI<45", ""), Candidate(3.0, "BBB", "watch", ""));
  }

  /** A line shows the zone only when there is one. */
  lemma PairLines()
    ensures BuyLine(Candidate(8.0, "AAA", "RSI<45", "")) == "   AAA (RSI<45)"
    ensures BuyLine(Candidate(3.0, "BBB", "watch", "")) == "   BBB (watch)"
  {
  }

  /** The buy section on AAA and BBB, in either script: AAA first with
      the RSI tag, BBB second with no tag. The owner-only script consults
      no library routine on these rows; the owner_pat script parses its
      default RSI and %B texts. */
  lemma TwoRowBuySection(v: Variant, h: Host)
    requires ReadsDefaults(v, h)
    ensures |BuyLines(v, h, [RowAAA, RowBBB])| == 2
    ensures BuyLines(v, h, [RowAAA, RowBBB])[0] == "   AAA (RSI<45)"
    ensures BuyLines(v, h, [RowAAA, RowBBB])[1] == "   BBB (watch)"
  {
    TwoRowsRanked(v, h);
    FewRowsAllListed(v, h, [RowAAA, RowBBB]);
    PairLines();
  }

  /** The owner scripts compare calendar dates: an earnings time late on
      the fourteenth day ahead is still in the window, midnight of the
      fifteenth is not, and today counts. */
  lemma EarningsWindowEdges(today: int)
    ensures InWindow(DayOf(DateTime(today * MicrosPerDay, None)) - today)
    ensures InWindow(DayOf(DateTime((today + 14) * MicrosPerDay + MicrosPerDay - 1, None)) - today)
    ensures !InWindow(DayOf(DateTime((today + 15) * MicrosPerDay, None)) - today)
    ensures !InWindow(DayOf(DateTime(today * MicrosPerDay - 1, None)) - today)
  {
    assert (today + 14) * MicrosPerDay + MicrosPerDay - 1 == (today + 14) * MicrosPerDay + (MicrosPerDay - 1);
    assert today * MicrosPerDay - 1 == (today - 1) * MicrosPerDay + (MicrosPerDay - 1);
  }

  /** A snapshot taken 90 minutes ago is fresh under the owner_pat
      default of 120 minutes and under the owner-only 90, and stale under
      a threshold of 60. */
  lemma NinetyMinutesOld(h: Host, now: int, url: string, iso: string)
    requires iso != [] && h.fromIso(ReplaceZ(iso)) == Some(DateTime(now - 90 * MicrosPerMinute, None))
    ensures Assess(OwnerPat(DefaultStaleMinutes), h, now, url, Dict([("snapshot_iso", Str(iso))]))
            == Done(Snapshot(iso, 90, false))
    ensures Assess(OwnerOnly, h, now, url, Dict([("snapshot_iso", Str(iso))])) == Done(Snapshot(iso, 90, false))
    ensures Assess(OwnerPat(60), h, now, url, Dict([("snapshot_iso", Str(iso))])) == Done(Snapshot(iso, 90, true))
  {
    var m: Row := [("snapshot_iso", Str(iso))];
    assert TimestampValue(m) == Str(iso);
    assert MinutesSince(now, DateTime(now - 90 * MicrosPerMinute, None)) == 90;
  }

  /** `days_until` counts elapsed time, not dates: 14 days and 23 hours
      ahead is day 14, a microsecond short of 15 days is still day 14,
      and one microsecond in the past is day -1. */
  lemma DaysUntilEdges(now: int)
    ensures PostDigest.DaysUntil(Some(DateTime(now, None)), now) == Some(0)
    ensures PostDigest.DaysUntil(Some(DateTime(now + 15 * MicrosPerDay - 1, None)), now) == Some(14)
    ensures PostDigest.DaysUntil(Some(DateTime(now + 15 * MicrosPerDay, None)), now) == Some(15)
    ensures PostDigest.DaysUntil(Some(DateTime(now - 1, None)), now) == Some(-1)
  {
  }
}
