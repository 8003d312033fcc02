/** The five report sections of the two owner scripts. The scripts
    differ only in small ways, so one definition serves both and takes
    the script as a `Variant`:
      - the owner-only script adds a "Buy" tag, reads RSI and %B only
        when present, accepts four truthy EarningsSafe tokens and
        upper-cases the kill-switch state; its list sections return []
        when empty and the assembler substitutes the placeholder;
      - the owner_pat script defaults RSI to "100" and %B to "1", accepts
        six EarningsSafe tokens, keeps the kill-switch text as it is, and
        its list sections return the placeholder line themselves. */
module Sections {
  import opened Text
  import opened Python
  import opened Fields
  import opened Sorting

  datatype Variant = OwnerOnly | OwnerPat(staleMinutes: int)

  const TickerAliases: seq<string> := ["Ticker", "Symbol"]
  const ZoneAliases: seq<string> := ["EntryZone", "Entry Zone", "SuggestedEntry"]
  const MissingAliases: seq<string> := ["MissingSignals", "Missing", "Need"]
  const NextCheckAliases: seq<string> := ["NextCheckAt", "Next Check", "NextCheckAt (ISO8601)"]
  const WhyAliases: seq<string> := ["Reason", "Trigger", "Status"]
  const KillSwitchAliases: seq<string> := ["KillSwitch", "KillSwitchState"]
  const DrawdownAliases: seq<string> := ["Drawdown", "DD_Pct", "DD"]
  const QuotaAliases: seq<string> := ["SectorOverweights", "QuotaFlags", "Sector Quotas"]
  const EarningsDateAliases: seq<string> :=
    ["EarningsDate", "NextEarnings", "EarningsDateISO", "Next ER (ISO)", "Next ER (Est.)", "NextERISO"]

  /** The line an empty list section shows. */
  const Placeholder: string := "   —"
  const Bootstrap: string := "Bootstrap row; system trigger"
  const MaxBuy: nat := 8
  /** The earnings window is [0, EarningsWindow] days, both ends included. */
  const EarningsWindow: int := 14

  function Ticker(h: Host, r: Row): string {
    FirstNonempty(h, r, TickerAliases)
  }

  predicate HasTicker(h: Host, r: Row) {
    Ticker(h, r) != ""
  }

  /** The rows every section reads: those with a Ticker or Symbol, in
      input order. */
  function TickerRows(h: Host, rows: seq<Row>): (t: seq<Row>)
    ensures |t| <= |rows|
    ensures forall r :: r in t <==> r in rows && HasTicker(h, r)
  {
    if rows == [] then []
    else
      assert rows == [rows[0]] + rows[1..];
      (if HasTicker(h, rows[0]) then [rows[0]] else []) + TickerRows(h, rows[1..])
  }

  lemma {:induction false} TickerRowsAppend(h: Host, a: seq<Row>, b: seq<Row>)
    ensures TickerRows(h, a + b) == TickerRows(h, a) + TickerRows(h, b)
  {
    if a == [] {
      assert a + b == b;
    } else {
      assert (a + b)[1..] == a[1..] + b;
      TickerRowsAppend(h, a[1..], b);
    }
  }

  /** A row without a ticker is invisible to every section. */
  lemma TickerlessRowIgnored(h: Host, a: seq<Row>, r: Row, b: seq<Row>)
    requires !HasTicker(h, r)
    ensures TickerRows(h, a + [r] + b) == TickerRows(h, a + b)
  {
    TickerRowsAppend(h, a + [r], b);
    TickerRowsAppend(h, a, [r]);
    TickerRowsAppend(h, a, b);
  }

  /** The per-row loop every list section runs: `f` applied to each
      ticker row, in input order. */
  function ForTickerRows<T>(h: Host, rows: seq<Row>, f: Row -> T): (out: seq<T>)
    ensures |out| == |TickerRows(h, rows)|
    ensures forall i :: 0 <= i < |out| ==> out[i] == f(TickerRows(h, rows)[i])
  {
    if rows == [] then []
    else
      var rest := ForTickerRows(h, rows[1..], f);
      if HasTicker(h, rows[0]) then
        assert TickerRows(h, rows) == [rows[0]] + TickerRows(h, rows[1..]);
        [f(rows[0])] + rest
      else
        assert TickerRows(h, rows) == TickerRows(h, rows[1..]);
        rest
  }

  // ----- 1) Buy candidates -----

  datatype Candidate = Candidate(score: real, ticker: string, reason: string, zone: string)

  function Score(c: Candidate): real {
    c.score
  }

  /** The bounce score as a float; None when it is absent, None, "" or
      does not parse. A present value that prints as non-empty text is
      parsed; the owner_pat script parses any value other than None and
      "". */
  function BounceScore(v: Variant, h: Host, r: Row): (s: Option<real>)
    ensures s.Some? ==> HasKey(r, "BounceScore") && FloatOf(h, Get(r, "BounceScore").value) == s
    ensures Get(r, "BounceScore") in {None, Some(Null), Some(Str(""))} ==> s == None
    ensures HasKey(r, "BounceScore") && Get(r, "BounceScore").value != Null
            && StrOf(h, Get(r, "BounceScore").value) != ""
            ==> s == FloatOf(h, Get(r, "BounceScore").value)
    ensures v.OwnerPat? && HasKey(r, "BounceScore") && Get(r, "BounceScore").value !in {Null, Str("")}
            ==> s == FloatOf(h, Get(r, "BounceScore").value)
  {
    match v
    case OwnerOnly =>
      var bs := Get(r, "BounceScore");
      if bs.Some? && bs.value != Null && StrOf(h, bs.value) != "" then FloatOf(h, bs.value) else None
    case OwnerPat(_) =>
      var bs := GetOr(r, "BounceScore", Null);
      assert [Null, Str("")][1..] == [Str("")] && [Str("")][1..] == [];
      assert EqLiteral(bs, Null) <==> bs == Null;
      assert EqLiteral(bs, Str("")) <==> bs == Str("");
      assert !InLiterals(bs, []);
      assert InLiterals(bs, [Str("")]) <==> bs == Str("");
      assert InLiterals(bs, [Null, Str("")]) <==> bs == Null || bs == Str("");
      if !InLiterals(bs, [Null, Str("")]) then FloatOf(h, bs) else None
  }

  predicate RecommendsBuy(h: Host, r: Row) {
    StartsWith(Lower(StrOf(h, GetOr(r, "Recommendation", Str("")))), "buy")
  }

  /** The RSI reads below 45 (strictly). */
  predicate RsiLow(v: Variant, h: Host, r: Row) {
    var f := match v
      case OwnerOnly => if HasKey(r, "RSI") then FloatOf(h, Get(r, "RSI").value) else None
      case OwnerPat(_) => FloatOf(h, GetOr(r, "RSI", Str("100")));
    f.Some? && f.value < 45.0
  }

  /** In the owner_pat script a row without RSI or %B reads them as 100
      and 1, so it gets neither tag. */
  lemma OwnerPatMissingIndicatorsNoTag(m: int, h: Host, r: Row)
    requires h.parseFloat("100") == Some(100.0) && h.parseFloat("1") == Some(1.0)
    requires !HasKey(r, "RSI") && !HasKey(r, "%B")
    ensures !RsiLow(OwnerPat(m), h, r) && !BandLow(OwnerPat(m), h, r)
  {
    assert GetOr(r, "RSI", Str("100")) == Str("100");
    assert GetOr(r, "%B", Str("1")) == Str("1");
  }

  /** The Bollinger %B reads at most 0.05 (inclusive). */
  predicate BandLow(v: Variant, h: Host, r: Row) {
    var f := match v
      case OwnerOnly => if HasKey(r, "%B") then FloatOf(h, Get(r, "%B").value) else None
      case OwnerPat(_) => FloatOf(h, GetOr(r, "%B", Str("1")));
    f.Some? && f.value <= 0.05
  }

  predicate MacdHook(h: Host, r: Row) {
    Lower(StrOf(h, GetOr(r, "MACDHook", Str("")))) in ["true", "yes", "hook", "cross", "hook/cross"]
  }

  predicate EarningsSafe(v: Variant, h: Host, r: Row) {
    match v
    case OwnerOnly =>
      InLiterals(GetOr(r, "EarningsSafe", Str("")), [Str("true"), Bool(true), Str("yes"), Str("ok")])
    case OwnerPat(_) =>
      InLiterals(GetOr(r, "EarningsSafe", Null),
                 [Bool(true), Str("true"), Str("True"), Str("OK"), Str("ok"), Str("yes")])
  }

  /** The reason tags, declared in the order they are appended. */
  datatype Tag = BuyTag | RsiTag | BandTag | MacdTag | EarningsTag

  function TagText(t: Tag): string {
    match t
    case BuyTag => "Buy"
    case RsiTag => "RSI<45"
    case BandTag => "%B≤0.05"
    case MacdTag => "MACD hook"
    case EarningsTag => "ER≥35d"
  }

  function TagRank(t: Tag): nat {
    match t
    case BuyTag => 0
    case RsiTag => 1
    case BandTag => 2
    case MacdTag => 3
    case EarningsTag => 4
  }

  function TagAt(k: nat): (t: Tag)
    requires k < 5
    ensures TagRank(t) == k
    ensures forall x :: TagRank(x) == k ==> x == t
  {
    [BuyTag, RsiTag, BandTag, MacdTag, EarningsTag][k]
  }

  /** The outcome of the five tag tests for one row. */
  datatype Tests = Tests(buy: bool, rsi: bool, band: bool, macd: bool, earnings: bool)

  function TestsOf(v: Variant, h: Host, r: Row): Tests {
    Tests(v.OwnerOnly? && RecommendsBuy(h, r), RsiLow(v, h, r), BandLow(v, h, r),
          MacdHook(h, r), EarningsSafe(v, h, r))
  }

  predicate Passes(ts: Tests, t: Tag) {
    match t
    case BuyTag => ts.buy
    case RsiTag => ts.rsi
    case BandTag => ts.band
    case MacdTag => ts.macd
    case EarningsTag => ts.earnings
  }

  /** The tags of rank `k` and above whose test passed, in rank order. */
  function TagsFrom(ts: Tests, k: nat): (t: seq<Tag>)
    requires k <= 5
    ensures forall x :: x in t <==> TagRank(x) >= k && Passes(ts, x)
    ensures forall i, j :: 0 <= i < j < |t| ==> TagRank(t[i]) < TagRank(t[j])
    decreases 5 - k
  {
    if k == 5 then []
    else
      var rest := TagsFrom(ts, k + 1);
      (if Passes(ts, TagAt(k)) then [TagAt(k)] else []) + rest
  }

  /** The reason tags of a row: each present exactly when its test
      passes, in the fixed order Buy, RSI, %B, MACD, earnings. */
  function Tags(v: Variant, h: Host, r: Row): (t: seq<Tag>)
    ensures forall x :: x in t <==> Passes(TestsOf(v, h, r), x)
    ensures forall i, j :: 0 <= i < j < |t| ==> TagRank(t[i]) < TagRank(t[j])
  {
    TagsFrom(TestsOf(v, h, r), 0)
  }

  /** What each tag means in terms of the row: Buy only in the
      owner-only script and only for a "buy..." recommendation, and one
      tag per passing indicator test. */
  lemma TagsMeaning(v: Variant, h: Host, r: Row)
    ensures BuyTag in Tags(v, h, r) <==> v.OwnerOnly? && RecommendsBuy(h, r)
    ensures RsiTag in Tags(v, h, r) <==> RsiLow(v, h, r)
    ensures BandTag in Tags(v, h, r) <==> BandLow(v, h, r)
    ensures MacdTag in Tags(v, h, r) <==> MacdHook(h, r)
    ensures EarningsTag in Tags(v, h, r) <==> EarningsSafe(v, h, r)
  {
    var ts := TestsOf(v, h, r);
    assert Passes(ts, BuyTag) == ts.buy;
    assert Passes(ts, RsiTag) == ts.rsi;
    assert Passes(ts, BandTag) == ts.band;
    assert Passes(ts, MacdTag) == ts.macd;
    assert Passes(ts, EarningsTag) == ts.earnings;
  }

  function TagTexts(t: seq<Tag>): (r: seq<string>)
    ensures |r| == |t|
  {
    seq(|t|, i requires 0 <= i < |t| => TagText(t[i]))
  }

  /** The parenthesised reason: the tags joined by ", ", or "watch". */
  function Reason(v: Variant, h: Host, r: Row): string {
    var t := Tags(v, h, r);
    if t == [] then "watch" else Join(", ", TagTexts(t))
  }

  function CandidateOf(v: Variant, h: Host, r: Row): Candidate {
    var s := BounceScore(v, h, r);
    Candidate(if s.Some? then s.value else Unscored, Ticker(h, r), Reason(v, h, r),
              FirstNonempty(h, r, ZoneAliases))
  }

  /** The scored list the loop builds: one candidate per ticker row, in
      input order. */
  function Candidates(v: Variant, h: Host, rows: seq<Row>): (cs: seq<Candidate>)
    ensures |cs| == |TickerRows(h, rows)|
    ensures forall i :: 0 <= i < |cs| ==> cs[i] == CandidateOf(v, h, TickerRows(h, rows)[i])
  {
    ForTickerRows(h, rows, r => CandidateOf(v, h, r))
  }

  /** The candidates after `scored.sort(key=score, reverse=True)`. */
  function Ranked(v: Variant, h: Host, rows: seq<Row>): (rk: seq<Candidate>)
    ensures Descending(rk, Score)
    ensures multiset(rk) == multiset(Candidates(v, h, rows))
    ensures |rk| == |TickerRows(h, rows)|
  {
    SortDesc(Candidates(v, h, rows), Score)
  }

  /** Every candidate with a score above the sentinel is ranked ahead of
      every unscored one. */
  lemma UnscoredRankLast(v: Variant, h: Host, rows: seq<Row>, i: nat, j: nat)
    requires i < |Ranked(v, h, rows)| && j < |Ranked(v, h, rows)|
    requires Ranked(v, h, rows)[i].score > Unscored && Ranked(v, h, rows)[j].score == Unscored
    ensures i < j
  {
    LargerKeyFirst(Ranked(v, h, rows), Score, i, j);
  }

  /** With one to eight ticker rows every candidate is listed, in ranked
      order. */
  lemma FewRowsAllListed(v: Variant, h: Host, rows: seq<Row>)
    requires 0 < |TickerRows(h, rows)| <= MaxBuy
    ensures |BuyLines(v, h, rows)| == |Ranked(v, h, rows)|
    ensures forall i :: 0 <= i < |Ranked(v, h, rows)| ==> BuyLines(v, h, rows)[i] == BuyLine(Ranked(v, h, rows)[i])
  {
    var n := |TickerRows(h, rows)|;
    assert Min(MaxBuy, n) == n == |Ranked(v, h, rows)|;
  }

  /** Equal scores keep input order, and the order is the only one that
      is both descending and stable. */
  lemma RankedIsStable(v: Variant, h: Host, rows: seq<Row>)
    ensures StablyReordered(Ranked(v, h, rows), Candidates(v, h, rows), Score)
    ensures forall r :: Descending(r, Score) && StablyReordered(r, Candidates(v, h, rows), Score)
              ==> r == Ranked(v, h, rows)
  {
    SortDescStable(Candidates(v, h, rows), Score);
    forall r | Descending(r, Score) && StablyReordered(r, Candidates(v, h, rows), Score)
      ensures r == Ranked(v, h, rows)
    {
      SortDescIsTheStableSort(Candidates(v, h, rows), Score, r);
    }
  }

  function BuyLine(c: Candidate): string {
    "   " + c.ticker + " (" + c.reason + ")" + (if c.zone != "" then " — " + c.zone else "")
  }

  /** One line for each of the first eight ranked candidates. */
  function TopLines(ranked: seq<Candidate>): (lines: seq<string>)
    ensures |lines| == Min(MaxBuy, |ranked|)
    ensures forall i :: 0 <= i < |lines| ==> lines[i] == BuyLine(ranked[i])
  {
    var n := Min(MaxBuy, |ranked|);
    seq(n, i requires 0 <= i < n => BuyLine(ranked[i]))
  }

  /** `out[:8] if len(out) >= 3 else out`: a prefix of the lines, and
      the lines themselves whenever at most eight come in, which is
      always the case here. */
  function OwnerOnlyCut(out: seq<string>): (r: seq<string>)
    ensures r <= out
    ensures |r| <= MaxBuy || |out| < 3
    ensures |out| <= MaxBuy ==> r == out
  {
    if |out| >= 3 then out[..Min(MaxBuy, |out|)] else out
  }

  /** `section_buy_candidates` (owner-only) / `section_buy` (owner_pat):
      the first eight ranked candidates, one line each. */
  function BuyLines(v: Variant, h: Host, rows: seq<Row>): (out: seq<string>)
    ensures v.OwnerOnly? ==> |out| == Min(MaxBuy, |TickerRows(h, rows)|)
    ensures v.OwnerPat? && TickerRows(h, rows) != [] ==> |out| == Min(MaxBuy, |TickerRows(h, rows)|)
    ensures v.OwnerPat? && TickerRows(h, rows) == [] ==> out == [Placeholder]
    ensures forall i :: 0 <= i < Min(MaxBuy, |TickerRows(h, rows)|)
              ==> out[i] == BuyLine(Ranked(v, h, rows)[i])
  {
    var lines := TopLines(Ranked(v, h, rows));
    match v
    case OwnerOnly => OwnerOnlyCut(lines)
    case OwnerPat(_) => if lines == [] then [Placeholder] else lines
  }

  /** Adding or removing a row without a ticker leaves the section as it
      was. */
  lemma BuyIgnoresTickerlessRows(v: Variant, h: Host, a: seq<Row>, r: Row, b: seq<Row>)
    requires !HasTicker(h, r)
    ensures BuyLines(v, h, a + [r] + b) == BuyLines(v, h, a + b)
  {
    TickerlessRowIgnored(h, a, r, b);
    var c1, c2 := Candidates(v, h, a + [r] + b), Candidates(v, h, a + b);
    assert c1 == c2;
  }

  // ----- 2) Oversold but not ready -----

  /** The ticker, then the missing signals when they resolve; the next
      check is named only inside that clause, so without missing
      signals the line is the bare ticker. */
  function OversoldLine(h: Host, r: Row): (line: string)
    ensures FirstNonempty(h, r, MissingAliases) == "" ==> line == "   " + Ticker(h, r)
    ensures FirstNonempty(h, r, MissingAliases) != "" ==>
      StartsWith(line, "   " + Ticker(h, r) + " — missing " + FirstNonempty(h, r, MissingAliases))
    ensures FirstNonempty(h, r, MissingAliases) != "" && FirstNonempty(h, r, NextCheckAliases) == "" ==>
      line == "   " + Ticker(h, r) + " — missing " + FirstNonempty(h, r, MissingAliases)
    ensures FirstNonempty(h, r, MissingAliases) != "" && FirstNonempty(h, r, NextCheckAliases) != "" ==>
      line == "   " + Ticker(h, r) + " — missing " + FirstNonempty(h, r, MissingAliases)
              + "; next " + FirstNonempty(h, r, NextCheckAliases)
  {
    var t := Ticker(h, r);
    var missing := FirstNonempty(h, r, MissingAliases);
    var next := FirstNonempty(h, r, NextCheckAliases);
    if missing != "" then
      var head := "   " + t + " — missing " + missing;
      var line := head + (if next != "" then "; next " + next else "");
      assert line[..|head|] == head;
      line
    else "   " + t
  }

  /** The list the loop builds: one line per ticker row, input order. */
  function OversoldOut(h: Host, rows: seq<Row>): (out: seq<string>)
    ensures |out| == |TickerRows(h, rows)|
    ensures forall i :: 0 <= i < |out| ==> out[i] == OversoldLine(h, TickerRows(h, rows)[i])
  {
    ForTickerRows(h, rows, r => OversoldLine(h, r))
  }

  /** `section_oversold_not_ready` / `section_over`. */
  function OversoldLines(v: Variant, h: Host, rows: seq<Row>): (out: seq<string>)
    ensures v.OwnerOnly? || TickerRows(h, rows) != [] ==> out == OversoldOut(h, rows)
    ensures v.OwnerPat? && TickerRows(h, rows) == [] ==> out == [Placeholder]
  {
    var out := OversoldOut(h, rows);
    if v.OwnerPat? && out == [] then [Placeholder] else out
  }

  // ----- 3) Exits -----

  /** The ticker, and " — why" only when a reason alias resolves. */
  function ExitLine(h: Host, r: Row): (line: string)
    ensures FirstNonempty(h, r, WhyAliases) == "" ==> line == "   " + Ticker(h, r)
    ensures FirstNonempty(h, r, WhyAliases) != "" ==>
      StartsWith(line, "   " + Ticker(h, r) + " — ") && EndsWith(line, FirstNonempty(h, r, WhyAliases))
    ensures FirstNonempty(h, r, WhyAliases) != "" ==>
      line == "   " + Ticker(h, r) + " — " + FirstNonempty(h, r, WhyAliases)
  {
    var why := FirstNonempty(h, r, WhyAliases);
    "   " + Ticker(h, r) + (if why != "" then " — " + why else "")
  }

  function ExitOut(h: Host, rows: seq<Row>): (out: seq<string>)
    ensures |out| == |TickerRows(h, rows)|
    ensures forall i :: 0 <= i < |out| ==> out[i] == ExitLine(h, TickerRows(h, rows)[i])
  {
    ForTickerRows(h, rows, r => ExitLine(h, r))
  }

  /** `section_exits` (both owner scripts). */
  function ExitLines(v: Variant, h: Host, rows: seq<Row>): (out: seq<string>)
    ensures v.OwnerOnly? || TickerRows(h, rows) != [] ==> out == ExitOut(h, rows)
    ensures v.OwnerPat? && TickerRows(h, rows) == [] ==> out == [Placeholder]
  {
    var out := ExitOut(h, rows);
    if v.OwnerPat? && out == [] then [Placeholder] else out
  }

  // ----- 4) Risk & quotas -----

  function KillSwitch(v: Variant, h: Host, r0: Row): string {
    var ks := FirstNonempty(h, r0, KillSwitchAliases);
    if v.OwnerOnly? then Upper(ks) else ks
  }

  /** A risk flag, declared in the order flags are listed. */
  datatype Flag = KillSwitchFlag(text: string) | DrawdownFlag(text: string) | QuotaFlag(text: string)

  function FlagText(f: Flag): string {
    match f
    case KillSwitchFlag(t) => "KillSwitch: " + t
    case DrawdownFlag(t) => "DD: " + t
    case QuotaFlag(t) => "Quotas: " + t
  }

  function FlagRank(f: Flag): (n: nat)
    ensures n < 3
  {
    match f
    case KillSwitchFlag(_) => 0
    case DrawdownFlag(_) => 1
    case QuotaFlag(_) => 2
  }

  /** The flag of rank `k` when its alias group resolves in `r0`. */
  function FlagAt(v: Variant, h: Host, r0: Row, k: nat): (f: Option<Flag>)
    requires k < 3
    ensures f.Some? ==> FlagRank(f.value) == k && f.value.text != ""
    ensures k == 0 ==> (f.Some? <==> FirstNonempty(h, r0, KillSwitchAliases) != "")
                       && (f.Some? ==> f.value == KillSwitchFlag(KillSwitch(v, h, r0)))
    ensures k == 1 ==> (f.Some? <==> FirstNonempty(h, r0, DrawdownAliases) != "")
                       && (f.Some? ==> f.value == DrawdownFlag(FirstNonempty(h, r0, DrawdownAliases)))
    ensures k == 2 ==> (f.Some? <==> FirstNonempty(h, r0, QuotaAliases) != "")
                       && (f.Some? ==> f.value == QuotaFlag(FirstNonempty(h, r0, QuotaAliases)))
  {
    if k == 0 then
      var ks := KillSwitch(v, h, r0);
      if ks != "" then Some(KillSwitchFlag(ks)) else None
    else if k == 1 then
      var dd := FirstNonempty(h, r0, DrawdownAliases);
      if dd != "" then Some(DrawdownFlag(dd)) else None
    else
      var q := FirstNonempty(h, r0, QuotaAliases);
      if q != "" then Some(QuotaFlag(q)) else None
  }

  function FlagsFrom(v: Variant, h: Host, r0: Row, k: nat): (flags: seq<Flag>)
    requires k <= 3
    ensures forall f :: f in flags <==> FlagRank(f) >= k && FlagAt(v, h, r0, FlagRank(f)) == Some(f)
    ensures forall i, j :: 0 <= i < j < |flags| ==> FlagRank(flags[i]) < FlagRank(flags[j])
    ensures forall i :: 0 <= i < |flags| ==> FlagRank(flags[i]) >= k
    decreases 3 - k
  {
    if k == 3 then []
    else
      var rest := FlagsFrom(v, h, r0, k + 1);
      match FlagAt(v, h, r0, k)
      case Some(f) => [f] + rest
      case None => rest
  }

  /** The flags of the first risk row: one per alias group that
      resolves, in the order kill switch, drawdown, quotas, each carrying
      the resolved text. */
  function RiskFlags(v: Variant, h: Host, r0: Row): (flags: seq<Flag>)
    ensures forall i, j :: 0 <= i < j < |flags| ==> FlagRank(flags[i]) < FlagRank(flags[j])
    ensures KillSwitchFlag(KillSwitch(v, h, r0)) in flags <==> FirstNonempty(h, r0, KillSwitchAliases) != ""
    ensures DrawdownFlag(FirstNonempty(h, r0, DrawdownAliases)) in flags
            <==> FirstNonempty(h, r0, DrawdownAliases) != ""
    ensures QuotaFlag(FirstNonempty(h, r0, QuotaAliases)) in flags
            <==> FirstNonempty(h, r0, QuotaAliases) != ""
    ensures forall f :: f in flags ==> f.text != ""
    ensures forall f :: f in flags ==>
              || f == KillSwitchFlag(KillSwitch(v, h, r0))
              || f == DrawdownFlag(FirstNonempty(h, r0, DrawdownAliases))
              || f == QuotaFlag(FirstNonempty(h, r0, QuotaAliases))
  {
    var flags := FlagsFrom(v, h, r0, 0);
    FlagsAreResolved(v, h, r0, flags);
    assert FlagAt(v, h, r0, 0).Some? ==> FlagAt(v, h, r0, 0).value in flags;
    assert FlagAt(v, h, r0, 1).Some? ==> FlagAt(v, h, r0, 1).value in flags;
    assert FlagAt(v, h, r0, 2).Some? ==> FlagAt(v, h, r0, 2).value in flags;
    flags
  }

  /** Every flag is the one its rank resolves to. */
  lemma FlagsAreResolved(v: Variant, h: Host, r0: Row, flags: seq<Flag>)
    requires forall f :: f in flags ==> FlagAt(v, h, r0, FlagRank(f)) == Some(f)
    ensures forall f :: f in flags ==>
              || f == KillSwitchFlag(KillSwitch(v, h, r0))
              || f == DrawdownFlag(FirstNonempty(h, r0, DrawdownAliases))
              || f == QuotaFlag(FirstNonempty(h, r0, QuotaAliases))
  {
    forall f | f in flags
      ensures || f == KillSwitchFlag(KillSwitch(v, h, r0))
              || f == DrawdownFlag(FirstNonempty(h, r0, DrawdownAliases))
              || f == QuotaFlag(FirstNonempty(h, r0, QuotaAliases))
    {
      assert FlagAt(v, h, r0, FlagRank(f)) == Some(f);
    }
  }

  function FlagTexts(flags: seq<Flag>): (r: seq<string>)
    ensures |r| == |flags|
  {
    seq(|flags|, i requires 0 <= i < |flags| => FlagText(flags[i]))
  }

  /** `section_risk_quota` (owner-only) / `section_risk` (owner_pat). */
  function RiskQuota(v: Variant, h: Host, rows: seq<Row>): (s: string)
    ensures s == Bootstrap <==> rows == [] || RiskFlags(v, h, rows[0]) == []
    ensures s != Bootstrap ==> s == Join(", ", FlagTexts(RiskFlags(v, h, rows[0])))
  {
    if rows == [] then Bootstrap
    else
      var flags := RiskFlags(v, h, rows[0]);
      if flags == [] then Bootstrap
      else
        var texts := FlagTexts(flags);
        var s := Join(", ", texts);
        assert StartsWith(s, texts[0]);
        assert texts[0][0] in "KDQ";
        s
  }

  /** Only the first row of the risk table is read. */
  lemma RiskReadsOnlyFirstRow(v: Variant, h: Host, r0: Row, rest: seq<Row>)
    ensures RiskQuota(v, h, [r0] + rest) == RiskQuota(v, h, [r0])
  {
  }

  // ----- 5) Upcoming earnings -----

  /** Whole days from `today` to the earnings date, when a date alias
      resolves and parses; the date is the datetime's own calendar
      date. */
  function EarningsDays(h: Host, today: int, r: Row): Option<int> {
    var ds := FirstNonempty(h, r, EarningsDateAliases);
    if ds == "" then None
    else match h.fromIso(ReplaceZ(ds))
      case None => None
      case Some(d) => Some(DayOf(d) - today)
  }

  predicate InWindow(n: int) {
    0 <= n <= EarningsWindow
  }

  /** "T (Nd)" for a ticker row whose earnings fall inside the window. */
  function EarningsItem(h: Host, today: int, r: Row): (item: Option<string>)
    ensures item.Some? <==>
      (HasTicker(h, r) && EarningsDays(h, today, r).Some? && InWindow(EarningsDays(h, today, r).value))
    ensures item.Some? ==>
      item.value == Ticker(h, r) + " (" + IntText(EarningsDays(h, today, r).value) + "d)"
  {
    if !HasTicker(h, r) then None
    else match EarningsDays(h, today, r)
      case Some(n) =>
        if 0 <= n <= EarningsWindow then Some(Ticker(h, r) + " (" + IntText(n) + "d)") else None
      case None => None
  }

  /** The items in input order: exactly those the rows produce. */
  function EarningsItems(h: Host, today: int, rows: seq<Row>): (items: seq<string>)
    ensures |items| <= |rows|
    ensures forall r :: r in rows && EarningsItem(h, today, r).Some?
              ==> EarningsItem(h, today, r).value in items
    ensures forall x :: x in items ==> exists r :: r in rows && EarningsItem(h, today, r) == Some(x)
  {
    ItemsOfRows(h, today, rows);
    ItemsOf(h, today, rows)
  }

  /** The item of the first row, if any, before those of the rest. */
  function ItemsOf(h: Host, today: int, rows: seq<Row>): seq<string> {
    if rows == [] then []
    else
      match EarningsItem(h, today, rows[0])
      case Some(x) => [x] + ItemsOf(h, today, rows[1..])
      case None => ItemsOf(h, today, rows[1..])
  }

  lemma {:induction false} ItemsOfRows(h: Host, today: int, rows: seq<Row>)
    ensures |ItemsOf(h, today, rows)| <= |rows|
    ensures forall r :: r in rows && EarningsItem(h, today, r).Some?
              ==> EarningsItem(h, today, r).value in ItemsOf(h, today, rows)
    ensures forall x :: x in ItemsOf(h, today, rows) ==> exists r :: r in rows && EarningsItem(h, today, r) == Some(x)
  {
    if rows != [] {
      ItemsOfRows(h, today, rows[1..]);
      assert forall r :: r in rows[1..] ==> r in rows;
      assert forall r :: r in rows ==> r == rows[0] || r in rows[1..];
    }
  }

  /** The items of consecutive row lists are concatenated: every row that
      qualifies adds its own item, duplicates included, in input
      order. */
  lemma {:induction false} EarningsItemsAppend(h: Host, today: int, a: seq<Row>, b: seq<Row>)
    ensures EarningsItems(h, today, a + b) == EarningsItems(h, today, a) + EarningsItems(h, today, b)
  {
    ItemsOfAppend(h, today, a, b);
  }

  lemma {:induction false} ItemsOfAppend(h: Host, today: int, a: seq<Row>, b: seq<Row>)
    ensures ItemsOf(h, today, a + b) == ItemsOf(h, today, a) + ItemsOf(h, today, b)
  {
    if a == [] {
      assert a + b == b;
    } else {
      assert (a + b)[0] == a[0];
      assert (a + b)[1..] == a[1..] + b;
      ItemsOfAppend(h, today, a[1..], b);
    }
  }

  /** One row contributes its item when it qualifies and nothing
      otherwise. */
  lemma EarningsItemsOfRow(h: Host, today: int, r: Row)
    ensures EarningsItem(h, today, r).Some? ==> EarningsItems(h, today, [r]) == [EarningsItem(h, today, r).value]
    ensures EarningsItem(h, today, r).None? ==> EarningsItems(h, today, [r]) == []
  {
    assert [r][1..] == [];
    assert EarningsItems(h, today, [r]) == ItemsOf(h, today, [r]);
    assert ItemsOf(h, today, []) == [];
  }

  /** `section_upcoming_earnings` / `section_earn14`: the items in
      code-point order joined by ", ", or "—" when there are none. */
  function UpcomingEarnings(h: Host, today: int, rows: seq<Row>): (s: string)
    ensures s == "—" <==> EarningsItems(h, today, rows) == []
    ensures s != "—" ==>
      exists sorted :: (LexSorted(sorted) && multiset(sorted) == multiset(EarningsItems(h, today, rows))
                        && s == Join(", ", sorted))
  {
    var items := EarningsItems(h, today, rows);
    if items == [] then "—"
    else
      var sorted := LexSort(items);
      var s := Join(", ", sorted);
      assert sorted[0] in multiset(items);
      var r :| r in rows && EarningsItem(h, today, r) == Some(sorted[0]);
      assert StartsWith(s, sorted[0]);
      assert |sorted[0]| > 1;
      s
  }
}
