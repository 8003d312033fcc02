# Watchlist digest builder

A Dafny model of the part of the watchlist digest scripts that turns
snapshot tables into the plain-text "Watchlist Digest" report. Three
scripts build the report:

- `scripts/post_digest-owneronly.py`, the owner-only script;
- `scripts/post_digest_owner_pat.py`, the owner_pat script;
- `scripts/post_digest.py`, the standalone script.

Each one normalises the rows of a tab, looks fields up tolerantly under
several aliases, ranks buy candidates by bounce score with a stable sort,
lists the oversold and exit rows, summarises risk from the first risk
row, and filters earnings dates to a day window. The two owner scripts
also report how stale the snapshot is. The standalone script computes no
staleness; its `main` prints the snapshot time, read from the snapshot
path.

The two owner scripts differ only in small details. One model serves both,
parameterised by a `Variant`:

| module | what it models |
|---|---|
| `Fields` | `parse_rows` and `first_nonempty` / `first` |
| `Sections` | the five sections |
| `Staleness` | the staleness line |
| `Digest` | `build_digest` |

The standalone script has its own row handling, a case-insensitive `pick`,
and different section formats. It is modelled in module `PostDigest`.

Supporting modules:

| module | what it holds |
|---|---|
| `Text` | the `str` methods the scripts use |
| `Python` | decoded JSON values, `dict.get`, truthiness, `==` against literals, `str()` and `float()`, floor division, truncation, and datetimes as microsecond counts |
| `Sorting` | `list.sort(key=..., reverse=True)`, proved to be the unique stable descending order, and `sorted()` on strings |
| `Scenarios` | concrete instances worked through the model |

Inputs that come from outside the functions are parameters:

- the current instant, as UTC microseconds;
- the staleness threshold, carried by the `OwnerPat` variant;
- the manifest URL;
- the day window of `section_upcoming_er`.

Library routines whose exact output is not modelled are fields of a `Host`
record that every operation receives:

- `float()` of text;
- `str()` of floats and containers;
- `datetime.fromisoformat`;
- the two `strftime` renderings.

An exception that escapes a function is `Outcome.Raised`. Examples are a
truthy payload that is not a dict, or a row that is not a dict reaching
`pick`.

## Model

| member | source | states |
|---|---|---|
| `Python.Get` | scripts/post_digest-owneronly.py:129 | `d.get(k)` finds a value exactly when some entry has key `k`, and the value found is stored under `k` |
| `Python.FloorDiv` | scripts/post_digest-owneronly.py:263 | `//` by a positive divisor gives the largest quotient whose multiple does not exceed the dividend |
| `Python.Trunc` | scripts/post_digest.py:172 | `int()` of a float drops the fraction toward zero, on both sides of zero |
| `Text.Strip` | scripts/post_digest-owneronly.py:130 | `strip()` returns the slice left after removing whitespace margins; it is "" exactly when the text is all whitespace, and otherwise starts and ends with a non-space character |
| `Text.ReplaceZAppend` | scripts/post_digest_owner_pat.py:174 | `replace("Z", "+00:00")` works piece by piece: replacing in a concatenation concatenates the replaced pieces |
| `Fields.DictRows` | scripts/post_digest-owneronly.py:123 | a row is kept exactly when the list holds it as a dict |
| `Fields.DictRowsAppend` | scripts/post_digest-owneronly.py:123 | the filter commutes with concatenation, so kept rows stay in list order |
| `Fields.DictRowsKeepsAllDicts` | scripts/post_digest_owner_pat.py:88 | a list made only of dicts comes through whole and in order |
| `Fields.ParseRows` | scripts/post_digest-owneronly.py:118-124 | [] for a falsy payload, a missing "rows" or a falsy "rows"; the dict rows for a list; raising only on a truthy payload |
| `Fields.FirstNonempty` | scripts/post_digest-owneronly.py:127-132 | "" exactly when no alias holds a non-None, non-blank value; a non-empty result is never blank |
| `Fields.FirstNonemptyPicksFirstAlias` | scripts/post_digest_owner_pat.py:90-95 | the first alias that resolves decides, and its printed value is returned |
| `Fields.FirstNonemptyOnlyReadsAliases` | scripts/post_digest_owner_pat.py:90-95 | keys outside the alias list never affect the result |
| `Sorting.SortDesc` | scripts/post_digest-owneronly.py:174 | the sort gives a permutation whose keys never increase |
| `Sorting.SortDescStable` | scripts/post_digest-owneronly.py:174 | elements with equal keys keep their input order |
| `Sorting.EqualKeysKeepOrder` | scripts/post_digest_owner_pat.py:118 | two equal-key elements keep their relative positions |
| `Sorting.StableSortUnique` | scripts/post_digest-owneronly.py:174 | two descending orders that keep every key class are identical |
| `Sorting.SortDescIsTheStableSort` | scripts/post_digest-owneronly.py:174 | any descending, stable reordering equals the sort's result |
| `Sorting.SortDescKeepsDescending` | scripts/post_digest_owner_pat.py:118 | sorting an already descending list changes nothing, so sorting is idempotent |
| `Sorting.LargerKeyFirst` | scripts/post_digest-owneronly.py:174 | after the sort a strictly larger key sits further left |
| `Sorting.LexSort` | scripts/post_digest-owneronly.py:248 | `sorted()` on strings gives a code-point ordered permutation |
| `Sorting.LexLeTotal` | scripts/post_digest-owneronly.py:248 | string order is total |
| `Sorting.LexLeTransitive` | scripts/post_digest-owneronly.py:248 | string order is transitive |
| `Sorting.LexLeAntisymmetric` | scripts/post_digest-owneronly.py:248 | string order is antisymmetric |
| `Sections.TickerRows` | scripts/post_digest-owneronly.py:141-143 | a row is read by a section exactly when a Ticker or Symbol resolves |
| `Sections.TickerlessRowIgnored` | scripts/post_digest_owner_pat.py:101-102 | inserting a row without a ticker anywhere changes nothing |
| `Sections.ForTickerRows` | scripts/post_digest-owneronly.py:184-192 | a section loop yields one item per ticker row, in input order |
| `Sections.BounceScore` | scripts/post_digest-owneronly.py:144-148 | a score exists only when the key is present and `float()` accepts it; absent, None or "" give no score; a present value whose `str()` is not "" is read by `float()` (owner-only), and in owner_pat any value other than None and "" is read by `float()` |
| `Sections.TagsFrom` | scripts/post_digest-owneronly.py:150-168 | the tags from a given rank on are exactly those whose test passes, in strictly increasing rank |
| `Sections.Tags` | scripts/post_digest-owneronly.py:150-170 | a tag is present exactly when its test passes, in the fixed order Buy, RSI, %B, MACD, earnings |
| `Sections.TagsMeaning` | scripts/post_digest_owner_pat.py:105-115 | the Buy tag only in the owner-only script and only for a "buy…" recommendation; each other tag iff its RSI<45, %B≤0.05, MACD or EarningsSafe test holds |
| `Sections.OwnerPatMissingIndicatorsNoTag` | scripts/post_digest_owner_pat.py:106-111 | in owner_pat a row without RSI or %B gets neither tag, because the defaults "100" and "1" fail both tests |
| `Sections.Candidates` | scripts/post_digest-owneronly.py:139-171 | one candidate per ticker row, in input order |
| `Sections.Ranked` | scripts/post_digest-owneronly.py:174 | the candidates reordered so scores never increase; none lost or added |
| `Sections.UnscoredRankLast` | scripts/post_digest-owneronly.py:171-174 | every scored candidate ranks ahead of every unscored one |
| `Sections.RankedIsStable` | scripts/post_digest_owner_pat.py:117-118 | equal scores keep input order, and the ranking is the only such order |
| `Sections.TopLines` | scripts/post_digest-owneronly.py:176-178 | one line for each of the first eight ranked candidates |
| `Sections.OwnerOnlyCut` | scripts/post_digest-owneronly.py:179 | the final slice keeps a prefix of at most eight lines, and changes nothing when at most eight lines come in, as they always do |
| `Sections.BuyLines` | scripts/post_digest-owneronly.py:137-179 | min(8, ticker rows) lines in ranked order; the owner_pat script gives exactly the placeholder when no row survives |
| `Sections.FewRowsAllListed` | scripts/post_digest-owneronly.py:176-179 | with one to eight ticker rows every candidate is listed |
| `Sections.BuyIgnoresTickerlessRows` | scripts/post_digest_owner_pat.py:98-119 | a row without a ticker leaves the buy section unchanged |
| `Sections.OversoldLine` | scripts/post_digest-owneronly.py:188-191 | without missing signals the line is the bare ticker; with them it is "ticker — missing M", followed by "; next N" exactly when a next-check alias resolves |
| `Sections.OversoldOut` | scripts/post_digest-owneronly.py:182-193 | one line per ticker row, in input order, uncapped |
| `Sections.OversoldLines` | scripts/post_digest_owner_pat.py:121-129 | the same lines in both scripts; owner_pat gives exactly the placeholder when there are none |
| `Sections.ExitLine` | scripts/post_digest-owneronly.py:202-203 | the line is "   ticker" alone when no reason alias resolves, and exactly "   ticker — why" when one does |
| `Sections.ExitOut` | scripts/post_digest-owneronly.py:196-204 | one line per ticker row, in input order |
| `Sections.ExitLines` | scripts/post_digest_owner_pat.py:131-138 | the same lines in both scripts; owner_pat gives exactly the placeholder when there are none |
| `Sections.FlagAt` | scripts/post_digest-owneronly.py:213-221 | the flag of each rank is produced exactly when its alias group resolves, and carries exactly the resolved text (upper-cased kill switch in the owner-only script) |
| `Sections.FlagsFrom` | scripts/post_digest-owneronly.py:212-221 | exactly the flags whose alias group resolves, in strictly increasing rank |
| `Sections.RiskFlags` | scripts/post_digest-owneronly.py:211-221 | KillSwitch, DD and Quotas flags each present iff its aliases resolve, always in that order, and no flag other than these three resolved ones ever appears |
| `Sections.FlagsAreResolved` | scripts/post_digest_owner_pat.py:143-150 | a flag that its rank resolves to is the kill-switch, drawdown or quota flag carrying the resolved text |
| `Sections.RiskQuota` | scripts/post_digest-owneronly.py:207-222 | the bootstrap line exactly when the table is empty or row 0 resolves no flag; otherwise the flags joined |
| `Sections.RiskReadsOnlyFirstRow` | scripts/post_digest_owner_pat.py:140-150 | rows after the first never change the risk text |
| `Sections.EarningsItem` | scripts/post_digest-owneronly.py:228-247 | an item "T (Nd)" exists iff the row has a ticker, its date parses, and N is in [0, 14] |
| `Sections.EarningsItems` | scripts/post_digest_owner_pat.py:155-166 | at most one item per row, and the items are exactly those some row produces |
| `Sections.EarningsItemsAppend` | scripts/post_digest_owner_pat.py:155-166 | the items of concatenated row lists are concatenated, so items keep row order and duplicates stay |
| `Sections.EarningsItemsOfRow` | scripts/post_digest_owner_pat.py:165 | one row gives its item when it qualifies and nothing otherwise |
| `Sections.UpcomingEarnings` | scripts/post_digest-owneronly.py:248 | "—" exactly when there are no items; otherwise a code-point-sorted permutation of them joined by ", " |
| `Staleness.TimestampValue` | scripts/post_digest-owneronly.py:255 | "snapshot_iso" wins when truthy, then "timestamp"; falsy only when both are |
| `Staleness.MinutesSince` | scripts/post_digest-owneronly.py:262-263 | the whole minutes elapsed, rounded down |
| `Staleness.StaleIffElapsed` | scripts/post_digest-owneronly.py:264 | the stale test holds iff at least threshold + 1 whole minutes have elapsed |
| `Staleness.Assess` | scripts/post_digest-owneronly.py:251-267 | "manifest missing" exactly for a falsy manifest; "timestamp missing" exactly when neither key is truthy; a truthy string timestamp that parses gives a snapshot with floored minutes and stale iff minutes > threshold; "unreadable", with the raw value, exactly when a truthy timestamp does not parse; raises only for a truthy non-dict manifest |
| `Staleness.SnapshotTextFlagsStale` | scripts/post_digest_owner_pat.py:177 | the snapshot line names the timestamp and ends in "(STALE!)" exactly when stale |
| `Staleness.StaleFlagIffOverThreshold` | scripts/post_digest_owner_pat.py:171-177 | for a readable timestamp the line starts "Snapshot <iso> — " and ends in "(STALE!)" exactly when the elapsed whole minutes exceed the threshold |
| `Staleness.ManifestStaleness` | scripts/post_digest_owner_pat.py:169-178 | "Manifest missing at <url>" for a falsy manifest; "Manifest timestamp missing" when neither key is truthy; raises only for a truthy non-dict manifest; otherwise the text of the assessed report |
| `Digest.Block` | scripts/post_digest-owneronly.py:282-288 | an empty section shows the placeholder; otherwise its lines joined by newlines, which is also what owner_pat's unconditional join gives (scripts/post_digest_owner_pat.py:190-192), since its sections are never empty |
| `Digest.DigestText` | scripts/post_digest-owneronly.py:295-303 | the report is the title, then the five headings each followed by its own section in order (risk and earnings indented), then the staleness line; it ends with a newline |
| `Digest.ParseTabs` | scripts/post_digest-owneronly.py:273-277 | every tab is parsed in order; the digest raises iff some tab's payload raises |
| `Digest.Render` | scripts/post_digest-owneronly.py:280-303 | the buy, oversold, exit, risk and earnings sections are computed from tabs 0 to 4 respectively and placed under their headings |
| `Digest.BuildDigest` | scripts/post_digest-owneronly.py:272-304 | raises exactly when a tab payload raises or the manifest is truthy but not a dict; otherwise the report is well framed |
| `Digest.BuildDigestRoutesTabs` | scripts/post_digest_owner_pat.py:180-196 | each tab goes to its own section: EntryWatchlist to buy, OversoldTracker to oversold, ExitMonitor to exits, RiskMonitor to risk, EarningsMonitor to earnings, and the manifest to the staleness line |
| `Digest.NoTabs` | scripts/post_digest_owner_pat.py:181-185 | with no data every tab parses to no rows |
| `Digest.EmptySections` | scripts/post_digest-owneronly.py:281-291 | every section of an empty table shows its empty form |
| `Digest.EmptyRender` | scripts/post_digest-owneronly.py:295-303 | empty tables render every section in its empty form |
| `Digest.EmptyDigest` | scripts/post_digest_owner_pat.py:180-196 | with no data the digest shows every empty form and names the manifest URL |
| `Digest.ListBlocksAgree` | scripts/post_digest_owner_pat.py:121-138 | the oversold and exit blocks are identical in both scripts |
| `Digest.RiskNeverEmpty` | scripts/post_digest-owneronly.py:290 | the `or` fallback after the risk section never fires |
| `PostDigest.MapAll` | scripts/post_digest.py:110-115 | a loop over rows raises iff some row's step raises, and otherwise gives each row's result in order |
| `PostDigest.Somes` | scripts/post_digest.py:148-153 | the lines kept are exactly the present ones |
| `PostDigest.SomesAppend` | scripts/post_digest.py:148-153 | the kept lines stay in input order |
| `PostDigest.LinesFromFound` | scripts/post_digest.py:154 | the section is empty exactly when no row produced a line |
| `PostDigest.LinesFound` | scripts/post_digest.py:187-191 | no item survives exactly when every row gave none |
| `PostDigest.ParseDt` | scripts/post_digest.py:20-28 | non-strings and "" give None; text ending in "Z" has every "Z" rewritten to "+00:00" before parsing; any other text is parsed unchanged |
| `PostDigest.ParseDtUtcSuffix` | scripts/post_digest.py:24-25 | a lone trailing "Z" is read as the offset "+00:00" |
| `PostDigest.DaysUntil` | scripts/post_digest.py:30-35 | None maps to None; otherwise whole days from ref, rounded down, with a naive datetime read as UTC |
| `PostDigest.FirstPathValue` | scripts/post_digest.py:43-45 | the first snapshot path in manifest order, or None when there is none |
| `PostDigest.PathUnder` | scripts/post_digest.py:39-42 | the value under the first preferred key that holds a snapshot path |
| `PostDigest.PickTimestampPath` | scripts/post_digest.py:38-46 | a result always starts with "snapshots/"; None exactly when no manifest value is a snapshot path |
| `PostDigest.PathUnderFirst` | scripts/post_digest.py:39-42 | the first qualifying preferred key decides |
| `PostDigest.PathKeyPreferred` | scripts/post_digest.py:39-42 | timestampPath, latestPath and path win in that order, wherever they sit in the manifest |
| `PostDigest.FirstPathWhenNoKeyQualifies` | scripts/post_digest.py:43-46 | failing the preferred keys, the first snapshot path in manifest order is taken |
| `PostDigest.ToRows` | scripts/post_digest.py:81-88 | [] for a falsy payload; the "rows" list unfiltered; [] for non-list "rows"; raises for every truthy non-dict payload |
| `PostDigest.ToRowsIntended` | scripts/post_digest.py:81-88 | the list test comes first, so a flat list is the table itself; a truthy payload that is neither a dict nor a list still raises; a dict gives its "rows" list, or [] when "rows" is not a list; a falsy payload gives [] |
| `PostDigest.ToRowsAgreesWhenItReturns` | scripts/post_digest.py:81-88 | the code and the corrected reading agree wherever the code returns |
| `PostDigest.ToRowsDiffersOnlyOnFlatLists` | scripts/post_digest.py:84-87 | the corrected reading differs from the code exactly on a non-empty flat list; on every other payload, scalars included, both give the same outcome |
| `PostDigest.FlatArrayRaises` | scripts/post_digest.py:84-87 | a flat array of rows raises as written and is returned by the corrected reading |
| `PostDigest.FoldedKey` | scripts/post_digest.py:92 | the lower-case map sends a folded key to the last row key that folds to it |
| `PostDigest.PickIn` | scripts/post_digest.py:93-97 | the result is a stored value or the default; the default when no candidate matches even up to case; an exact first candidate wins |
| `PostDigest.PickFirstMatch` | scripts/post_digest.py:93-94 | unmatched candidates are skipped and the first exact match decides |
| `PostDigest.CaseInsensitiveMatch` | scripts/post_digest.py:95-96 | without an exact key, a case-insensitive match reads the last such key |
| `PostDigest.Pick` | scripts/post_digest.py:90-97 | the default for a falsy row; raises exactly for a truthy non-dict row; otherwise a stored value or the default |
| `PostDigest.Field` | scripts/post_digest.py:125 | a second `pick` on a row already read cannot raise |
| `PostDigest.Num` | scripts/post_digest.py:99-104 | None for None and ""; every other value gives what `float()` gives, or None where it raises; ints and floats read as themselves |
| `PostDigest.LowerOrEmpty` | scripts/post_digest.py:114 | "" for a falsy value, the lower-cased text for a string; raises exactly for a truthy non-string |
| `PostDigest.RecOf` | scripts/post_digest.py:114 | a falsy row gives ""; raises exactly when the pick or the lower-casing raises, and otherwise is the lower-cased picked value |
| `PostDigest.SectionText` | scripts/post_digest.py:130 | "• —" for no lines; otherwise the lines joined by newlines, starting with the first; with long lines the marker shows exactly when there are none |
| `PostDigest.ScoreRow` | scripts/post_digest.py:110-115 | raises exactly when reading the recommendation raises; keeps the row, the picked ticker ("?" by default) and the recommendation; the score is the parsed number when `num` gives one, else the sentinel −1e9 |
| `PostDigest.ActionableOnly` | scripts/post_digest.py:118 | exactly the entries whose recommendation mentions "buy" or "watch" |
| `PostDigest.ActionableOnlyAppend` | scripts/post_digest.py:118 | the filter commutes with concatenation, so kept entries stay in ranked order |
| `PostDigest.Choose` | scripts/post_digest.py:117-120 | the first eight actionable entries when at least three qualify, else the first min(8, n) ranked entries (at least min(3, n) entries) |
| `PostDigest.JoinTags` | scripts/post_digest.py:126 | raises exactly when some item is not a string; otherwise the texts joined by ", " |
| `PostDigest.Texts` | scripts/post_digest.py:126 | the texts of a list of strings, one per item, in order |
| `PostDigest.TagOut` | scripts/post_digest.py:125-128 | falsy tags give ""; a string, or a list joined by ", ", gives " (stripped)" unless blank; raises exactly for a list with a non-string item or a truthy tag value that is neither a string nor a list |
| `PostDigest.BuyLine` | scripts/post_digest.py:122-129 | the line is "• ticker", the tag part, then " — Entry: zone" ("—" by default); raises exactly for a truthy non-dict row or tags that raise |
| `PostDigest.ScoreAll` | scripts/post_digest.py:110-115 | scoring raises iff some row raises; otherwise one entry per row, in input order |
| `PostDigest.BuyLinesOf` | scripts/post_digest.py:121-129 | one line per chosen entry, in order; raises iff some line raises |
| `PostDigest.SectionBuyCandidates` | scripts/post_digest.py:107-130 | raises exactly when scoring or a chosen line raises; otherwise the lines of the entries chosen from the stable descending ranking, joined; "• —" exactly when there are no rows |
| `PostDigest.BuySectionFromParts` | scripts/post_digest.py:107-130 | given each row's entry and each chosen entry's line, the section is those lines joined |
| `PostDigest.BuyRankingStable` | scripts/post_digest.py:116 | equal scores keep input order, and the ranking is the only such order |
| `PostDigest.ExitRow` | scripts/post_digest.py:149-153 | a line exactly when the lower-cased recommendation mentions exit, trim or sell; the line is "• ticker — why" with "?" and "—" as defaults; raises exactly when the recommendation lookup raises |
| `PostDigest.ExitFound` | scripts/post_digest.py:148-153 | the rows' outcomes in order; raises iff some row raises |
| `PostDigest.SectionExits` | scripts/post_digest.py:146-154 | raises iff some row raises; otherwise the qualifying rows' lines in input order, joined; "• —" exactly when no row qualifies |
| `PostDigest.ExitSectionFromRows` | scripts/post_digest.py:146-154 | given each row's outcome, the section is the present lines joined |
| `PostDigest.SectorCap` | scripts/post_digest.py:168-176 | raises exactly for a truthy non-dict row; an entry exactly when the name is truthy, the count is not None and `float()` accepts it; the entry is "name:n", with " (full)" exactly when the truncated count n is at least 3 |
| `PostDigest.SectorCaps` | scripts/post_digest.py:167-176 | the sector rows' outcomes in order; raises iff some row raises |
| `PostDigest.KillSwitchText` | scripts/post_digest.py:163 | "KillSwitch: —" when no value is found, otherwise "KillSwitch: " followed by the value's `str()` |
| `PostDigest.SectorsText` | scripts/post_digest.py:177 | empty exactly when no sector qualified; otherwise the "Sectors: " label, after a bar separator, and the entries joined by ", " |
| `PostDigest.RiskHead` | scripts/post_digest.py:158-164 | "KillSwitch: —" with no risk rows; otherwise the kill-switch text, followed by the "10D DD: <dd>" part, after a bar separator, exactly when a drawdown value is present; raises iff row 0 is truthy and not a dict |
| `PostDigest.SectionRiskQuota` | scripts/post_digest.py:156-178 | raises iff row 0 or some sector row is truthy and not a dict; otherwise the kill-switch and drawdown head followed by the sectors part of the qualifying sector rows, in order |
| `PostDigest.RiskSectionFromParts` | scripts/post_digest.py:156-178 | given the head and each sector row's outcome, the section is the head followed by the sectors part |
| `PostDigest.ErRow` | scripts/post_digest.py:184-189 | a line exactly when the picked date parses and lies 0 to `days` days ahead, inclusive at both ends; the line is "• ticker — <New York month and day> (Nd)"; raises exactly for a truthy non-dict row |
| `PostDigest.ErFound` | scripts/post_digest.py:183-189 | the rows' outcomes in order; raises iff some row raises |
| `PostDigest.SortByDays` | scripts/post_digest.py:190 | the items sorted by ascending day count, none lost or added |
| `PostDigest.ErText` | scripts/post_digest.py:190-191 | the item lines in ascending day order, joined; with long lines the "• —" marker shows exactly when no item was found |
| `PostDigest.DayLines` | scripts/post_digest.py:191 | the text of each item, in order |
| `PostDigest.SortByDaysStable` | scripts/post_digest.py:190 | items due on the same day keep their input order |
| `PostDigest.SectionUpcomingEr` | scripts/post_digest.py:180-191 | raises iff some row is truthy and not a dict; otherwise the in-window items sorted by day and joined; "• —" exactly when no row falls inside the window |
| `PostDigest.ErItemsFound` | scripts/post_digest.py:187-191 | every found line is longer than the empty marker, and none is found exactly when no row is in the window |
| `PostDigest.ErSectionFromRows` | scripts/post_digest.py:180-191 | given each row's outcome, the section is the present items sorted by day and joined |
| `PostDigest.TabSections` | scripts/post_digest.py:196-226 | the six tabs `main` reads are turned into rows in order with the corrected `to_rows`, and any truthy scalar tab raises; otherwise the buy, exit, risk and earnings sections get their own tabs' rows, in that order, and the run raises exactly when some section raises |
| `PostDigest.NoRowsSections` | scripts/post_digest.py:222-226 | tabs that yield no rows give "• —", "• —", "KillSwitch: —", "• —" |
| `PostDigest.EmptyTabs` | scripts/post_digest.py:196-226 | missing or falsy tabs give every section its empty form |
| `Scenarios.MixedScoresOrder` | scripts/post_digest-owneronly.py:171-174 | scores 5, unscored, 8, unscored rank as 8, 5, then the two unscored rows in input order |
| `Scenarios.TwoRowBuySection` | scripts/post_digest-owneronly.py:137-179 | in both owner scripts, a row scored 8 with RSI 40 and a row scored 3 give "   AAA (RSI<45)" then "   BBB (watch)" |
| `Scenarios.EarningsWindowEdges` | scripts/post_digest-owneronly.py:243-245 | day 0 and day 14 are inside the window; day 15 and day −1 are outside |
| `Scenarios.NinetyMinutesOld` | scripts/post_digest-owneronly.py:264 | a snapshot exactly 90 minutes old is not stale at threshold 90 or 120, but is stale at threshold 60 |
| `Scenarios.DaysUntilEdges` | scripts/post_digest.py:35 | the floor gives 0, 14, 15 and −1 at the window's edges |

## Left out

- Network and publishing are not modelled because they are I/O. This covers HTTP fetches, the GitHub issue and comment calls, posting to an OpenAI thread, `url_for_tab` and `url_for_monthly_manifest`.
- Every `main` is left out, including the snapshot-path splitting in `scripts/post_digest.py` (lines 204-219), which is interleaved with fetches. The one exception is the section calls of `scripts/post_digest.py`, which `PostDigest.TabSections` models.
- Module globals become parameters: the clock (`NOW_UTC`, `now_et`), the `STALE_MINUTES` environment value, repository settings and the manifest URL.
- `section_oversold_not_ready` of `scripts/post_digest.py` (lines 132-144) and `month_slug` are not modelled. They need New York time-zone formatting of parsed datetimes.
- `PostDigest.TabSections`: runs four of the five sections of `main`. It reads the OversoldTracker tab, so a payload there can raise, but the oversold section and the header are left out, as above. It reads the tabs with the corrected `ToRowsIntended`, so on a non-empty flat-array tab it returns sections where the code at scripts/post_digest.py:197-202 raises (see Findings). On every other payload, a truthy scalar included, it raises exactly where the code does.
- Library routines are abstract `Host` functions: `datetime.fromisoformat`, `float()` of text, `str()` of floats, lists and dicts, and both `strftime` renderings, including the New York conversion.
- Numbers are exact reals. There is no NaN or infinity, no rounding at the 45 / 0.05 boundaries, and no overflow in `int(float(...))`.
- `total_seconds()` and the division by 86400 are modelled as exact microsecond arithmetic, without float rounding.
- `lower()` and `upper()` map ASCII letters only.
- Decoded JSON keeps one entry per key. `Get` takes the first entry, which is the same thing for such input.
- `Scenarios.TwoRowBuySection`: for owner_pat it assumes the host parses "100" and "1" as the numbers they write, since `float()` of text is abstract.

## Findings

| source | as written | input that shows it | evidently intended | confidence | as-written member | corrected member |
|---|---|---|---|---|---|---|
| scripts/post_digest.py:84-87 | `tab_json.get("rows")` runs before the `isinstance(tab_json, list)` fallback, so a flat array raises AttributeError and the fallback is unreachable | a flat JSON array of row dicts, e.g. `[{"Ticker": "AAA"}]` | return the flat array as the table, as the comment on line 86 says | not executed | `PostDigest.ToRows`, shown by `PostDigest.FlatArrayRaises` | `PostDigest.ToRowsIntended`, which agrees with the code wherever the code returns (`PostDigest.ToRowsAgreesWhenItReturns`) and which `PostDigest.TabSections` uses |
