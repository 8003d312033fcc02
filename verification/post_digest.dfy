/** The standalone digest script (`scripts/post_digest.py`): its own
    tolerant lookup (`pick`, case-insensitive), number parsing, snapshot
    path selection, day counting, and four of its five sections. Rows
    come through unfiltered, so a row may be any value; a truthy row
    that is not a dict makes `pick` raise, and the script stops. */
module PostDigest {
  import opened Text
  import opened Python
  import opened Sorting

  const MaxChosen: nat := 8
  const MinChosen: nat := 3
  const EmptySection: string := "• —"

  // ----- running a step over a list -----

  /** A step applied to every element in order; the first element whose
      step raises stops the whole run. */
  function MapAll<A, B>(xs: seq<A>, f: A -> Outcome<B>): (r: Outcome<seq<B>>)
    ensures r.Raised? <==> exists i :: 0 <= i < |xs| && f(xs[i]).Raised?
    ensures r.Done? ==> |r.value| == |xs|
    ensures r.Done? ==> forall i :: 0 <= i < |xs| ==> f(xs[i]) == Done(r.value[i])
  {
    if xs == [] then Done([])
    else
      var y :- f(xs[0]);
      var ys :- MapAll(xs[1..], f);
      assert forall i :: 1 <= i < |xs| ==> xs[i] == xs[1..][i - 1];
      Done([y] + ys)
  }

  /** The present entries, in order. */
  function Somes<T(!new)>(xs: seq<Option<T>>): (r: seq<T>)
    ensures |r| <= |xs|
    ensures forall x :: x in r <==> Some(x) in xs
  {
    if xs == [] then []
    else
      assert xs == [xs[0]] + xs[1..];
      (if xs[0].Some? then [xs[0].value] else []) + Somes(xs[1..])
  }

  lemma {:induction false} SomesAppend<T(!new)>(a: seq<Option<T>>, b: seq<Option<T>>)
    ensures Somes(a + b) == Somes(a) + Somes(b)
  {
    if a == [] {
      assert a + b == b;
    } else {
      assert (a + b)[1..] == a[1..] + b;
      SomesAppend(a[1..], b);
    }
  }

  /** No present entries exactly when every entry is absent. */
  lemma LinesFound<T(!new)>(found: seq<Option<T>>)
    ensures Somes(found) == [] <==> forall i :: 0 <= i < |found| ==> found[i].None?
  {
    forall i | 0 <= i < |found| && found[i].Some? ensures Somes(found) != [] {
      assert Some(found[i].value) in found;
    }
  }

  /** The present entries of a list of optional lines: none at all
      exactly when every entry is absent, and each one long when every
      present entry is. */
  lemma LinesFromFound(found: seq<Option<string>>)
    ensures Somes(found) == [] <==> forall i :: 0 <= i < |found| ==> found[i].None?
    ensures (forall i :: 0 <= i < |found| && found[i].Some? ==> |found[i].value| > |EmptySection|)
            ==> forall i :: 0 <= i < |Somes(found)| ==> |Somes(found)[i]| > |EmptySection|
  {
    var lines := Somes(found);
    forall i | 0 <= i < |found| && found[i].Some? ensures lines != [] {
      assert Some(found[i].value) in found;
    }
    forall i | 0 <= i < |lines| ensures exists k :: 0 <= k < |found| && found[k] == Some(lines[i]) {
      assert Some(lines[i]) in found;
    }
  }

  // ----- time -----

  /** `parse_dt(s)`: only a non-empty str is parsed; text ending in "Z"
      has every "Z" rewritten to "+00:00" first (as `str.replace`
      does), any other text is parsed unchanged. */
  function ParseDt(h: Host, v: Value): (d: Option<DateTime>)
    ensures !v.Str? || v.s == [] ==> d == None
    ensures v.Str? && v.s != [] && !EndsWith(v.s, "Z") ==> d == h.fromIso(v.s)
    ensures v.Str? && EndsWith(v.s, "Z") ==> d == h.fromIso(ReplaceZ(v.s))
  {
    match v
    case Str(s) =>
      if s == [] then None
      else if EndsWith(s, "Z") then h.fromIso(ReplaceZ(s))
      else h.fromIso(s)
    case _ => None
  }

  /** A UTC time written with a trailing "Z" is read as the same time
      written with "+00:00". */
  lemma ParseDtUtcSuffix(h: Host, s: string)
    requires 'Z' !in s
    ensures ParseDt(h, Str(s + "Z")) == h.fromIso(s + "+00:00")
  {
    ReplaceZAppend(s, "Z");
    assert "Z"[1..] == "";
    assert ReplaceZ("Z") == "+00:00";
    assert ReplaceZ(s + "Z") == s + "+00:00";
    assert (s + "Z")[|s + "Z"| - 1..] == "Z";
  }

  /** `days_until(dt, ref)`: whole days from `ref` (UTC microseconds) to
      `dt`, rounded down; a naive `dt` is read as UTC. */
  function DaysUntil(dt: Option<DateTime>, ref: int): (n: Option<int>)
    ensures n.Some? <==> dt.Some?
    ensures dt.Some? ==> n.value * MicrosPerDay <= UtcMicros(dt.value) - ref < (n.value + 1) * MicrosPerDay
  {
    match dt
    case None => None
    case Some(d) => Some(FloorDiv(UtcMicros(d) - ref, MicrosPerDay))
  }

  // ----- manifest -----

  predicate IsSnapshotPath(v: Value) {
    v.Str? && StartsWith(v.s, "snapshots/")
  }

  const PathKeys: seq<string> := ["timestampPath", "latestPath", "path"]

  /** The first value of the manifest, in manifest order, that is a
      snapshot path. */
  function FirstPathValue(m: Row): (r: Option<string>)
    ensures r.None? <==> forall i :: 0 <= i < |m| ==> !IsSnapshotPath(m[i].1)
    ensures r.Some? ==> exists i :: 0 <= i < |m| && m[i].1 == Str(r.value) && IsSnapshotPath(m[i].1)
                                     && forall j :: 0 <= j < i ==> !IsSnapshotPath(m[j].1)
  {
    if m == [] then None
    else if IsSnapshotPath(m[0].1) then Some(m[0].1.s)
    else
      var r := FirstPathValue(m[1..]);
      assert forall i :: 1 <= i < |m| ==> m[i] == m[1..][i - 1];
      if r.Some? then
        var i :| 0 <= i < |m| - 1 && m[1..][i].1 == Str(r.value) && IsSnapshotPath(m[1..][i].1)
                 && forall j :: 0 <= j < i ==> !IsSnapshotPath(m[1..][j].1);
        assert m[i + 1].1 == Str(r.value);
        r
      else r
  }

  /** The value under the first of `keys` that holds a snapshot path. */
  function PathUnder(m: Row, keys: seq<string>): (r: Option<string>)
    ensures r.Some? ==> exists j :: 0 <= j < |keys| && GetOr(m, keys[j], Null) == Str(r.value)
                                     && IsSnapshotPath(GetOr(m, keys[j], Null))
    ensures r.None? <==> forall j :: 0 <= j < |keys| ==> !IsSnapshotPath(GetOr(m, keys[j], Null))
  {
    if keys == [] then None
    else
      var v := GetOr(m, keys[0], Null);
      if IsSnapshotPath(v) then Some(v.s)
      else
        var r := PathUnder(m, keys[1..]);
        assert forall j :: 1 <= j < |keys| ==> keys[j] == keys[1..][j - 1];
        r
  }

  /** `_pick_timestamp_path(manifest)`: a snapshot path under
      timestampPath, latestPath or path (in that order), else the first
      one anywhere in the manifest, else None. */
  function PickTimestampPath(m: Row): (r: Option<string>)
    ensures r.Some? ==> StartsWith(r.value, "snapshots/")
    ensures r.None? <==> forall i :: 0 <= i < |m| ==> !IsSnapshotPath(m[i].1)
  {
    match PathUnder(m, PathKeys)
    case Some(p) =>
      var j :| 0 <= j < |PathKeys| && GetOr(m, PathKeys[j], Null) == Str(p)
               && IsSnapshotPath(GetOr(m, PathKeys[j], Null));
      assert (PathKeys[j], Str(p)) in m;
      Some(p)
    case None => FirstPathValue(m)
  }

  lemma {:induction false} PathUnderFirst(m: Row, keys: seq<string>, j: nat)
    requires j < |keys| && IsSnapshotPath(GetOr(m, keys[j], Null))
    requires forall k :: 0 <= k < j ==> !IsSnapshotPath(GetOr(m, keys[k], Null))
    ensures PathUnder(m, keys) == Some(GetOr(m, keys[j], Null).s)
  {
    if j > 0 {
      assert !IsSnapshotPath(GetOr(m, keys[0], Null));
      PathUnderFirst(m, keys[1..], j - 1);
    }
  }

  /** The preferred keys win in their fixed order, whatever their
      position in the manifest. */
  lemma PathKeyPreferred(m: Row, j: nat)
    requires j < |PathKeys| && IsSnapshotPath(GetOr(m, PathKeys[j], Null))
    requires forall k :: 0 <= k < j ==> !IsSnapshotPath(GetOr(m, PathKeys[k], Null))
    ensures PickTimestampPath(m) == Some(GetOr(m, PathKeys[j], Null).s)
  {
    PathUnderFirst(m, PathKeys, j);
  }

  /** Failing the preferred keys, the first snapshot path in manifest
      order is taken. */
  lemma FirstPathWhenNoKeyQualifies(m: Row, i: nat)
    requires forall k :: 0 <= k < |PathKeys| ==> !IsSnapshotPath(GetOr(m, PathKeys[k], Null))
    requires i < |m| && IsSnapshotPath(m[i].1)
    requires forall j :: 0 <= j < i ==> !IsSnapshotPath(m[j].1)
    ensures PickTimestampPath(m) == Some(m[i].1.s)
  {
    var r := FirstPathValue(m);
    var k :| 0 <= k < |m| && m[k].1 == Str(r.value) && IsSnapshotPath(m[k].1)
             && forall j :: 0 <= j < k ==> !IsSnapshotPath(m[j].1);
    assert k == i;
  }

  // ----- rows -----

  /** `to_rows(tab_json)` as written: `tab_json.get("rows")` runs before
      the list fallback, so every truthy payload that is not a dict
      (a flat list of rows included) raises AttributeError, and the
      fallback can never be reached. A "rows" list comes back unfiltered. */
  function ToRows(tab: Value): (r: Outcome<seq<Value>>)
    ensures !Truthy(tab) ==> r == Done([])
    ensures r.Raised? <==> Truthy(tab) && !tab.Dict?
    ensures tab.Dict? && GetOr(tab.entries, "rows", Null).List?
            ==> r == Done(GetOr(tab.entries, "rows", Null).items)
    ensures tab.Dict? && !GetOr(tab.entries, "rows", Null).List? ==> r == Done([])
  {
    if !Truthy(tab) then Done([])
    else match tab
      case Dict(es) =>
        var rows := GetOr(es, "rows", Null);
        if rows.List? then Done(rows.items) else Done([])
      case _ => Raised
  }

  /** A payload no reading of `to_rows` can take apart: truthy, but
      neither a dict nor a list, so `.get` raises AttributeError. */
  predicate ScalarTab(tab: Value) {
    Truthy(tab) && !tab.Dict? && !tab.List?
  }

  /** `to_rows` as its comment says it should behave: the list test
      comes first, so a flat list of rows is the table itself. Any other
      truthy payload that is not a dict still reaches `.get` and
      raises. */
  function ToRowsIntended(tab: Value): (r: Outcome<seq<Value>>)
    ensures r.Raised? <==> ScalarTab(tab)
    ensures !Truthy(tab) ==> r == Done([])
    ensures tab.List? ==> r == Done(tab.items)
    ensures tab.Dict? && GetOr(tab.entries, "rows", Null).List?
            ==> r == Done(GetOr(tab.entries, "rows", Null).items)
    ensures tab.Dict? && !GetOr(tab.entries, "rows", Null).List? ==> r == Done([])
  {
    if !Truthy(tab) then Done([])
    else match tab
      case Dict(es) =>
        var rows := GetOr(es, "rows", Null);
        if rows.List? then Done(rows.items) else Done([])
      case List(xs) => Done(xs)
      case _ => Raised
  }

  /** The two agree on every payload the script does not crash on. */
  lemma ToRowsAgreesWhenItReturns(tab: Value)
    requires ToRows(tab).Done?
    ensures ToRowsIntended(tab) == ToRows(tab)
  {
  }

  /** The correction changes exactly one case: a non-empty flat list. */
  lemma ToRowsDiffersOnlyOnFlatLists(tab: Value)
    ensures ToRowsIntended(tab) != ToRows(tab) <==> Truthy(tab) && tab.List?
  {
  }

  /** A flat array of rows: the intended reading returns it, the code as
      written raises. */
  lemma FlatArrayRaises()
    ensures ToRows(List([Dict([("Ticker", Str("AAA"))])])) == Raised
    ensures ToRowsIntended(List([Dict([("Ticker", Str("AAA"))])])) == Done([Dict([("Ticker", Str("AAA"))])])
  {
  }

  // ----- pick and num -----

  /** The key `{k.lower(): k for k in row}` maps `lc` to: the last key,
      in row order, whose lower-case form is `lc`. */
  function FoldedKey(es: Row, lc: string): (r: Option<string>)
    ensures r.None? <==> forall i :: 0 <= i < |es| ==> Lower(es[i].0) != lc
    ensures r.Some? ==> exists i :: 0 <= i < |es| && es[i].0 == r.value && Lower(r.value) == lc
                                     && forall j :: i < j < |es| ==> Lower(es[j].0) != lc
  {
    if es == [] then None
    else
      var later := FoldedKey(es[1..], lc);
      assert forall i :: 1 <= i < |es| ==> es[i] == es[1..][i - 1];
      if later.Some? then
        var i :| 0 <= i < |es| - 1 && es[1..][i].0 == later.value && Lower(later.value) == lc
                 && forall j :: i < j < |es| - 1 ==> Lower(es[1..][j].0) != lc;
        assert es[i + 1].0 == later.value;
        later
      else if Lower(es[0].0) == lc then Some(es[0].0)
      else None
  }

  /** Some key of the row equals `c` up to ASCII case. */
  predicate FoldMatches(es: Row, c: string) {
    exists i :: 0 <= i < |es| && Lower(es[i].0) == Lower(c)
  }

  /** `pick` on a dict row: for each candidate in turn, an exact key
      first, then a key equal up to case; the default when no candidate
      matches. The value is returned as it is, blank or None. */
  function PickIn(es: Row, cands: seq<string>, default: Value): (r: Value)
    ensures r == default || exists i :: 0 <= i < |es| && es[i].1 == r
    ensures (forall j :: 0 <= j < |cands| ==> !FoldMatches(es, cands[j])) ==> r == default
    ensures cands != [] && HasKey(es, cands[0]) ==> r == Get(es, cands[0]).value
  {
    if cands == [] then default
    else if HasKey(es, cands[0]) then Get(es, cands[0]).value
    else match FoldedKey(es, Lower(cands[0]))
      case Some(k) =>
        assert HasKey(es, k);
        Get(es, k).value
      case None =>
        var r := PickIn(es, cands[1..], default);
        assert forall j :: 1 <= j < |cands| ==> cands[j] == cands[1..][j - 1];
        r
  }

  /** Candidates that match no key are skipped; the first one that
      matches exactly decides. */
  lemma {:induction false} PickFirstMatch(es: Row, cands: seq<string>, default: Value, j: nat)
    requires j < |cands| && HasKey(es, cands[j])
    requires forall k :: 0 <= k < j ==> !FoldMatches(es, cands[k])
    ensures PickIn(es, cands, default) == Get(es, cands[j]).value
  {
    if j > 0 {
      assert !FoldMatches(es, cands[0]);
      assert !HasKey(es, cands[0]);
      PickFirstMatch(es, cands[1..], default, j - 1);
    }
  }

  /** A candidate that matches only up to case reads the last such key. */
  lemma CaseInsensitiveMatch(es: Row, c: string, rest: seq<string>, default: Value)
    requires !HasKey(es, c) && FoldMatches(es, c)
    ensures FoldedKey(es, Lower(c)).Some?
    ensures PickIn(es, [c] + rest, default) == Get(es, FoldedKey(es, Lower(c)).value).value
  {
  }

  /** `pick(row, *cands, default=default)` */
  function Pick(row: Value, cands: seq<string>, default: Value): (r: Outcome<Value>)
    ensures !Truthy(row) ==> r == Done(default)
    ensures r.Raised? <==> Truthy(row) && !row.Dict?
    ensures row.Dict? && r.Done? ==> r.value == default || exists i :: 0 <= i < |row.entries| && row.entries[i].1 == r.value
  {
    if !Truthy(row) then Done(default)
    else match row
      case Dict(es) => Done(PickIn(es, cands, default))
      case _ => Raised
  }

  /** `pick` on a row that an earlier `pick` already read: it cannot
      raise a second time. */
  function Field(row: Value, cands: seq<string>, default: Value): (r: Value)
    requires row.Dict? || !Truthy(row)
    ensures Pick(row, cands, default) == Done(r)
  {
    if !Truthy(row) then default else PickIn(row.entries, cands, default)
  }

  /** `num(v)`: None for None, "" and whatever `float()` rejects. */
  function Num(h: Host, v: Value): (r: Option<real>)
    ensures v == Null || v == Str("") ==> r == None
    ensures v != Null && v != Str("") ==> r == FloatOf(h, v)
    ensures v.Int? ==> r == Some(v.i as real)
    ensures v.Float? ==> r == Some(v.x)
  {
    if v == Null || EqLiteral(v, Str("")) then None else FloatOf(h, v)
  }

  /** `(x or "").lower()`, which raises on a truthy value that is not a
      str. */
  function LowerOrEmpty(v: Value): (r: Outcome<string>)
    ensures !Truthy(v) ==> r == Done("")
    ensures v.Str? ==> r == Done(Lower(v.s))
    ensures r.Raised? <==> Truthy(v) && !v.Str?
  {
    if !Truthy(v) then Done("")
    else match v
      case Str(s) => Done(Lower(s))
      case _ => Raised
  }

  /** The lower-cased recommendation picked from `keys`. */
  function RecOf(r: Value, keys: seq<string>): (o: Outcome<string>)
    ensures !Truthy(r) ==> o == Done("")
    ensures o.Raised? <==> Pick(r, keys, Str("")).Raised? || LowerOrEmpty(Pick(r, keys, Str("")).value).Raised?
    ensures o.Done? ==> o == LowerOrEmpty(Pick(r, keys, Str("")).value)
  {
    var rv :- Pick(r, keys, Str(""));
    LowerOrEmpty(rv)
  }

  /** A section's text: its lines, or the empty marker when there are
      none. Every line is longer than the marker, so the marker shows
      exactly when the section is empty. */
  function SectionText(lines: seq<string>): (t: string)
    ensures lines == [] ==> t == EmptySection
    ensures lines != [] ==> StartsWith(t, lines[0]) && t == Join("\n", lines)
    ensures (forall i :: 0 <= i < |lines| ==> |lines[i]| > |EmptySection|) ==> (t == EmptySection <==> lines == [])
  {
    if lines == [] then EmptySection
    else
      var t := Join("\n", lines);
      assert |t| >= |lines[0]|;
      t
  }

  // ----- 1) Buy candidates -----

  /** One scored entry: score (the sentinel when there is none), the
      picked ticker, the row itself and its lower-cased recommendation. */
  datatype Entry = Entry(score: real, tick: Value, row: Value, rec: string)

  function EntryScore(e: Entry): real {
    e.score
  }

  const TickerKeys: seq<string> := ["Ticker", "Symbol"]
  const ScoreKeys: seq<string> := ["BounceScore", "Bounce Score", "Score"]

  /** The loop body of `section_buy_candidates` for one row: the score
      is `num` of the picked value when that is a number, the sentinel
      otherwise. */
  function ScoreRow(h: Host, r: Value): (e: Outcome<Entry>)
    ensures e.Raised? <==> RecOf(r, ["Recommendation", "Status"]).Raised?
    ensures e.Done? ==> e.value.row == r && e.value.rec == RecOf(r, ["Recommendation", "Status"]).value
    ensures e.Done? ==> e.value.tick == Pick(r, TickerKeys, Str("?")).value
    ensures !Truthy(r) ==> e == Done(Entry(Unscored, Str("?"), r, ""))
    ensures e.Done? && Num(h, Pick(r, ScoreKeys, Null).value).Some?
            ==> e.value.score == Num(h, Pick(r, ScoreKeys, Null).value).value
    ensures e.Done? && Num(h, Pick(r, ScoreKeys, Null).value).None? ==> e.value.score == Unscored
  {
    var tick :- Pick(r, TickerKeys, Str("?"));
    var sv := Field(r, ScoreKeys, Null);
    var rec :- RecOf(r, ["Recommendation", "Status"]);
    var score := match Num(h, sv) case Some(x) => x case None => Unscored;
    Done(Entry(score, tick, r, rec))
  }

  predicate Actionable(e: Entry) {
    Contains(e.rec, "buy") || Contains(e.rec, "watch")
  }

  /** The actionable entries, in order. */
  function ActionableOnly(s: seq<Entry>): (r: seq<Entry>)
    ensures |r| <= |s|
    ensures forall e :: e in r <==> e in s && Actionable(e)
  {
    if s == [] then []
    else
      assert s == [s[0]] + s[1..];
      (if Actionable(s[0]) then [s[0]] else []) + ActionableOnly(s[1..])
  }

  /** Filtering commutes with concatenation, so the kept entries stay in
      ranking order. */
  lemma {:induction false} ActionableOnlyAppend(a: seq<Entry>, b: seq<Entry>)
    ensures ActionableOnly(a + b) == ActionableOnly(a) + ActionableOnly(b)
  {
    if a == [] {
      assert a + b == b;
    } else {
      assert (a + b)[1..] == a[1..] + b;
      ActionableOnlyAppend(a[1..], b);
    }
  }

  /** "Choose 3–8": the first eight actionable entries, unless fewer than
      three are actionable, in which case the head of the ranking. */
  function Choose(ranked: seq<Entry>): (c: seq<Entry>)
    ensures Min(MinChosen, |ranked|) <= |c| <= MaxChosen
    ensures forall e :: e in c ==> e in ranked
    ensures |ActionableOnly(ranked)| >= MinChosen ==> forall e :: e in c ==> Actionable(e)
    ensures |ActionableOnly(ranked)| >= MinChosen
            ==> c == ActionableOnly(ranked)[..Min(MaxChosen, |ActionableOnly(ranked)|)]
    ensures |ActionableOnly(ranked)| < MinChosen ==> c == ranked[..Min(MaxChosen, |ranked|)]
  {
    var act := ActionableOnly(ranked);
    var top := act[..Min(MaxChosen, |act|)];
    if |top| < MinChosen then
      ranked[..Min(Max(MinChosen, Min(MaxChosen, |ranked|)), |ranked|)]
    else
      assert forall e :: e in top ==> e in act;
      top
  }

  /** The texts of a list of str values. */
  function Texts(xs: seq<Value>): (r: seq<string>)
    requires forall i :: 0 <= i < |xs| ==> xs[i].Str?
    ensures |r| == |xs| && forall i :: 0 <= i < |xs| ==> xs[i] == Str(r[i])
  {
    seq(|xs|, i requires 0 <= i < |xs| => xs[i].s)
  }

  /** `", ".join(tags)` when `tags` is a list; every item must be a
      str. */
  function JoinTags(xs: seq<Value>): (r: Outcome<string>)
    ensures r.Raised? <==> exists i :: 0 <= i < |xs| && !xs[i].Str?
    ensures (forall i :: 0 <= i < |xs| ==> xs[i].Str?) ==> r == Done(Join(", ", Texts(xs)))
  {
    var strs :- MapAll(xs, (x: Value) => if x.Str? then Done(x.s) else Raised);
    assert strs == Texts(xs);
    Done(Join(", ", strs))
  }

  /** `f" ({tags})" if tags else ""` once `tags` is stripped. */
  function Parenthesised(s: string): string {
    if Blank(s) then "" else " (" + Strip(s) + ")"
  }

  /** The " (tags)" part of a buy line: a list is joined first; the text
      is then stripped and parenthesised, and blank text gives nothing.
      A truthy value that is neither a str nor a list has no `strip`. */
  function TagOut(v: Value): (r: Outcome<string>)
    ensures !Truthy(v) ==> r == Done("")
    ensures v.Str? ==> r == Done(Parenthesised(v.s))
    ensures v.List? && JoinTags(v.items).Done? ==> r == Done(Parenthesised(JoinTags(v.items).value))
    ensures r.Raised? <==> (v.List? && JoinTags(v.items).Raised?) || (Truthy(v) && !v.Str? && !v.List?)
  {
    var t :- if v.List? then (var j :- JoinTags(v.items); Done(Str(j))) else Done(v);
    if !Truthy(t) then Done("")
    else match t
      case Str(s) =>
        var st := Strip(s);
        Done(if st == [] then "" else " (" + st + ")")
      case _ => Raised
  }

  const ZoneKeys: seq<string> := ["EntryZone", "Entry Zone", "BuyZone", "SuggestedEntry"]

  /** `pick(r, "ReasonTags", "Tags") or pick(r, "Notes", default="")` */
  function TagsOf(row: Value): Value
    requires row.Dict? || !Truthy(row)
  {
    var tags := Field(row, ["ReasonTags", "Tags"], Null);
    if Truthy(tags) then tags else Field(row, ["Notes"], Str(""))
  }

  /** `f"• {tick}{tag_out} — Entry: {zone}"` for one chosen entry: it
      raises when the row cannot be picked from or its tags cannot be
      stripped. */
  function BuyLine(h: Host, e: Entry): (r: Outcome<string>)
    ensures r.Raised? <==> (Truthy(e.row) && !e.row.Dict?) || TagOut(TagsOf(e.row)).Raised?
    ensures r.Done? ==>
      && (e.row.Dict? || !Truthy(e.row))
      && r.value == "• " + StrOf(h, e.tick) + TagOut(TagsOf(e.row)).value
                    + " — Entry: " + StrOf(h, Field(e.row, ZoneKeys, Str("—")))
    ensures r.Done? ==> StartsWith(r.value, "• ") && |r.value| > |EmptySection|
  {
    var zone :- Pick(e.row, ZoneKeys, Str("—"));
    var tags := TagsOf(e.row);
    var out :- TagOut(tags);
    var line := "• " + StrOf(h, e.tick) + out + " — Entry: " + StrOf(h, zone);
    assert line[..2] == "• ";
    Done(line)
  }

  /** The scoring loop of `section_buy_candidates`: one entry per row,
      in input order; the first row that raises stops the section. */
  function ScoreAll(h: Host, rows: seq<Value>): (r: Outcome<seq<Entry>>)
    ensures r.Raised? <==> exists i :: 0 <= i < |rows| && ScoreRow(h, rows[i]).Raised?
    ensures r.Done? ==> |r.value| == |rows|
    ensures r.Done? ==> forall i :: 0 <= i < |rows| ==> ScoreRow(h, rows[i]) == Done(r.value[i])
  {
    MapAll(rows, (x: Value) => ScoreRow(h, x))
  }

  /** The line loop of `section_buy_candidates`: one line per chosen
      entry, in the chosen order. */
  function BuyLinesOf(h: Host, chosen: seq<Entry>): (r: Outcome<seq<string>>)
    ensures r.Raised? <==> exists i :: 0 <= i < |chosen| && BuyLine(h, chosen[i]).Raised?
    ensures r.Done? ==> |r.value| == |chosen|
    ensures r.Done? ==> forall i :: 0 <= i < |chosen| ==> BuyLine(h, chosen[i]) == Done(r.value[i])
  {
    MapAll(chosen, (e: Entry) => BuyLine(h, e))
  }

  /** `section_buy_candidates(entry_rows)`: the rows are scored, ranked
      by descending score, the 3–8 entries are chosen, and the section is
      their lines in the chosen order. */
  function SectionBuyCandidates(h: Host, rows: seq<Value>): (r: Outcome<string>)
    ensures rows == [] ==> r == Done(EmptySection)
    ensures r.Raised? <==>
      || ScoreAll(h, rows).Raised?
      || BuyLinesOf(h, Choose(SortDesc(ScoreAll(h, rows).value, EntryScore))).Raised?
    ensures r.Done? ==>
      r.value == SectionText(BuyLinesOf(h, Choose(SortDesc(ScoreAll(h, rows).value, EntryScore))).value)
    ensures r.Done? ==> (r.value == EmptySection <==> rows == [])
  {
    var entries :- ScoreAll(h, rows);
    var chosen := Choose(SortDesc(entries, EntryScore));
    var lines :- BuyLinesOf(h, chosen);
    Done(SectionText(lines))
  }

  /** The section from its pieces: when every row scores to `entries` and
      every chosen entry of their ranking gives its line, the section is
      those lines, in the chosen order. */
  lemma BuySectionFromParts(h: Host, rows: seq<Value>, entries: seq<Entry>, lines: seq<string>)
    requires |entries| == |rows| && forall i :: 0 <= i < |rows| ==> ScoreRow(h, rows[i]) == Done(entries[i])
    requires |lines| == |Choose(SortDesc(entries, EntryScore))|
    requires forall i :: 0 <= i < |lines| ==> BuyLine(h, Choose(SortDesc(entries, EntryScore))[i]) == Done(lines[i])
    ensures SectionBuyCandidates(h, rows) == Done(SectionText(lines))
  {
    ScoreAllIs(h, rows, entries);
    BuyLinesOfIs(h, Choose(SortDesc(entries, EntryScore)), lines);
  }

  lemma ScoreAllIs(h: Host, rows: seq<Value>, entries: seq<Entry>)
    requires |entries| == |rows| && forall i :: 0 <= i < |rows| ==> ScoreRow(h, rows[i]) == Done(entries[i])
    ensures ScoreAll(h, rows) == Done(entries)
  {
    var es := ScoreAll(h, rows);
    assert es.Done?;
    assert es.value == entries;
  }

  lemma BuyLinesOfIs(h: Host, chosen: seq<Entry>, lines: seq<string>)
    requires |lines| == |chosen| && forall i :: 0 <= i < |chosen| ==> BuyLine(h, chosen[i]) == Done(lines[i])
    ensures BuyLinesOf(h, chosen) == Done(lines)
  {
    var ls := BuyLinesOf(h, chosen);
    assert ls.Done?;
    assert ls.value == lines;
  }

  /** The ranking the section chooses from is stable: entries with equal
      scores keep their input order, and it is the only descending order
      that does. */
  lemma BuyRankingStable(entries: seq<Entry>)
    ensures StablyReordered(SortDesc(entries, EntryScore), entries, EntryScore)
    ensures forall r :: Descending(r, EntryScore) && StablyReordered(r, entries, EntryScore)
              ==> r == SortDesc(entries, EntryScore)
  {
    SortDescStable(entries, EntryScore);
    forall r | Descending(r, EntryScore) && StablyReordered(r, entries, EntryScore)
      ensures r == SortDesc(entries, EntryScore)
    {
      SortDescIsTheStableSort(entries, EntryScore, r);
    }
  }

  // ----- 3) Exits -----

  const ExitRecKeys: seq<string> := ["Recommendation", "Action", "Status"]
  const WhyKeys: seq<string> := ["Trigger", "Reason", "Notes"]

  predicate IsExit(rec: string) {
    Contains(rec, "exit") || Contains(rec, "trim") || Contains(rec, "sell")
  }

  /** The loop body of `section_exits`: "• tick — why" for a row whose
      lower-cased Recommendation/Action/Status mentions exit, trim or
      sell. */
  function ExitRow(h: Host, r: Value): (o: Outcome<Option<string>>)
    ensures o.Raised? <==> RecOf(r, ExitRecKeys).Raised?
    ensures o.Done? ==> (o.value.Some? <==> IsExit(RecOf(r, ExitRecKeys).value))
    ensures !Truthy(r) ==> o == Done(None)
    ensures o.Done? && o.value.Some? ==>
      && (r.Dict? || !Truthy(r))
      && o.value.value == "• " + StrOf(h, Field(r, TickerKeys, Str("?"))) + " — " + StrOf(h, Field(r, WhyKeys, Str("—")))
    ensures o.Done? && o.value.Some? ==> |o.value.value| > |EmptySection|
  {
    var tick :- Pick(r, TickerKeys, Str("?"));
    var rec :- RecOf(r, ExitRecKeys);
    if IsExit(rec) then
      var why := Field(r, WhyKeys, Str("—"));
      Done(Some("• " + StrOf(h, tick) + " — " + StrOf(h, why)))
    else Done(None)
  }

  /** The loop of `section_exits`: each row's optional line, in input
      order. */
  function ExitFound(h: Host, rows: seq<Value>): (r: Outcome<seq<Option<string>>>)
    ensures r.Raised? <==> exists i :: 0 <= i < |rows| && ExitRow(h, rows[i]).Raised?
    ensures r.Done? ==> |r.value| == |rows|
    ensures r.Done? ==> forall i :: 0 <= i < |rows| ==> ExitRow(h, rows[i]) == Done(r.value[i])
  {
    MapAll(rows, (x: Value) => ExitRow(h, x))
  }

  /** `section_exits(exits_rows)`: the exit lines in input order, or the
      empty marker. */
  function SectionExits(h: Host, rows: seq<Value>): (r: Outcome<string>)
    ensures r.Raised? <==> exists i :: 0 <= i < |rows| && ExitRow(h, rows[i]).Raised?
    ensures r.Done? ==> ExitFound(h, rows).Done? && r.value == SectionText(Somes(ExitFound(h, rows).value))
    ensures r.Done? ==> (r.value == EmptySection <==> forall i :: 0 <= i < |rows| ==> ExitRow(h, rows[i]) == Done(None))
  {
    var found :- ExitFound(h, rows);
    LinesFromFound(found);
    Done(SectionText(Somes(found)))
  }

  /** The section from its pieces: the present lines of the rows, in
      input order. */
  lemma ExitSectionFromRows(h: Host, rows: seq<Value>, found: seq<Option<string>>)
    requires |found| == |rows| && forall i :: 0 <= i < |rows| ==> ExitRow(h, rows[i]) == Done(found[i])
    ensures SectionExits(h, rows) == Done(SectionText(Somes(found)))
  {
    var f := ExitFound(h, rows);
    assert f.Done?;
    assert f.value == found;
  }

  // ----- 4) Risk & quotas -----

  const CountKeys: seq<string> := ["Count", "#", "Positions"]

  /** A sector row's "name:count" entry: it needs a truthy Sector and a
      Count/#/Positions that `int(float(...))` accepts; rows that fail
      either test are skipped. A count of three or more is "(full)". */
  function SectorCap(h: Host, r: Value): (o: Outcome<Option<string>>)
    ensures o.Raised? <==> Truthy(r) && !r.Dict?
    ensures o.Done? ==>
      && (r.Dict? || !Truthy(r))
      && var name := Field(r, ["Sector"], Null);
         var count := Field(r, CountKeys, Null);
         && (o.value.Some? <==> Truthy(name) && count != Null && FloatOf(h, count).Some?)
         && (o.value.Some? ==>
               o.value.value == StrOf(h, name) + ":" + IntText(Trunc(FloatOf(h, count).value))
                                + (if Trunc(FloatOf(h, count).value) >= 3 then " (full)" else ""))
    ensures o.Done? && o.value.Some? ==>
      (var count := Pick(r, CountKeys, Null).value;
       count != Null && FloatOf(h, count).Some?
       && (EndsWith(o.value.value, " (full)") <==> Trunc(FloatOf(h, count).value) >= 3))
  {
    var name :- Pick(r, ["Sector"], Null);
    var count := Field(r, CountKeys, Null);
    if Truthy(name) && count != Null then
      match FloatOf(h, count)
      case None => Done(None)
      case Some(x) =>
        var n := Trunc(x);
        var base := StrOf(h, name) + ":" + IntText(n);
        var t := base + (if n >= 3 then " (full)" else "");
        assert n < 3 ==> t[|t| - 1] == IntText(n)[|IntText(n)| - 1];
        Done(Some(t))
    else Done(None)
  }

  /** The sector loop: each row's optional entry, in input order. */
  function SectorCaps(h: Host, sectors: seq<Value>): (r: Outcome<seq<Option<string>>>)
    ensures r.Raised? <==> exists i :: 0 <= i < |sectors| && SectorCap(h, sectors[i]).Raised?
    ensures r.Done? ==> |r.value| == |sectors|
    ensures r.Done? ==> forall i :: 0 <= i < |sectors| ==> SectorCap(h, sectors[i]) == Done(r.value[i])
  {
    MapAll(sectors, (x: Value) => SectorCap(h, x))
  }

  /** "KillSwitch: <value>", or "KillSwitch: —" when there is none. */
  function KillSwitchText(h: Host, ks: Value): (t: string)
    ensures StartsWith(t, "KillSwitch: ")
    ensures ks == Null ==> t == "KillSwitch: —"
    ensures ks != Null ==> t == "KillSwitch: " + StrOf(h, ks)
  {
    var t := if ks != Null then "KillSwitch: " + StrOf(h, ks) else "KillSwitch: —";
    assert t[..|"KillSwitch: "|] == "KillSwitch: ";
    t
  }

  /** The sector part: " | Sectors: " and the entries joined by ", ", or
      nothing when there are none. */
  function SectorsText(caps: seq<string>): (t: string)
    ensures caps == [] <==> t == ""
    ensures caps != [] ==> t == " | Sectors: " + Join(", ", caps)
  {
    if caps != [] then " | Sectors: " + Join(", ", caps) else ""
  }

  const KillSwitchKeys: seq<string> := ["KillSwitch", "KillSwitch State", "KS"]
  const DrawdownKeys: seq<string> := ["DD10D", "Drawdown10D", "DD%"]

  /** The kill switch and 10-day drawdown of the first risk row; the
      drawdown part appears only when a drawdown value is present. */
  function RiskHead(h: Host, risk: seq<Value>): (r: Outcome<string>)
    ensures r.Done? ==> StartsWith(r.value, "KillSwitch: ")
    ensures risk == [] ==> r == Done("KillSwitch: —")
    ensures r.Raised? <==> risk != [] && Truthy(risk[0]) && !risk[0].Dict?
    ensures r.Done? && risk != [] && Pick(risk[0], DrawdownKeys, Null).value == Null
            ==> r.value == KillSwitchText(h, Pick(risk[0], KillSwitchKeys, Null).value)
    ensures r.Done? && risk != [] && Pick(risk[0], DrawdownKeys, Null).value != Null
            ==> EndsWith(r.value, " | 10D DD: " + StrOf(h, Pick(risk[0], DrawdownKeys, Null).value))
    ensures r.Done? && risk != [] && Pick(risk[0], DrawdownKeys, Null).value != Null
            ==> r.value == KillSwitchText(h, Pick(risk[0], KillSwitchKeys, Null).value)
                           + " | 10D DD: " + StrOf(h, Pick(risk[0], DrawdownKeys, Null).value)
  {
    var ks :- if risk == [] then Done(Null) else Pick(risk[0], KillSwitchKeys, Null);
    var dd := if risk == [] then Null else Field(risk[0], DrawdownKeys, Null);
    var ksText := KillSwitchText(h, ks);
    if dd == Null then Done(ksText)
    else
      var tail := " | 10D DD: " + StrOf(h, dd);
      var t := ksText + tail;
      assert t[..|ksText|] == ksText && t[|t| - |tail|..] == tail;
      Done(t)
  }

  /** `section_risk_quota(risk_rows, sector_rows)`: the kill switch and
      10-day drawdown of the first risk row, then the sector entries in
      input order. A key holding null counts as missing. */
  function SectionRiskQuota(h: Host, risk: seq<Value>, sectors: seq<Value>): (r: Outcome<string>)
    ensures r.Done? ==> StartsWith(r.value, "KillSwitch: ")
    ensures risk == [] && r.Done? ==> StartsWith(r.value, "KillSwitch: —")
    ensures r.Done? && sectors == [] ==> RiskHead(h, risk) == r
    ensures r.Raised? <==> (risk != [] && Truthy(risk[0]) && !risk[0].Dict?)
                           || exists i :: 0 <= i < |sectors| && SectorCap(h, sectors[i]).Raised?
    ensures r.Done? ==>
      && RiskHead(h, risk).Done? && SectorCaps(h, sectors).Done?
      && r.value == RiskHead(h, risk).value + SectorsText(Somes(SectorCaps(h, sectors).value))
  {
    var head :- RiskHead(h, risk);
    var caps :- SectorCaps(h, sectors);
    var t := head + SectorsText(Somes(caps));
    assert t[..|head|] == head;
    assert sectors == [] ==> caps == [] && t == head;
    Done(t)
  }

  /** The section from its pieces: the head, then the entries of the
      sector rows that have one, in input order. */
  lemma RiskSectionFromParts(h: Host, risk: seq<Value>, sectors: seq<Value>, head: string, caps: seq<Option<string>>)
    requires RiskHead(h, risk) == Done(head)
    requires |caps| == |sectors| && forall i :: 0 <= i < |sectors| ==> SectorCap(h, sectors[i]) == Done(caps[i])
    ensures SectionRiskQuota(h, risk, sectors) == Done(head + SectorsText(Somes(caps)))
  {
    var c := SectorCaps(h, sectors);
    assert c.Done?;
    assert c.value == caps;
  }

  // ----- 5) Upcoming earnings -----

  const ErDateKeys: seq<string> := ["EarningsDate", "NextEarnings", "NextER", "ERDate"]

  /** The loop body of `section_upcoming_er`: the day count and the line
      "• tick — <New York date> (<n>d)" of a row whose earnings date
      parses and lies `0..days` days ahead. */
  function ErRow(h: Host, nowu: int, days: int, r: Value): (o: Outcome<Option<(int, string)>>)
    ensures o.Raised? <==> Truthy(r) && !r.Dict?
    ensures o.Done? && o.value.Some? ==>
      (var d := DaysUntil(ParseDt(h, Pick(r, ErDateKeys, Null).value), nowu);
       d == Some(o.value.value.0) && 0 <= o.value.value.0 <= days)
    ensures o.Done? && o.value.None? ==>
      (var d := DaysUntil(ParseDt(h, Pick(r, ErDateKeys, Null).value), nowu);
       d.None? || d.value < 0 || d.value > days)
    ensures o.Done? && o.value.Some? ==>
      && (r.Dict? || !Truthy(r))
      && ParseDt(h, Field(r, ErDateKeys, Null)).Some?
      && o.value.value.1 == "• " + StrOf(h, Field(r, TickerKeys, Str("?"))) + " — "
                            + h.nyMonthDay(ParseDt(h, Field(r, ErDateKeys, Null)).value)
                            + " (" + IntText(o.value.value.0) + "d)"
    ensures o.Done? && o.value.Some? ==> |o.value.value.1| > |EmptySection|
  {
    var tick :- Pick(r, TickerKeys, Str("?"));
    var dv := Field(r, ErDateKeys, Null);
    var dt := ParseDt(h, dv);
    var dleft := DaysUntil(dt, nowu);
    if dleft.Some? && 0 <= dleft.value <= days then
      Done(Some((dleft.value, "• " + StrOf(h, tick) + " — " + h.nyMonthDay(dt.value)
                              + " (" + IntText(dleft.value) + "d)")))
    else Done(None)
  }

  /** The loop of `section_upcoming_er`: each row's optional item, in
      input order. */
  function ErFound(h: Host, nowu: int, days: int, rows: seq<Value>): (r: Outcome<seq<Option<(int, string)>>>)
    ensures r.Raised? <==> exists i :: 0 <= i < |rows| && ErRow(h, nowu, days, rows[i]).Raised?
    ensures r.Done? ==> |r.value| == |rows|
    ensures r.Done? ==> forall i :: 0 <= i < |rows| ==> ErRow(h, nowu, days, rows[i]) == Done(r.value[i])
  {
    MapAll(rows, (x: Value) => ErRow(h, nowu, days, x))
  }

  /** `out.sort(key=lambda x: x[0])` is a stable ascending sort; it is the
      stable descending sort on the negated day count. */
  function EarlierFirst(x: (int, string)): real {
    -(x.0 as real)
  }

  function SortByDays(items: seq<(int, string)>): (r: seq<(int, string)>)
    ensures |r| == |items| && multiset(r) == multiset(items)
    ensures forall i, j :: 0 <= i < j < |r| ==> r[i].0 <= r[j].0
  {
    var r := SortDesc(items, EarlierFirst);
    assert forall i, j :: 0 <= i < j < |r| ==> EarlierFirst(r[i]) >= EarlierFirst(r[j]);
    r
  }

  /** Items due on the same day keep their input order, and no other
      ascending order does. */
  lemma SortByDaysStable(items: seq<(int, string)>)
    ensures StablyReordered(SortByDays(items), items, EarlierFirst)
    ensures forall r :: Descending(r, EarlierFirst) && StablyReordered(r, items, EarlierFirst)
              ==> r == SortByDays(items)
  {
    SortDescStable(items, EarlierFirst);
    forall r | Descending(r, EarlierFirst) && StablyReordered(r, items, EarlierFirst)
      ensures r == SortByDays(items)
    {
      SortDescIsTheStableSort(items, EarlierFirst, r);
    }
  }

  /** `[x[1] for x in out]` */
  function DayLines(items: seq<(int, string)>): (lines: seq<string>)
    ensures |lines| == |items| && forall i :: 0 <= i < |items| ==> lines[i] == items[i].1
  {
    seq(|items|, i requires 0 <= i < |items| => items[i].1)
  }

  /** The item lines, earliest day first (same-day items in input
      order), one per line; the empty marker when there are none. */
  function ErText(items: seq<(int, string)>): (t: string)
    ensures t == SectionText(DayLines(SortByDays(items)))
    ensures (forall i :: 0 <= i < |items| ==> |items[i].1| > |EmptySection|)
            ==> (t == EmptySection <==> items == [])
  {
    var sorted := SortByDays(items);
    var lines := DayLines(sorted);
    if items == [] then SectionText(lines)
    else
      assert sorted[0] in multiset(items);
      assert sorted[0] in items;
      assert StartsWith(SectionText(lines), lines[0]);
      SectionText(lines)
  }

  /** `section_upcoming_er(earn_rows, days)` at UTC instant `nowu`: the
      items of the rows whose date falls in the window, earliest first. */
  function SectionUpcomingEr(h: Host, nowu: int, rows: seq<Value>, days: int): (r: Outcome<string>)
    ensures r.Raised? <==> exists i :: 0 <= i < |rows| && Truthy(rows[i]) && !rows[i].Dict?
    ensures r.Done? ==> ErFound(h, nowu, days, rows).Done?
                        && r.value == ErText(Somes(ErFound(h, nowu, days, rows).value))
    ensures r.Done? ==> (r.value == EmptySection <==> forall i :: 0 <= i < |rows| ==> ErRow(h, nowu, days, rows[i]) == Done(None))
  {
    var found :- ErFound(h, nowu, days, rows);
    ErItemsFound(h, nowu, days, rows, found);
    Done(ErText(Somes(found)))
  }

  /** The items of the rows: each line longer than the empty marker, and
      none at all exactly when no row is in the window. */
  lemma ErItemsFound(h: Host, nowu: int, days: int, rows: seq<Value>, found: seq<Option<(int, string)>>)
    requires |found| == |rows| && forall i :: 0 <= i < |rows| ==> ErRow(h, nowu, days, rows[i]) == Done(found[i])
    ensures forall i :: 0 <= i < |Somes(found)| ==> |Somes(found)[i].1| > |EmptySection|
    ensures Somes(found) == [] <==> forall i :: 0 <= i < |rows| ==> ErRow(h, nowu, days, rows[i]) == Done(None)
  {
    ErItemsLong(h, nowu, days, rows, found);
    LinesFound(found);
  }

  lemma ErItemsLong(h: Host, nowu: int, days: int, rows: seq<Value>, found: seq<Option<(int, string)>>)
    requires |found| == |rows| && forall i :: 0 <= i < |rows| ==> ErRow(h, nowu, days, rows[i]) == Done(found[i])
    ensures forall i :: 0 <= i < |Somes(found)| ==> |Somes(found)[i].1| > |EmptySection|
  {
    var items := Somes(found);
    forall i | 0 <= i < |items| ensures |items[i].1| > |EmptySection| {
      assert Some(items[i]) in found;
      var k :| 0 <= k < |found| && found[k] == Some(items[i]);
      assert ErRow(h, nowu, days, rows[k]) == Done(Some(items[i]));
    }
  }

  /** The section from its pieces: the in-window items of the rows,
      sorted by day. */
  lemma ErSectionFromRows(h: Host, nowu: int, days: int, rows: seq<Value>, found: seq<Option<(int, string)>>)
    requires |found| == |rows| && forall i :: 0 <= i < |rows| ==> ErRow(h, nowu, days, rows[i]) == Done(found[i])
    ensures SectionUpcomingEr(h, nowu, rows, days) == Done(ErText(Somes(found)))
  {
    var f := ErFound(h, nowu, days, rows);
    assert f.Done?;
    assert f.value == found;
  }

  // ----- the sections of one run -----

  /** The six tab payloads `main` reads, turned into rows in that order
      with the corrected `to_rows` (so a flat array is read as the
      table, and a truthy scalar payload raises), then run through the
      buy, exit, risk and earnings sections, in that order. The oversold
      tab is read, so it can raise, but its section is not modelled. */
  function TabSections(h: Host, nowu: int, entry: Value, overs: Value, exits: Value, risk: Value,
                       sectors: Value, earn: Value): (r: Outcome<seq<string>>)
    ensures (ScalarTab(entry) || ScalarTab(overs) || ScalarTab(exits) || ScalarTab(risk)
             || ScalarTab(sectors) || ScalarTab(earn)) ==> r.Raised?
    ensures r.Done? ==> |r.value| == 4
    ensures r.Done? ==> ToRowsIntended(overs).Done?
    ensures r.Done? ==> ToRowsIntended(entry).Done?
                        && SectionBuyCandidates(h, ToRowsIntended(entry).value) == Done(r.value[0])
    ensures r.Done? ==> ToRowsIntended(exits).Done?
                        && SectionExits(h, ToRowsIntended(exits).value) == Done(r.value[1])
    ensures r.Done? ==> ToRowsIntended(risk).Done? && ToRowsIntended(sectors).Done?
                        && SectionRiskQuota(h, ToRowsIntended(risk).value, ToRowsIntended(sectors).value)
                           == Done(r.value[2])
    ensures r.Done? ==> ToRowsIntended(earn).Done?
                        && SectionUpcomingEr(h, nowu, ToRowsIntended(earn).value, 14) == Done(r.value[3])
    ensures (!ScalarTab(entry) && !ScalarTab(overs) && !ScalarTab(exits) && !ScalarTab(risk)
             && !ScalarTab(sectors) && !ScalarTab(earn)) ==>
      (r.Raised? <==>
       || SectionBuyCandidates(h, ToRowsIntended(entry).value).Raised?
       || SectionExits(h, ToRowsIntended(exits).value).Raised?
       || SectionRiskQuota(h, ToRowsIntended(risk).value, ToRowsIntended(sectors).value).Raised?
       || SectionUpcomingEr(h, nowu, ToRowsIntended(earn).value, 14).Raised?)
  {
    var entryRows :- ToRowsIntended(entry);
    var oversRows :- ToRowsIntended(overs);
    var exitRows :- ToRowsIntended(exits);
    var riskRows :- ToRowsIntended(risk);
    var sectorRows :- ToRowsIntended(sectors);
    var earnRows :- ToRowsIntended(earn);
    AllDone(SectionBuyCandidates(h, entryRows), SectionExits(h, exitRows),
            SectionRiskQuota(h, riskRows, sectorRows), SectionUpcomingEr(h, nowu, earnRows, 14))
  }

  /** Four sections computed in turn: their texts, or the exception of
      the first that raises. */
  function AllDone(a: Outcome<string>, b: Outcome<string>, c: Outcome<string>, d: Outcome<string>)
    : (r: Outcome<seq<string>>)
    ensures r.Raised? <==> a.Raised? || b.Raised? || c.Raised? || d.Raised?
    ensures r.Done? ==> |r.value| == 4
    ensures r.Done? ==> a == Done(r.value[0]) && b == Done(r.value[1]) && c == Done(r.value[2]) && d == Done(r.value[3])
  {
    if a.Done? && b.Done? && c.Done? && d.Done? then Done([a.value, b.value, c.value, d.value])
    else Raised
  }

  /** Tabs that yield no rows give every section its empty form. */
  lemma NoRowsSections(h: Host, nowu: int, entry: Value, overs: Value, exits: Value, risk: Value,
                       sectors: Value, earn: Value)
    requires ToRowsIntended(entry) == Done([]) && ToRowsIntended(overs) == Done([])
    requires ToRowsIntended(exits) == Done([]) && ToRowsIntended(risk) == Done([])
    requires ToRowsIntended(sectors) == Done([]) && ToRowsIntended(earn) == Done([])
    ensures TabSections(h, nowu, entry, overs, exits, risk, sectors, earn)
            == Done([EmptySection, EmptySection, "KillSwitch: —", EmptySection])
  {
    assert SectionBuyCandidates(h, []) == Done(EmptySection) by {}
    assert SectionExits(h, []) == Done(EmptySection) by {}
    assert SectionRiskQuota(h, [], []) == Done("KillSwitch: —") by {}
    assert SectionUpcomingEr(h, nowu, [], 14) == Done(EmptySection) by {}
  }

  /** With every tab empty or missing, each section shows its empty
      form. */
  lemma EmptyTabs(h: Host, nowu: int, entry: Value, overs: Value, exits: Value, risk: Value,
                  sectors: Value, earn: Value)
    requires !Truthy(entry) && !Truthy(overs) && !Truthy(exits) && !Truthy(risk) && !Truthy(sectors) && !Truthy(earn)
    ensures TabSections(h, nowu, entry, overs, exits, risk, sectors, earn)
            == Done([EmptySection, EmptySection, "KillSwitch: —", EmptySection])
  {
    NoRowsSections(h, nowu, entry, overs, exits, risk, sectors, earn);
  }
}
