/** Row normalisation and tolerant field lookup, as the two owner scripts
    define them (`parse_rows` and `first_nonempty` / `first` are the same
    code in both). */
module Fields {
  import opened Text
  import opened Python

  /** The dict-shaped entries of a list, in list order. */
  function DictRows(xs: seq<Value>): (r: seq<Row>)
    ensures |r| <= |xs|
    ensures forall row :: row in r <==> Dict(row) in xs
  {
    if xs == [] then []
    else
      assert xs == [xs[0]] + xs[1..];
      (if xs[0].Dict? then [xs[0].entries] else []) + DictRows(xs[1..])
  }

  /** Filtering commutes with concatenation, so the relative order of
      the kept rows is the order of the list. */
  lemma {:induction false} DictRowsAppend(a: seq<Value>, b: seq<Value>)
    ensures DictRows(a + b) == DictRows(a) + DictRows(b)
  {
    if a == [] {
      assert a + b == b;
    } else {
      assert (a + b)[1..] == a[1..] + b;
      DictRowsAppend(a[1..], b);
    }
  }

  /** A list of rows that are all dicts comes through whole. */
  lemma {:induction false} DictRowsKeepsAllDicts(xs: seq<Value>)
    requires forall i :: 0 <= i < |xs| ==> xs[i].Dict?
    ensures |DictRows(xs)| == |xs|
    ensures forall i :: 0 <= i < |xs| ==> DictRows(xs)[i] == xs[i].entries
  {
    if xs != [] {
      DictRowsKeepsAllDicts(xs[1..]);
    }
  }

  /** `parse_rows(obj)`. A truthy payload that is not a dict raises:
      `"rows" in obj` is a TypeError on numbers and bools, and `obj.get`
      an AttributeError on strings and lists that pass that test; so
      does iterating a `rows` value that is a number or `True`. */
  function ParseRows(obj: Value): (r: Outcome<seq<Row>>)
    ensures !Truthy(obj) ==> r == Done([])
    ensures obj.Dict? && !HasKey(obj.entries, "rows") ==> r == Done([])
    ensures obj.Dict? && HasKey(obj.entries, "rows") && !Truthy(Get(obj.entries, "rows").value)
            ==> r == Done([])
    ensures obj.Dict? && HasKey(obj.entries, "rows") && Get(obj.entries, "rows").value.List?
            ==> r == Done(DictRows(Get(obj.entries, "rows").value.items))
    ensures r.Done? ==> obj.Dict? || r.value == []
    ensures r.Raised? ==> Truthy(obj)
  {
    if !Truthy(obj) then Done([])
    else match obj
      case Dict(es) =>
        if !HasKey(es, "rows") then Done([])
        else
          var rows := Get(es, "rows").value;
          if !Truthy(rows) then Done([])
          else (match rows
            case List(xs) => Done(DictRows(xs))
            case Str(_) => Done([])   // iterates characters: none is a dict
            case Dict(_) => Done([])  // iterates keys: none is a dict
            case _ => Raised)         // a number or True is not iterable
      case List(xs) =>
        if InLiterals(Str("rows"), xs) then Raised else Done([])
      case Str(s) =>
        if Contains(s, "rows") then Raised else Done([])
      case _ => Raised
  }

  /** Alias `k` carries a value that is not None and not blank once
      printed. */
  predicate Resolves(h: Host, d: Row, k: string) {
    var v := Get(d, k);
    v.Some? && v.value != Null && !Blank(StrOf(h, v.value))
  }

  /** `first_nonempty(d, keys)`: the printed value of the first alias
      that resolves, or "" when none does. */
  function FirstNonempty(h: Host, d: Row, keys: seq<string>): (r: string)
    ensures r == "" <==> forall i :: 0 <= i < |keys| ==> !Resolves(h, d, keys[i])
    ensures r == "" || !Blank(r)
  {
    if keys == [] then ""
    else
      var v := Get(d, keys[0]);
      if v.Some? && v.value != Null && !Blank(StrOf(h, v.value)) then StrOf(h, v.value)
      else
        var r := FirstNonempty(h, d, keys[1..]);
        assert forall i :: 1 <= i < |keys| ==> keys[i] == keys[1..][i - 1];
        r
  }

  /** The alias that decides is the first one that resolves: every
      earlier alias is ignored and every later one is never consulted. */
  lemma {:induction false} FirstNonemptyPicksFirstAlias(h: Host, d: Row, keys: seq<string>, i: nat)
    requires i < |keys| && Resolves(h, d, keys[i])
    requires forall j :: 0 <= j < i ==> !Resolves(h, d, keys[j])
    ensures FirstNonempty(h, d, keys) == StrOf(h, Get(d, keys[i]).value)
  {
    if i > 0 {
      FirstNonemptyPicksFirstAlias(h, d, keys[1..], i - 1);
    }
  }

  /** Whatever the row holds under other keys does not matter. */
  lemma {:induction false} FirstNonemptyOnlyReadsAliases(h: Host, d: Row, e: Row, keys: seq<string>)
    requires forall k :: k in keys ==> Get(d, k) == Get(e, k)
    ensures FirstNonempty(h, d, keys) == FirstNonempty(h, e, keys)
  {
    if keys != [] {
      FirstNonemptyOnlyReadsAliases(h, d, e, keys[1..]);
    }
  }
}
