/** The two orderings the digest uses: Python's `list.sort(key=...,
    reverse=True)`, a stable sort by descending key, and `sorted()` on
    strings, which orders by code points. */
module Sorting {

  /** The key the scripts give an element without a score (`-1e9`). */
  const Unscored: real := -1000000000.0

  /** Keys never increase from left to right. */
  predicate Descending<T>(s: seq<T>, key: T -> real) {
    forall i, j :: 0 <= i < j < |s| ==> key(s[i]) >= key(s[j])
  }

  /** The elements of `s` whose key is `k`, in the order of `s`. */
  function KeyClass<T>(s: seq<T>, key: T -> real, k: real): (r: seq<T>)
    ensures |r| <= |s|
  {
    if s == [] then []
    else (if key(s[0]) == k then [s[0]] else []) + KeyClass(s[1..], key, k)
  }

  /** A stable descending sort leaves every key class as it found it. */
  ghost predicate StablyReordered<T>(r: seq<T>, s: seq<T>, key: T -> real) {
    forall k :: KeyClass(r, key, k) == KeyClass(s, key, k)
  }

  lemma {:induction false} KeyClassAppend<T>(a: seq<T>, b: seq<T>, key: T -> real, k: real)
    ensures KeyClass(a + b, key, k) == KeyClass(a, key, k) + KeyClass(b, key, k)
  {
    if a == [] {
      assert a + b == b;
    } else {
      var head := if key(a[0]) == k then [a[0]] else [];
      assert (a + b)[0] == a[0];
      assert (a + b)[1..] == a[1..] + b;
      KeyClassAppend(a[1..], b, key, k);
      assert KeyClass(a + b, key, k) == head + (KeyClass(a[1..], key, k) + KeyClass(b, key, k));
    }
  }

  /** In a descending sequence a strictly larger key sits further left. */
  lemma LargerKeyFirst<T>(s: seq<T>, key: T -> real, i: nat, j: nat)
    requires Descending(s, key)
    requires i < |s| && j < |s| && key(s[i]) > key(s[j])
    ensures i < j
  {
  }

  /** Places `x` in front of the first element whose key does not
      exceed its own, so `x` precedes the equal keys already present. */
  function Insert<T>(x: T, s: seq<T>, key: T -> real): (r: seq<T>)
    ensures multiset(r) == multiset(s) + multiset{x}
    ensures |r| == |s| + 1
  {
    if s == [] || key(s[0]) <= key(x) then [x] + s
    else
      assert s == [s[0]] + s[1..];
      [s[0]] + Insert(x, s[1..], key)
  }

  lemma {:induction false} InsertDescending<T>(x: T, s: seq<T>, key: T -> real)
    requires Descending(s, key)
    ensures Descending(Insert(x, s, key), key)
  {
    if s == [] || key(s[0]) <= key(x) {
    } else {
      var t := Insert(x, s[1..], key);
      InsertDescending(x, s[1..], key);
      var r := [s[0]] + t;
      forall i, j | 0 <= i < j < |r| ensures key(r[i]) >= key(r[j]) {
        if i == 0 {
          assert r[j] in multiset(t);
          assert r[j] == x || r[j] in s[1..];
        }
      }
    }
  }

  lemma {:induction false} InsertKeyClass<T>(x: T, s: seq<T>, key: T -> real, k: real)
    requires Descending(s, key)
    ensures KeyClass(Insert(x, s, key), key, k)
         == (if key(x) == k then [x] else []) + KeyClass(s, key, k)
  {
    if s == [] || key(s[0]) <= key(x) {
      KeyClassAppend([x], s, key, k);
    } else {
      InsertKeyClass(x, s[1..], key, k);
      KeyClassAppend([s[0]], Insert(x, s[1..], key), key, k);
      KeyClassAppend([s[0]], s[1..], key, k);
      assert s == [s[0]] + s[1..];
      if key(x) == k {
        // `s[0]` has a larger key, so it is not in the class of `x`.
        assert KeyClass([s[0]], key, k) == [];
      }
    }
  }

  /** `s.sort(key=key, reverse=True)` */
  function SortDesc<T>(s: seq<T>, key: T -> real): (r: seq<T>)
    ensures Descending(r, key)
    ensures multiset(r) == multiset(s)
    ensures |r| == |s|
  {
    if s == [] then []
    else
      assert s == [s[0]] + s[1..];
      var t := SortDesc(s[1..], key);
      InsertDescending(s[0], t, key);
      Insert(s[0], t, key)
  }

  /** Stability: among equal keys the input order survives. */
  lemma {:induction false} SortDescStable<T>(s: seq<T>, key: T -> real)
    ensures StablyReordered(SortDesc(s, key), s, key)
  {
    if s != [] {
      SortDescStable(s[1..], key);
      forall k ensures KeyClass(SortDesc(s, key), key, k) == KeyClass(s, key, k) {
        InsertKeyClass(s[0], SortDesc(s[1..], key), key, k);
        KeyClassAppend([s[0]], s[1..], key, k);
        assert s == [s[0]] + s[1..];
      }
    }
  }

  /** Two elements with equal keys keep their relative order: if `a`
      sits before `b` among the elements of key `k` in the input, it
      does so in the output too. */
  lemma EqualKeysKeepOrder<T>(s: seq<T>, key: T -> real, k: real, i: nat, j: nat)
    requires i < j < |KeyClass(s, key, k)|
    ensures i < j < |KeyClass(SortDesc(s, key), key, k)|
    ensures KeyClass(SortDesc(s, key), key, k)[i] == KeyClass(s, key, k)[i]
    ensures KeyClass(SortDesc(s, key), key, k)[j] == KeyClass(s, key, k)[j]
  {
    SortDescStable(s, key);
  }

  /** A stable descending order is unique: any reordering that is
      descending and keeps every key class is the one `SortDesc` gives. */
  lemma {:induction false} StableSortUnique<T>(r: seq<T>, s: seq<T>, key: T -> real)
    requires Descending(r, key) && Descending(s, key)
    requires StablyReordered(r, s, key)
    ensures r == s
    decreases |r| + |s|
  {
    if r == [] || s == [] {
      if r != [] {
        KeyClassOfHead(r, key);
      } else if s != [] {
        KeyClassOfHead(s, key);
      }
    } else {
      assert r == [r[0]] + r[1..];
      assert s == [s[0]] + s[1..];
      var kr, ks := key(r[0]), key(s[0]);
      // The head of each sequence carries its largest key; both maxima agree.
      if kr != ks {
        if kr > ks {
          KeyClassAppend([r[0]], r[1..], key, kr);
          assert KeyClass(r, key, kr) != [];
          KeyClassAllBelow(s, key, kr);
          assert false;
        } else {
          KeyClassAppend([s[0]], s[1..], key, ks);
          assert KeyClass(s, key, ks) != [];
          KeyClassAllBelow(r, key, ks);
          assert false;
        }
      }
      KeyClassAppend([r[0]], r[1..], key, kr);
      KeyClassAppend([s[0]], s[1..], key, ks);
      assert KeyClass(r, key, kr) == KeyClass(s, key, kr);
      assert r[0] == KeyClass(r, key, kr)[0] == KeyClass(s, key, kr)[0] == s[0];
      forall k ensures KeyClass(r[1..], key, k) == KeyClass(s[1..], key, k) {
        KeyClassAppend([r[0]], r[1..], key, k);
        KeyClassAppend([s[0]], s[1..], key, k);
        assert KeyClass(r, key, k) == KeyClass(s, key, k);
        var p := KeyClass([r[0]], key, k);
        assert [r[0]] == [s[0]];
        assert KeyClass(r[1..], key, k) == KeyClass(r, key, k)[|p|..];
        assert KeyClass(s[1..], key, k) == KeyClass(s, key, k)[|p|..];
      }
      StableSortUnique(r[1..], s[1..], key);
    }
  }

  lemma KeyClassOfHead<T>(s: seq<T>, key: T -> real)
    requires s != []
    ensures KeyClass(s, key, key(s[0])) != []
  {
  }

  /** In a descending sequence headed by a key below `k`, no element has
      key `k`. */
  lemma {:induction false} KeyClassAllBelow<T>(s: seq<T>, key: T -> real, k: real)
    requires Descending(s, key)
    requires s != [] ==> key(s[0]) < k
    ensures KeyClass(s, key, k) == []
  {
    if s != [] {
      assert s == [s[0]] + s[1..];
      KeyClassAllBelow(s[1..], key, k);
    }
  }

  /** `SortDesc` is the only stable descending reordering of `s`. */
  lemma SortDescIsTheStableSort<T>(s: seq<T>, key: T -> real, r: seq<T>)
    requires Descending(r, key)
    requires StablyReordered(r, s, key)
    ensures r == SortDesc(s, key)
  {
    SortDescStable(s, key);
    var t := SortDesc(s, key);
    forall k ensures KeyClass(r, key, k) == KeyClass(t, key, k) {
    }
    StableSortUnique(r, t, key);
  }

  /** Sorting an already descending sequence changes nothing, so sorting
      twice is sorting once. */
  lemma SortDescKeepsDescending<T>(s: seq<T>, key: T -> real)
    requires Descending(s, key)
    ensures SortDesc(s, key) == s
    ensures SortDesc(SortDesc(s, key), key) == SortDesc(s, key)
  {
    SortDescIsTheStableSort(s, key, s);
  }

  // ----- strings -----

  /** Python's `a <= b` on str: code-point lexicographic order. */
  predicate LexLe(a: string, b: string) {
    a == [] || (b != [] && (a[0] < b[0] || (a[0] == b[0] && LexLe(a[1..], b[1..]))))
  }

  lemma {:induction false} LexLeTotal(a: string, b: string)
    ensures LexLe(a, b) || LexLe(b, a)
  {
    if a != [] && b != [] && a[0] == b[0] {
      LexLeTotal(a[1..], b[1..]);
    }
  }

  lemma {:induction false} LexLeTransitive(a: string, b: string, c: string)
    requires LexLe(a, b) && LexLe(b, c)
    ensures LexLe(a, c)
  {
    if a != [] && b != [] && c != [] && a[0] == b[0] && b[0] == c[0] {
      LexLeTransitive(a[1..], b[1..], c[1..]);
    }
  }

  lemma {:induction false} LexLeAntisymmetric(a: string, b: string)
    requires LexLe(a, b) && LexLe(b, a)
    ensures a == b
  {
    if a != [] && b != [] {
      LexLeAntisymmetric(a[1..], b[1..]);
      assert a == [a[0]] + a[1..] && b == [b[0]] + b[1..];
    }
  }

  predicate LexSorted(s: seq<string>) {
    forall i, j :: 0 <= i < j < |s| ==> LexLe(s[i], s[j])
  }

  function LexInsert(x: string, s: seq<string>): (r: seq<string>)
    ensures multiset(r) == multiset(s) + multiset{x}
    ensures |r| == |s| + 1
  {
    if s == [] || LexLe(x, s[0]) then [x] + s
    else
      assert s == [s[0]] + s[1..];
      [s[0]] + LexInsert(x, s[1..])
  }

  lemma {:induction false} LexInsertSorted(x: string, s: seq<string>)
    requires LexSorted(s)
    ensures LexSorted(LexInsert(x, s))
  {
    var r := LexInsert(x, s);
    if s == [] || LexLe(x, s[0]) {
      forall i, j | 0 <= i < j < |r| ensures LexLe(r[i], r[j]) {
        if i == 0 && j > 1 { LexLeTransitive(x, s[0], s[j - 1]); }
      }
    } else {
      LexLeTotal(x, s[0]);
      var t := LexInsert(x, s[1..]);
      LexInsertSorted(x, s[1..]);
      forall i, j | 0 <= i < j < |r| ensures LexLe(r[i], r[j]) {
        if i == 0 {
          assert r[j] in multiset(t);
          assert r[j] == x || r[j] in s[1..];
        }
      }
    }
  }

  /** `sorted(items)` for strings. */
  function LexSort(s: seq<string>): (r: seq<string>)
    ensures LexSorted(r)
    ensures multiset(r) == multiset(s)
    ensures |r| == |s|
  {
    if s == [] then []
    else
      assert s == [s[0]] + s[1..];
      var t := LexSort(s[1..]);
      LexInsertSorted(s[0], t);
      LexInsert(s[0], t)
  }
}
