/** The two orderings the index builder sorts by, as stable insertion sorts
    standing for `Array.prototype.sort` (which is stable):
    - buckets of records by character, ascending (`a.char.localeCompare(b.char)`,
      taken here as code-point lexicographic order);
    - groups by an integer measure, descending (`b.percentage - a.percentage`,
      `b.chars.length - a.chars.length`). */
module Sorting {
  import opened Common

  // ---------------------------------------------------------------------
  // Code-point lexicographic order on strings.

  predicate LexLess(a: string, b: string)
  {
    if a == [] then b != []
    else if b == [] then false
    else a[0] < b[0] || (a[0] == b[0] && LexLess(a[1..], b[1..]))
  }

  lemma {:induction false} LexIrreflexive(a: string)
    ensures !LexLess(a, a)
  {
    if a != [] { LexIrreflexive(a[1..]); }
  }

  lemma {:induction false} LexTrichotomy(a: string, b: string)
    ensures a == b || LexLess(a, b) || LexLess(b, a)
  {
    if a != [] && b != [] && a[0] == b[0] {
      LexTrichotomy(a[1..], b[1..]);
      if a[1..] == b[1..] {
        assert a == [a[0]] + a[1..] && b == [b[0]] + b[1..];
      }
    }
  }

  lemma {:induction false} LexTransitive(a: string, b: string, c: string)
    requires LexLess(a, b) && LexLess(b, c)
    ensures LexLess(a, c)
  {
    if a != [] && a[0] == b[0] && b[0] == c[0] {
      LexTransitive(a[1..], b[1..], c[1..]);
    }
  }

  // ---------------------------------------------------------------------
  // Records by character, ascending.

  /** Every record comes strictly before the later ones, so no character
      is repeated. */
  predicate SortedByChar(s: seq<Record>)
  {
    forall i, j :: 0 <= i < j < |s| ==> LexLess(s[i].ch, s[j].ch)
  }

  /** Inserts `x` before the first record whose character is not smaller. */
  function InsertByChar(x: Record, s: seq<Record>): (r: seq<Record>)
    ensures multiset(r) == multiset(s) + multiset{x}
    ensures |r| == |s| + 1
  {
    if s == [] || !LexLess(s[0].ch, x.ch) then [x] + s
    else
      assert s == [s[0]] + s[1..];
      [s[0]] + InsertByChar(x, s[1..])
  }

  function SortByChar(s: seq<Record>): (r: seq<Record>)
    ensures multiset(r) == multiset(s)
    ensures |r| == |s|
  {
    if s == [] then []
    else
      assert s == [s[0]] + s[1..];
      InsertByChar(s[0], SortByChar(s[1..]))
  }

  lemma SortedNoDup(s: seq<Record>)
    requires SortedByChar(s)
    ensures NoDupChars(s)
  {
    forall i, j | 0 <= i < j < |s| ensures s[i].ch != s[j].ch {
      LexIrreflexive(s[i].ch);
    }
  }

  lemma {:induction false} InsertByCharSorted(x: Record, s: seq<Record>)
    requires SortedByChar(s)
    requires forall y :: y in s ==> y.ch != x.ch
    ensures SortedByChar(InsertByChar(x, s))
  {
    if s == [] {
    } else if !LexLess(s[0].ch, x.ch) {
      InsertByCharFront(x, s);
    } else {
      var tail := s[1..];
      assert SortedByChar(tail) by {
        forall i, j | 0 <= i < j < |tail| ensures LexLess(tail[i].ch, tail[j].ch) {
          assert tail[i] == s[i + 1] && tail[j] == s[j + 1];
        }
      }
      assert forall y :: y in tail ==> y in s;
      InsertByCharSorted(x, tail);
      InsertByCharBehind(x, s);
    }
  }

  /** `x` goes in front when it is smaller than the first record. */
  lemma InsertByCharFront(x: Record, s: seq<Record>)
    requires SortedByChar(s) && s != []
    requires x.ch != s[0].ch && !LexLess(s[0].ch, x.ch)
    ensures SortedByChar([x] + s)
  {
    LexTrichotomy(x.ch, s[0].ch);
    var r := [x] + s;
    forall i, j | 0 <= i < j < |r| ensures LexLess(r[i].ch, r[j].ch) {
      if i == 0 && j > 1 {
        LexTransitive(x.ch, s[0].ch, s[j - 1].ch);
      } else if i > 0 {
        assert r[i] == s[i - 1] && r[j] == s[j - 1];
      }
    }
  }

  /** Otherwise the first record stays first, ahead of the sorted rest. */
  lemma InsertByCharBehind(x: Record, s: seq<Record>)
    requires SortedByChar(s) && s != [] && LexLess(s[0].ch, x.ch)
    requires SortedByChar(InsertByChar(x, s[1..]))
    ensures SortedByChar(InsertByChar(x, s))
  {
    var tail := s[1..];
    var rest := InsertByChar(x, tail);
    var r := [s[0]] + rest;
    assert InsertByChar(x, s) == r;
    forall i, j | 0 <= i < j < |r| ensures LexLess(r[i].ch, r[j].ch) {
      var y := rest[j - 1];
      assert r[j] == y;
      if i == 0 {
        assert y in multiset(rest);
        if y != x {
          assert y in multiset(tail);
          var k :| 0 <= k < |tail| && tail[k] == y;
          assert s[k + 1] == y;
        }
      } else {
        assert r[i] == rest[i - 1];
      }
    }
  }

  /** A bucket without repeated characters comes out of the sort strictly
      ascending by character, holding the same records. */
  lemma {:induction false} SortByCharSorted(s: seq<Record>)
    requires NoDupChars(s)
    ensures SortedByChar(SortByChar(s))
    ensures NoDupChars(SortByChar(s))
  {
    if s != [] {
      var rest := s[1..];
      assert NoDupChars(rest) by {
        forall a, b | 0 <= a < b < |rest| ensures rest[a].ch != rest[b].ch {
          assert rest[a] == s[a + 1] && rest[b] == s[b + 1];
        }
      }
      SortByCharSorted(rest);
      var sorted := SortByChar(rest);
      forall y | y in sorted ensures y.ch != s[0].ch {
        assert y in multiset(sorted);
        var k :| 0 <= k < |rest| && rest[k] == y;
        assert s[k + 1] == y;
      }
      InsertByCharSorted(s[0], sorted);
    }
    SortedNoDup(SortByChar(s));
  }

  // ---------------------------------------------------------------------
  // Groups by an integer measure, descending and stable.

  predicate NonIncreasing<T>(s: seq<T>, key: T -> int)
  {
    forall i, j :: 0 <= i < j < |s| ==> key(s[i]) >= key(s[j])
  }

  /** The elements whose measure is `v`, in their order. */
  function KeyFilter<T>(s: seq<T>, key: T -> int, v: int): seq<T>
  {
    if s == [] then []
    else (if key(s[0]) == v then [s[0]] else []) + KeyFilter(s[1..], key, v)
  }

  /** Inserts `x` before the first element whose measure is not larger. */
  function InsertDesc<T>(x: T, s: seq<T>, key: T -> int): (r: seq<T>)
    ensures multiset(r) == multiset(s) + multiset{x}
    ensures |r| == |s| + 1
  {
    if s == [] || key(s[0]) <= key(x) then [x] + s
    else
      assert s == [s[0]] + s[1..];
      [s[0]] + InsertDesc(x, s[1..], key)
  }

  function SortDesc<T>(s: seq<T>, key: T -> int): (r: seq<T>)
    ensures multiset(r) == multiset(s)
    ensures |r| == |s|
  {
    if s == [] then []
    else
      assert s == [s[0]] + s[1..];
      InsertDesc(s[0], SortDesc(s[1..], key), key)
  }

  lemma {:induction false} InsertDescSorted<T>(x: T, s: seq<T>, key: T -> int)
    requires NonIncreasing(s, key)
    ensures NonIncreasing(InsertDesc(x, s, key), key)
  {
    if s != [] && key(s[0]) > key(x) {
      var tail := s[1..];
      assert NonIncreasing(tail, key) by {
        forall i, j | 0 <= i < j < |tail| ensures key(tail[i]) >= key(tail[j]) {
          assert tail[i] == s[i + 1] && tail[j] == s[j + 1];
        }
      }
      var rest := InsertDesc(x, tail, key);
      InsertDescSorted(x, tail, key);
      var r := [s[0]] + rest;
      forall i, j | 0 <= i < j < |r| ensures key(r[i]) >= key(r[j]) {
        var y := rest[j - 1];
        assert r[j] == y;
        if i == 0 {
          assert y in multiset(rest);
          if y != x {
            assert y in multiset(tail);
            var k :| 0 <= k < |tail| && tail[k] == y;
            assert s[k + 1] == y;
          }
        } else {
          assert r[i] == rest[i - 1];
        }
      }
    }
  }

  lemma KeyFilterCons<T>(y: T, s: seq<T>, key: T -> int, v: int)
    ensures KeyFilter([y] + s, key, v) == (if key(y) == v then [y] else []) + KeyFilter(s, key, v)
  {
    assert ([y] + s)[1..] == s;
  }

  /** Inserting never reorders elements of equal measure: `x` only passes
      elements whose measure is larger than its own. */
  lemma {:induction false} InsertDescStable<T>(x: T, s: seq<T>, key: T -> int, v: int)
    ensures KeyFilter(InsertDesc(x, s, key), key, v) == KeyFilter([x] + s, key, v)
  {
    if s != [] && key(s[0]) > key(x) {
      var tail := s[1..];
      var rest := InsertDesc(x, tail, key);
      InsertDescStable(x, tail, key, v);
      assert InsertDesc(x, s, key) == [s[0]] + rest;
      var fx := if key(x) == v then [x] else [];
      var f0 := if key(s[0]) == v then [s[0]] else [];
      var ft := KeyFilter(tail, key, v);
      KeyFilterCons(x, tail, key, v);
      KeyFilterCons(s[0], rest, key, v);
      KeyFilterCons(x, s, key, v);
      assert KeyFilter(s, key, v) == f0 + ft;
      if fx == [] {
        assert fx + ft == ft;
        assert fx + (f0 + ft) == f0 + ft;
      } else {
        assert f0 == [];
        assert f0 + (fx + ft) == fx + ft;
        assert f0 + ft == ft;
      }
    } else {
      assert InsertDesc(x, s, key) == [x] + s;
    }
  }

  /** The sort puts the groups in non-increasing order of the measure. */
  lemma {:induction false} SortDescSorted<T>(s: seq<T>, key: T -> int)
    ensures NonIncreasing(SortDesc(s, key), key)
  {
    if s != [] {
      SortDescSorted(s[1..], key);
      InsertDescSorted(s[0], SortDesc(s[1..], key), key);
    }
  }

  /** The sort is stable: the elements sharing one measure keep their
      relative order. */
  lemma {:induction false} SortDescStable<T>(s: seq<T>, key: T -> int, v: int)
    ensures KeyFilter(SortDesc(s, key), key, v) == KeyFilter(s, key, v)
  {
    if s != [] {
      var sorted := SortDesc(s[1..], key);
      SortDescStable(s[1..], key, v);
      InsertDescStable(s[0], sorted, key, v);
      assert ([s[0]] + sorted)[1..] == sorted;
    }
  }
}
