/** `buildToneCrossMaps`: two nested tables over the records of both source
    tables, Cantonese tone → Mandarin tone → characters (`c2m`) and the
    same pairs the other way round (`m2c`), each innermost list holding the
    first record of every character, sorted by character. */
module Cross {
  import opened Common
  import opened Romanization
  import opened Sorting
  import opened Scan
  import opened Tones

  /** Outer tone → inner tone → records. */
  type Nested = map<string, map<string, seq<Record>>>

  datatype CrossMaps = CrossMaps(c2m: Nested, m2c: Nested)

  /** The list at `m[a][b]`, or none. */
  function Cell(m: Nested, a: string, b: string): seq<Record>
  {
    if a in m && b in m[a] then m[a][b] else []
  }

  /** The first digit of the field, as a one-character string
      (`String(field).match(/\d/)`), or none when the field is missing. */
  function FirstDigitOf(field: Option<string>): (d: Option<string>)
    ensures d.Some? ==> |d.value| == 1 && IsDigit(d.value[0])
  {
    match field
    case None => None
    case Some(s) =>
      match FirstDigit(s)
      case None => None
      case Some(c) => Some([c])
  }

  /** `(ct, mt)`: the first digit of the jyutping and of the pinyin, when
      both exist. */
  function CrossTones(r: Record): Option<(string, string)>
  {
    match (FirstDigitOf(r.jyutping), FirstDigitOf(r.pinyin))
    case (Some(ct), Some(mt)) => Some((ct, mt))
    case _ => None
  }

  /** Both tones known to their language's name table. */
  predicate CrossValid(ct: string, mt: string)
  {
    ValidTone(Cantonese, ct) && ValidTone(Mandarin, mt)
  }

  /** `if (!m[a][b].has(ch)) m[a][b].set(ch, chObj)`, creating the inner
      table and the list on first use. */
  function Insert(m: Nested, a: string, b: string, r: Record): Nested
  {
    var inner := if a in m then m[a] else map[];
    var cell := Cell(m, a, b);
    if HasCh(cell, r.ch) then m[a := inner[b := cell]] else m[a := inner[b := cell + [r]]]
  }

  /** `add(ct, mt, chObj)` for one record: both tables take the record, or
      neither does. */
  function AddCross(s: CrossMaps, r: Record): CrossMaps
  {
    match CrossTones(r)
    case None => s
    case Some((ct, mt)) =>
      if CrossValid(ct, mt) then CrossMaps(Insert(s.c2m, ct, mt, r), Insert(s.m2c, mt, ct, r))
      else s
  }

  function CrossStep(): (CrossMaps, Record) -> CrossMaps
  {
    (s, r) => AddCross(s, r)
  }

  /** The records whose tones are `(ct, mt)`, both known, in visiting order. */
  function Paired(rs: seq<Record>, ct: string, mt: string): seq<Record>
  {
    if rs == [] then []
    else
      var x := rs[|rs| - 1];
      Paired(rs[..|rs| - 1], ct, mt)
        + (if CrossTones(x) == Some((ct, mt)) && CrossValid(ct, mt) then [x] else [])
  }

  /** An insertion at `[a][b]` leaves every other place as it was. */
  lemma InsertOther(m: Nested, a: string, b: string, r: Record, a': string, b': string)
    requires a != a' || b != b'
    ensures Cell(Insert(m, a, b, r), a', b') == Cell(m, a', b')
    ensures a' in Insert(m, a, b, r) && b' in Insert(m, a, b, r)[a'] <==> a' in m && b' in m[a']
  {
  }

  /** An insertion at `[a][b]` creates that place and appends `r` unless its
      character is already there. */
  lemma InsertSame(m: Nested, a: string, b: string, r: Record)
    ensures a in Insert(m, a, b, r) && b in Insert(m, a, b, r)[a]
    ensures Cell(Insert(m, a, b, r), a, b)
      == if HasCh(Cell(m, a, b), r.ch) then Cell(m, a, b) else Cell(m, a, b) + [r]
  {
  }

  /** One insertion keeps "the list at `[a'][b']` is the first-of-each-
      character of `p`, and exists exactly when `p` is non-empty", with `r`
      added to `p` when it goes to that very place. */
  lemma InsertStep(m: Nested, a: string, b: string, r: Record, a': string, b': string,
                   p: seq<Record>)
    requires Cell(m, a', b') == Dedup(p)
    requires a' in m && b' in m[a'] <==> p != []
    ensures var p' := p + (if a == a' && b == b' then [r] else []);
      && Cell(Insert(m, a, b, r), a', b') == Dedup(p')
      && (a' in Insert(m, a, b, r) && b' in Insert(m, a, b, r)[a'] <==> p' != [])
  {
    if a == a' && b == b' {
      var p' := p + [r];
      assert p'[..|p|] == p;
      assert Dedup(p') == if HasCh(Dedup(p), r.ch) then Dedup(p) else Dedup(p) + [r];
      InsertSame(m, a, b, r);
    } else {
      assert p + [] == p;
      InsertOther(m, a, b, r, a', b');
    }
  }

  /** The raw `c2m` after any run of records holds at `[ct][mt]` the records
      with those tones, the first record of each character only, and has
      that place exactly when there is such a record. */
  lemma {:induction false} CrossFoldC2M(rs: seq<Record>, ct: string, mt: string)
    ensures var s := Fold(CrossMaps(map[], map[]), rs, CrossStep());
      && Cell(s.c2m, ct, mt) == Dedup(Paired(rs, ct, mt))
      && (ct in s.c2m && mt in s.c2m[ct] <==> Paired(rs, ct, mt) != [])
  {
    if rs != [] {
      var prev := rs[..|rs| - 1];
      var x := rs[|rs| - 1];
      var s := Fold(CrossMaps(map[], map[]), prev, CrossStep());
      CrossFoldC2M(prev, ct, mt);
      var s' := AddCross(s, x);
      assert Fold(CrossMaps(map[], map[]), rs, CrossStep()) == s';
      var paired := Paired(prev, ct, mt);
      match CrossTones(x)
      case None =>
        assert Paired(rs, ct, mt) == paired + [] == paired;
        assert s' == s;
      case Some((ct0, mt0)) =>
        var added := if CrossValid(ct0, mt0) && ct0 == ct && mt0 == mt then [x] else [];
        assert Paired(rs, ct, mt) == paired + added;
        if CrossValid(ct0, mt0) {
          assert s'.c2m == Insert(s.c2m, ct0, mt0, x);
          InsertStep(s.c2m, ct0, mt0, x, ct, mt, paired);
        } else {
          assert s' == s;
          assert paired + added == paired;
        }
    }
  }

  /** The same for the raw `m2c` at `[mt][ct]`. */
  lemma {:induction false} CrossFoldM2C(rs: seq<Record>, ct: string, mt: string)
    ensures var s := Fold(CrossMaps(map[], map[]), rs, CrossStep());
      && Cell(s.m2c, mt, ct) == Dedup(Paired(rs, ct, mt))
      && (mt in s.m2c && ct in s.m2c[mt] <==> Paired(rs, ct, mt) != [])
  {
    if rs != [] {
      var prev := rs[..|rs| - 1];
      var x := rs[|rs| - 1];
      var s := Fold(CrossMaps(map[], map[]), prev, CrossStep());
      CrossFoldM2C(prev, ct, mt);
      var s' := AddCross(s, x);
      assert Fold(CrossMaps(map[], map[]), rs, CrossStep()) == s';
      var paired := Paired(prev, ct, mt);
      match CrossTones(x)
      case None =>
        assert Paired(rs, ct, mt) == paired + [] == paired;
        assert s' == s;
      case Some((ct0, mt0)) =>
        var added := if CrossValid(ct0, mt0) && ct0 == ct && mt0 == mt then [x] else [];
        assert Paired(rs, ct, mt) == paired + added;
        if CrossValid(ct0, mt0) {
          assert s'.m2c == Insert(s.m2c, mt0, ct0, x);
          InsertStep(s.m2c, mt0, ct0, x, mt, ct, paired);
        } else {
          assert s' == s;
          assert paired + added == paired;
        }
    }
  }

  /** No outer key without an inner key, no empty list, and only known tones
      on either level. */
  predicate WellShaped(m: Nested, outer: Lang, inner: Lang)
  {
    forall a :: a in m ==>
      && ValidTone(outer, a)
      && m[a] != map[]
      && forall b :: b in m[a] ==> ValidTone(inner, b) && m[a][b] != []
  }

  lemma InsertShape(m: Nested, a: string, b: string, r: Record, outer: Lang, inner: Lang)
    requires WellShaped(m, outer, inner) && ValidTone(outer, a) && ValidTone(inner, b)
    ensures WellShaped(Insert(m, a, b, r), outer, inner)
  {
    var m' := Insert(m, a, b, r);
    var row := if a in m then m[a] else map[];
    var cell := Cell(m, a, b);
    var cell' := if HasCh(cell, r.ch) then cell else cell + [r];
    assert m' == m[a := row[b := cell']];
    assert cell' != [];
    forall a' | a' in m'
      ensures ValidTone(outer, a') && m'[a'] != map[]
      ensures forall b' :: b' in m'[a'] ==> ValidTone(inner, b') && m'[a'][b'] != []
    {
      if a' == a {
        assert b in m'[a];
        forall b' | b' in m'[a] ensures ValidTone(inner, b') && m'[a][b'] != [] {
          if b' != b {
            assert m'[a][b'] == m[a][b'];
          }
        }
      }
    }
  }

  lemma {:induction false} CrossFoldShape(rs: seq<Record>)
    ensures var s := Fold(CrossMaps(map[], map[]), rs, CrossStep());
      WellShaped(s.c2m, Cantonese, Mandarin) && WellShaped(s.m2c, Mandarin, Cantonese)
  {
    if rs != [] {
      var prev := rs[..|rs| - 1];
      var x := rs[|rs| - 1];
      var s := Fold(CrossMaps(map[], map[]), prev, CrossStep());
      CrossFoldShape(prev);
      assert Fold(CrossMaps(map[], map[]), rs, CrossStep()) == AddCross(s, x);
      match CrossTones(x)
      case None =>
      case Some((ct, mt)) =>
        if CrossValid(ct, mt) {
          InsertShape(s.c2m, ct, mt, x, Cantonese, Mandarin);
          InsertShape(s.m2c, mt, ct, x, Mandarin, Cantonese);
        }
    }
  }

  // ---------------------------------------------------------------------
  // `mapToArray`: every list sorted by character

  function SortNested(m: Nested): (r: Nested)
    ensures r.Keys == m.Keys
    ensures forall a :: a in m ==> r[a].Keys == m[a].Keys
    ensures forall a, b :: a in m && b in m[a] ==> r[a][b] == SortByChar(m[a][b])
  {
    map a | a in m :: SortAll(m[a])
  }

  method MapToArray(m: Nested) returns (out: Nested)
    ensures out == SortNested(m)
  {
    out := map[];
    var todo := m.Keys;
    while todo != {}
      invariant todo <= m.Keys
      invariant out == map a | a in m && a !in todo :: SortAll(m[a])
      decreases |todo|
    {
      var k :| k in todo;
      var sorted := SortBuckets(m[k]);
      out := out[k := sorted];
      todo := todo - {k};
    }
  }

  /** The pair of tables `buildToneCrossMaps` returns. */
  function ToneCross(initialsSource: Table<SourceGroup>, finalsSource: Table<SourceGroup>): CrossMaps
  {
    var s := Fold(CrossMaps(map[], map[]), AllRecords(initialsSource, finalsSource), CrossStep());
    CrossMaps(SortNested(s.c2m), SortNested(s.m2c))
  }

  method BuildToneCrossMaps(initialsSource: Table<SourceGroup>, finalsSource: Table<SourceGroup>)
    returns (cross: CrossMaps)
    ensures cross == ToneCross(initialsSource, finalsSource)
  {
    var s := CrossMaps(map[], map[]);
    s := Consume(initialsSource, s, CrossStep());
    s := Consume(finalsSource, s, CrossStep());
    FoldAppend(CrossMaps(map[], map[]), Flatten(initialsSource, SourceChars),
               Flatten(finalsSource, SourceChars), CrossStep());
    var c2m := MapToArray(s.c2m);
    var m2c := MapToArray(s.m2c);
    cross := CrossMaps(c2m, m2c);
  }

  /** The two tables mirror each other: `c2m[ct][mt]` and `m2c[mt][ct]`
      exist together and hold the same list. That list is the records of
      either table, initials first, whose jyutping's first digit is `ct` and
      whose pinyin's first digit is `mt`, both known tones, the first record
      of each character only, sorted strictly by character. */
  lemma ToneCrossProperties(initialsSource: Table<SourceGroup>, finalsSource: Table<SourceGroup>,
                            ct: string, mt: string)
    ensures var x := ToneCross(initialsSource, finalsSource);
      var paired := Paired(AllRecords(initialsSource, finalsSource), ct, mt);
      && (ct in x.c2m && mt in x.c2m[ct] <==> mt in x.m2c && ct in x.m2c[mt])
      && Cell(x.c2m, ct, mt) == Cell(x.m2c, mt, ct)
      && (ct in x.c2m && mt in x.c2m[ct] <==> paired != [])
      && SortedByChar(Cell(x.c2m, ct, mt))
      && multiset(Cell(x.c2m, ct, mt)) == multiset(Dedup(paired))
      && forall c :: FirstCh(Cell(x.c2m, ct, mt), c) == FirstCh(paired, c)
  {
    var rs := AllRecords(initialsSource, finalsSource);
    var paired := Paired(rs, ct, mt);
    var x := ToneCross(initialsSource, finalsSource);
    CrossFoldC2M(rs, ct, mt);
    CrossFoldM2C(rs, ct, mt);
    DedupSpec(paired);
    var bucket := Dedup(paired);
    SortByCharSorted(bucket);
    assert Cell(x.c2m, ct, mt) == SortByChar(bucket);
    assert Cell(x.m2c, mt, ct) == SortByChar(bucket);
    forall c ensures FirstCh(Cell(x.c2m, ct, mt), c) == FirstCh(paired, c) {
      FirstChPermutation(bucket, Cell(x.c2m, ct, mt), c);
    }
  }

  lemma SortNestedShape(m: Nested, outer: Lang, inner: Lang)
    requires WellShaped(m, outer, inner)
    ensures WellShaped(SortNested(m), outer, inner)
  {
    var r := SortNested(m);
    forall a | a in m ensures r[a] != map[] {
      var b :| b in m[a];
      assert b in r[a];
    }
    forall a, b | a in m && b in m[a] ensures r[a][b] != [] {
      assert m[a][b][0] in multiset(r[a][b]);
    }
  }

  /** The finished tables have the same shape as the raw ones: every key a
      known tone of its language, no empty inner table, no empty list. */
  lemma ToneCrossShape(initialsSource: Table<SourceGroup>, finalsSource: Table<SourceGroup>)
    ensures var x := ToneCross(initialsSource, finalsSource);
      WellShaped(x.c2m, Cantonese, Mandarin) && WellShaped(x.m2c, Mandarin, Cantonese)
  {
    var s := Fold(CrossMaps(map[], map[]), AllRecords(initialsSource, finalsSource), CrossStep());
    CrossFoldShape(AllRecords(initialsSource, finalsSource));
    SortNestedShape(s.c2m, Cantonese, Mandarin);
    SortNestedShape(s.m2c, Mandarin, Cantonese);
  }
}
