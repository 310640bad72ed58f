/** `buildToneData`: buckets every character of both source tables by the
    tone digit of one language's romanization, keeping the first record of
    each character per tone, then sorts each bucket by character. */
module Tones {
  import opened Common
  import opened Romanization
  import opened Sorting
  import opened Scan

  datatype Lang = Cantonese | Mandarin

  // ---------------------------------------------------------------------
  // Tone names (`toneMetaCantonese`, `toneMetaMandarin`)

  function CantoneseToneName(t: string): Option<string>
  {
    if t == "1" then Some("阴平")
    else if t == "2" then Some("阴上")
    else if t == "3" then Some("阴去")
    else if t == "4" then Some("阳平")
    else if t == "5" then Some("阳上")
    else if t == "6" then Some("阳去")
    else None
  }

  function MandarinToneName(t: string): Option<string>
  {
    if t == "1" then Some("阴平")
    else if t == "2" then Some("阳平")
    else if t == "3" then Some("上")
    else if t == "4" then Some("去")
    else None
  }

  function ToneName(lang: Lang, t: string): Option<string>
  {
    match lang
    case Cantonese => CantoneseToneName(t)
    case Mandarin => MandarinToneName(t)
  }

  /** A tone the language's name table knows. */
  predicate ValidTone(lang: Lang, t: string)
  {
    ToneName(lang, t).Some?
  }

  function MaxTone(lang: Lang): char
  {
    match lang
    case Cantonese => '6'
    case Mandarin => '4'
  }

  /** The whitelist: Cantonese tones are the digits 1 to 6, Mandarin tones
      the digits 1 to 4. */
  lemma ValidToneRange(lang: Lang, t: string)
    ensures ValidTone(lang, t) <==> |t| == 1 && '1' <= t[0] <= MaxTone(lang)
  {
    if |t| == 1 && '1' <= t[0] <= MaxTone(lang) {
      assert t == [t[0]];
      assert t[0] == '1' || t[0] == '2' || t[0] == '3' || t[0] == '4'
        || t[0] == '5' || t[0] == '6';
    }
  }

  // ---------------------------------------------------------------------
  // The tone of one record

  /** `chObj.jyutping` for Cantonese, `chObj.pinyin` for Mandarin. */
  function ToneField(r: Record, lang: Lang): Option<string>
  {
    match lang
    case Cantonese => r.jyutping
    case Mandarin => r.pinyin
  }

  /** The digit of the first letters-then-digit match
      (`/([a-zA-Z]+)(\d)/`), if the language knows it as a tone. */
  function ToneOf(r: Record, lang: Lang): (t: Option<string>)
    ensures t.Some? ==> ValidTone(lang, t.value)
  {
    match ToneField(r, lang)
    case None => None
    case Some(s) =>
      match FindToken(s, 0)
      case None => None
      case Some(m) => if ValidTone(lang, [s[m.1]]) then Some([s[m.1]]) else None
  }

  /** The tone is the digit ending the leftmost letters-then-digit token of
      the field, when the language knows it, and there is no tone otherwise;
      a missing field or a field without such a token has none. */
  lemma ToneOfToken(r: Record, lang: Lang)
    ensures ToneField(r, lang).None? ==> ToneOf(r, lang).None?
    ensures ToneField(r, lang).Some? ==>
      var s := ToneField(r, lang).value;
      && ((forall i, j :: !TokenAt(s, i, j)) ==> ToneOf(r, lang).None?)
      && (forall i, j :: TokenAt(s, i, j) && (forall i', j' :: 0 <= i' < i ==> !TokenAt(s, i', j'))
            ==> ToneOf(r, lang) == if ValidTone(lang, [s[j]]) then Some([s[j]]) else None)
  {
    if ToneField(r, lang).Some? {
      var s := ToneField(r, lang).value;
      forall i, j | TokenAt(s, i, j) && (forall i', j' :: 0 <= i' < i ==> !TokenAt(s, i', j'))
        ensures ToneOf(r, lang) == if ValidTone(lang, [s[j]]) then Some([s[j]]) else None
      {
        var m := FindToken(s, 0).value;
        assert !(m.0 < i) && !(i < m.0);
        TokenEndUnique(s, i, j, m.1);
      }
    }
  }

  /** A jyutping with a tone the table does not know (`"si7"`) has no tone. */
  lemma ToneOfExamples()
    ensures ToneOf(Record("诗", Some("si1"), Some("shi1")), Cantonese) == Some("1")
    ensures ToneOf(Record("诗", Some("si1"), Some("shi1")), Mandarin) == Some("1")
    ensures ToneOf(Record("诗", Some("si7"), None), Cantonese) == None
    ensures ToneOf(Record("诗", Some("si1"), None), Mandarin) == None
  {
    var s := "si1";
    assert TokenAt(s, 0, 2);
    assert FindToken(s, 0).Some?;
    assert FindToken(s, 0).value == (0, 2) by {
      var m := FindToken(s, 0).value;
      assert !(0 < m.0);
      TokenEndUnique(s, 0, 2, m.1);
    }
    var p := "shi1";
    assert TokenAt(p, 0, 3);
    assert FindToken(p, 0).value == (0, 3) by {
      var m := FindToken(p, 0).value;
      assert !(0 < m.0);
      TokenEndUnique(p, 0, 3, m.1);
    }
    var q := "si7";
    assert TokenAt(q, 0, 2);
    assert FindToken(q, 0).value == (0, 2) by {
      var m := FindToken(q, 0).value;
      assert !(0 < m.0);
      TokenEndUnique(q, 0, 2, m.1);
    }
  }

  // ---------------------------------------------------------------------
  // Buckets

  type ToneBuckets = map<string, seq<Record>>

  /** The bucket of tone `t`, or none. */
  function BucketOf(m: ToneBuckets, t: string): seq<Record>
  {
    if t in m then m[t] else []
  }

  /** `addChar`: a record with a known tone joins that tone's bucket unless
      the bucket already holds its character. */
  function AddChar(m: ToneBuckets, r: Record, lang: Lang): ToneBuckets
  {
    match ToneOf(r, lang)
    case None => m
    case Some(t) =>
      var b := BucketOf(m, t);
      if HasCh(b, r.ch) then m[t := b] else m[t := b + [r]]
  }

  function ToneStep(lang: Lang): (ToneBuckets, Record) -> ToneBuckets
  {
    (m, r) => AddChar(m, r, lang)
  }

  /** Every record of both tables, the initials table first. */
  function AllRecords(initialsSource: Table<SourceGroup>, finalsSource: Table<SourceGroup>): seq<Record>
  {
    Flatten(initialsSource, SourceChars) + Flatten(finalsSource, SourceChars)
  }

  /** The records with tone `t`, in visiting order. */
  function Toned(rs: seq<Record>, lang: Lang, t: string): seq<Record>
  {
    if rs == [] then []
    else
      var x := rs[|rs| - 1];
      Toned(rs[..|rs| - 1], lang, t) + (if ToneOf(x, lang) == Some(t) then [x] else [])
  }

  /** After any run of `addChar`, tone `t` has a bucket exactly when some
      record has that tone, and the bucket is those records with the
      repeated characters dropped, the first record of each kept. */
  lemma {:induction false} ToneFold(rs: seq<Record>, lang: Lang, t: string)
    ensures t in Fold(map[], rs, ToneStep(lang)) <==> Toned(rs, lang, t) != []
    ensures BucketOf(Fold(map[], rs, ToneStep(lang)), t) == Dedup(Toned(rs, lang, t))
  {
    if rs != [] {
      var prev := rs[..|rs| - 1];
      var x := rs[|rs| - 1];
      var m := Fold(map[], prev, ToneStep(lang));
      ToneFold(prev, lang, t);
      assert Fold(map[], rs, ToneStep(lang)) == AddChar(m, x, lang);
      var toned := Toned(prev, lang, t);
      if ToneOf(x, lang) == Some(t) {
        assert Toned(rs, lang, t) == toned + [x];
        assert (toned + [x])[..|toned|] == toned;
      } else {
        assert Toned(rs, lang, t) == toned + [];
        assert toned + [] == toned;
      }
    }
  }

  // ---------------------------------------------------------------------
  // Sorting each bucket

  function SortAll(m: ToneBuckets): (r: ToneBuckets)
    ensures r.Keys == m.Keys
    ensures forall t :: t in m ==> r[t] == SortByChar(m[t])
  {
    map t | t in m :: SortByChar(m[t])
  }

  /** `for (const t in target) target[t].sort(...)`. */
  method SortBuckets(m: ToneBuckets) returns (r: ToneBuckets)
    ensures r == SortAll(m)
  {
    r := m;
    var todo := m.Keys;
    while todo != {}
      invariant todo <= m.Keys && r.Keys == m.Keys
      invariant forall t :: t in m ==> r[t] == if t in todo then m[t] else SortByChar(m[t])
      decreases |todo|
    {
      var t :| t in todo;
      r := r[t := SortByChar(r[t])];
      todo := todo - {t};
    }
  }

  /** The tone table `buildToneData(initialsSource, finalsSource, mode)`
      returns. */
  function ToneData(initialsSource: Table<SourceGroup>, finalsSource: Table<SourceGroup>,
                    lang: Lang): ToneBuckets
  {
    SortAll(Fold(map[], AllRecords(initialsSource, finalsSource), ToneStep(lang)))
  }

  method BuildToneData(initialsSource: Table<SourceGroup>, finalsSource: Table<SourceGroup>,
                       lang: Lang)
    returns (target: ToneBuckets)
    ensures target == ToneData(initialsSource, finalsSource, lang)
  {
    target := map[];
    target := Consume(initialsSource, target, ToneStep(lang));
    target := Consume(finalsSource, target, ToneStep(lang));
    FoldAppend(map[], Flatten(initialsSource, SourceChars), Flatten(finalsSource, SourceChars),
               ToneStep(lang));
    target := SortBuckets(target);
  }

  /** Every key of the tone table is a known tone of the language, with a
      non-empty bucket, sorted strictly by character (so no character twice),
      holding for each character the first record of either table, initials
      first, that has this tone and character, and nothing else. */
  lemma ToneDataProperties(initialsSource: Table<SourceGroup>, finalsSource: Table<SourceGroup>,
                           lang: Lang, t: string)
    ensures var d := ToneData(initialsSource, finalsSource, lang);
      var toned := Toned(AllRecords(initialsSource, finalsSource), lang, t);
      && (t in d <==> toned != [])
      && (t in d ==> ValidTone(lang, t) && d[t] != [])
      && (t in d ==> SortedByChar(d[t]) && multiset(d[t]) == multiset(Dedup(toned)))
      && (t in d ==> forall c :: FirstCh(d[t], c) == FirstCh(toned, c))
  {
    var rs := AllRecords(initialsSource, finalsSource);
    var toned := Toned(rs, lang, t);
    var d := ToneData(initialsSource, finalsSource, lang);
    ToneFold(rs, lang, t);
    DedupSpec(toned);
    if t in d {
      var bucket := Dedup(toned);
      TonedHaveTone(rs, lang, t);
      assert toned[0] in toned;
      assert ValidTone(lang, t);
      SortByCharSorted(bucket);
      forall c ensures FirstCh(d[t], c) == FirstCh(toned, c) {
        FirstChPermutation(bucket, d[t], c);
      }
    }
  }

  lemma {:induction false} TonedHaveTone(rs: seq<Record>, lang: Lang, t: string)
    ensures forall x :: x in Toned(rs, lang, t) ==> ToneOf(x, lang) == Some(t)
  {
    if rs != [] {
      TonedHaveTone(rs[..|rs| - 1], lang, t);
    }
  }
}
