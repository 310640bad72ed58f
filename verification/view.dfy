/** `loadData(type, key)` without its HTML: which table the clicked key is
    read from, the "no data" case, and for the tones tab the grouping of the
    cross table's inner buckets into labelled groups with their shares,
    largest group first. */
module View {
  import opened Common
  import opened Sorting
  import opened Reverse
  import opened Tones
  import opened Cross

  /** The `type` argument: `'initials'`, `'finals'` or `'tones'`. */
  datatype Tab = InitialsTab | FinalsTab | TonesTab

  /** `currentDirection`: Cantonese to Mandarin (`'c2m'`) or back. */
  datatype Direction = C2M | M2C

  /** One group of the tones tab: the other language's tone label, its share
      in tenths of a percent, and its characters. */
  datatype ToneGroup = ToneGroup(targetToneLabel: string, percentage: int, chars: seq<Record>)

  /** What `loadData` renders: "no data", the groups of a forward table, of
      a reverse index, or of a tone. */
  datatype View =
    | NoData
    | SourceView(heading: string, sourceGroups: seq<SourceGroup>)
    | ReverseView(heading: string, reverseGroups: seq<RevGroup>)
    | ToneView(heading: string, toneGroups: seq<ToneGroup>)

  /** The language whose tones are the keys, and the one they map to. */
  function SourceLang(dir: Direction): Lang
  {
    match dir
    case C2M => Cantonese
    case M2C => Mandarin
  }

  function TargetLang(dir: Direction): Lang
  {
    match dir
    case C2M => Mandarin
    case M2C => Cantonese
  }

  /** `` `${meta[t]} (${t})` `` for a tone the table names, else `t` itself. */
  function ToneLabel(lang: Lang, t: string): string
  {
    match ToneName(lang, t)
    case Some(name) => name + " (" + t + ")"
    case None => t
  }

  lemma ToneLabelExamples()
    ensures ToneLabel(Mandarin, "3") == "上 (3)"
    ensures ToneLabel(Cantonese, "6") == "阳去 (6)"
    ensures ToneLabel(Mandarin, "5") == "5"
  {
  }

  // ---------------------------------------------------------------------
  // The tones tab

  /** The keys of a tone's inner table, in the order `Object.keys` gives
      for one-digit keys: ascending. */
  const DigitKeys: seq<string> := ["0", "1", "2", "3", "4", "5", "6", "7", "8", "9"]

  type Buckets = map<string, seq<Record>>

  /** The sizes of the buckets of the keys `ks`, summed. */
  function SizeOf(data: Buckets, ks: seq<string>): nat
  {
    if ks == [] then 0
    else
      var k := ks[|ks| - 1];
      SizeOf(data, ks[..|ks| - 1]) + (if k in data then |data[k]| else 0)
  }

  /** One group per present key of `ks`, in that order. */
  function Labelled(data: Buckets, ks: seq<string>, lang: Lang, total: nat): seq<ToneGroup>
  {
    if ks == [] then []
    else
      var k := ks[|ks| - 1];
      Labelled(data, ks[..|ks| - 1], lang, total)
        + (if k in data then [ToneGroup(ToneLabel(lang, k), Tenths(|data[k]|, total), data[k])] else [])
  }

  function GroupSize(g: ToneGroup): int { |g.chars| }

  /** The groups of one tone, labelled in `lang`, sorted by size,
      largest first. */
  function ToneGroups(data: Buckets, lang: Lang): seq<ToneGroup>
  {
    SortDesc(Labelled(data, DigitKeys, lang, SizeOf(data, DigitKeys)), GroupSize)
  }

  method BuildToneGroups(data: Buckets, lang: Lang) returns (groups: seq<ToneGroup>)
    ensures groups == ToneGroups(data, lang)
  {
    var total := 0;
    var n := 0;
    while n < |DigitKeys|
      invariant 0 <= n <= |DigitKeys|
      invariant total == SizeOf(data, DigitKeys[..n])
    {
      assert DigitKeys[..n + 1][..n] == DigitKeys[..n];
      var t := DigitKeys[n];
      if t in data {
        total := total + |data[t]|;
      }
      n := n + 1;
    }
    assert DigitKeys[..n] == DigitKeys;
    groups := [];
    n := 0;
    while n < |DigitKeys|
      invariant 0 <= n <= |DigitKeys|
      invariant groups == Labelled(data, DigitKeys[..n], lang, total)
    {
      assert DigitKeys[..n + 1][..n] == DigitKeys[..n];
      var t := DigitKeys[n];
      if t in data {
        var chars := data[t];
        var pct := Tenths(|chars|, total);
        groups := groups + [ToneGroup(ToneLabel(lang, t), pct, chars)];
      }
      n := n + 1;
    }
    assert DigitKeys[..n] == DigitKeys;
    groups := SortDesc(groups, GroupSize);
  }

  lemma {:induction false} SizeBelow(data: Buckets, ks: seq<string>, k: string)
    requires k in ks && k in data
    ensures |data[k]| <= SizeOf(data, ks)
  {
    var prev := ks[..|ks| - 1];
    if k != ks[|ks| - 1] {
      assert k in prev by {
        var i :| 0 <= i < |ks| && ks[i] == k;
        assert prev[i] == k;
      }
      SizeBelow(data, prev, k);
    }
  }

  /** Every present key of `ks` has its group, and every group is the group
      of a present key of `ks`. */
  lemma {:induction false} LabelledMembers(data: Buckets, ks: seq<string>, lang: Lang, total: nat)
    ensures forall t :: t in ks && t in data ==>
      ToneGroup(ToneLabel(lang, t), Tenths(|data[t]|, total), data[t]) in Labelled(data, ks, lang, total)
    ensures forall g :: g in Labelled(data, ks, lang, total) ==>
      exists t :: t in ks && t in data && g == ToneGroup(ToneLabel(lang, t), Tenths(|data[t]|, total), data[t])
  {
    if ks != [] {
      var prev := ks[..|ks| - 1];
      LabelledMembers(data, prev, lang, total);
      forall t | t in ks && t in data && t != ks[|ks| - 1] ensures t in prev {
        var i :| 0 <= i < |ks| && ks[i] == t;
        assert prev[i] == t;
      }
    }
  }

  /** The keys of `ks` that `data` holds. */
  function PresentKeys(data: Buckets, ks: seq<string>): set<string>
  {
    if ks == [] then {}
    else
      var k := ks[|ks| - 1];
      PresentKeys(data, ks[..|ks| - 1]) + (if k in data then {k} else {})
  }

  lemma {:induction false} PresentKeysIn(data: Buckets, ks: seq<string>, t: string)
    ensures t in PresentKeys(data, ks) <==> t in ks && t in data
  {
    if ks != [] {
      var prev := ks[..|ks| - 1];
      PresentKeysIn(data, prev, t);
      assert ks == prev + [ks[|ks| - 1]];
    }
  }

  /** With no key repeated in `ks`, there is one group per present key. */
  lemma {:induction false} LabelledCount(data: Buckets, ks: seq<string>, lang: Lang, total: nat)
    requires forall i, j :: 0 <= i < j < |ks| ==> ks[i] != ks[j]
    ensures |Labelled(data, ks, lang, total)| == |PresentKeys(data, ks)|
  {
    if ks != [] {
      var prev := ks[..|ks| - 1];
      var k := ks[|ks| - 1];
      LabelledCount(data, prev, lang, total);
      PresentKeysIn(data, prev, k);
    }
  }

  /** Each bucket of the tone gives one group and no more. */
  lemma ToneGroupsCount(data: Buckets, lang: Lang)
    requires forall t :: t in data ==> t in DigitKeys
    ensures |ToneGroups(data, lang)| == |data|
  {
    var total := SizeOf(data, DigitKeys);
    var l := Labelled(data, DigitKeys, lang, total);
    LabelledCount(data, DigitKeys, lang, total);
    forall t ensures t in PresentKeys(data, DigitKeys) <==> t in data {
      PresentKeysIn(data, DigitKeys, t);
    }
    assert PresentKeys(data, DigitKeys) == data.Keys;
    assert |multiset(ToneGroups(data, lang))| == |multiset(l)|;
  }

  /** For a tone whose inner keys are one-digit strings (as every cross
      table's are), each inner bucket gives exactly one group, labelled with
      the other language's tone name, carrying the bucket unchanged and its
      share of the tone's total, between 0 and 100.0 percent; the groups
      come largest first, equal sizes keeping ascending key order. */
  lemma ToneGroupsProperties(data: Buckets, lang: Lang)
    requires forall t :: t in data ==> t in DigitKeys
    ensures var r := ToneGroups(data, lang);
      var total := SizeOf(data, DigitKeys);
      && NonIncreasing(r, GroupSize)
      && (forall v :: KeyFilter(r, GroupSize, v)
            == KeyFilter(Labelled(data, DigitKeys, lang, total), GroupSize, v))
      && (forall t :: t in data ==>
            ToneGroup(ToneLabel(lang, t), Tenths(|data[t]|, total), data[t]) in r)
      && (forall g :: g in r ==>
            exists t :: t in data && g == ToneGroup(ToneLabel(lang, t), Tenths(|data[t]|, total), data[t]))
      && (forall g :: g in r ==> 0 <= g.percentage <= 1000)
      && |r| == |data|
  {
    ToneGroupsCount(data, lang);
    var total := SizeOf(data, DigitKeys);
    var l := Labelled(data, DigitKeys, lang, total);
    var r := ToneGroups(data, lang);
    SortDescSorted(l, GroupSize);
    forall v ensures KeyFilter(r, GroupSize, v) == KeyFilter(l, GroupSize, v) {
      SortDescStable(l, GroupSize, v);
    }
    LabelledMembers(data, DigitKeys, lang, total);
    forall t | t in data
      ensures ToneGroup(ToneLabel(lang, t), Tenths(|data[t]|, total), data[t]) in r
    {
      assert ToneGroup(ToneLabel(lang, t), Tenths(|data[t]|, total), data[t]) in multiset(l);
    }
    forall g | g in r
      ensures exists t :: t in data && g == ToneGroup(ToneLabel(lang, t), Tenths(|data[t]|, total), data[t])
      ensures 0 <= g.percentage <= 1000
    {
      assert g in multiset(l);
      assert g in l;
      var t :| t in DigitKeys && t in data
        && g == ToneGroup(ToneLabel(lang, t), Tenths(|data[t]|, total), data[t]);
      SizeBelow(data, DigitKeys, t);
    }
  }

  /** A tone of either language is a one-digit key. */
  lemma ValidToneDigit(lang: Lang, t: string)
    requires ValidTone(lang, t)
    ensures t in DigitKeys
  {
    ValidToneRange(lang, t);
    assert t == [t[0]];
  }

  /** The inner keys of the built cross tables are one-digit strings, so
      `ToneGroupsProperties` holds for every tone the tones tab can show. */
  lemma ToneCrossInnerDigits(initialsSource: Table<SourceGroup>, finalsSource: Table<SourceGroup>,
                             key: string)
    ensures var x := ToneCross(initialsSource, finalsSource);
      && (key in x.c2m ==> forall t :: t in x.c2m[key] ==> t in DigitKeys)
      && (key in x.m2c ==> forall t :: t in x.m2c[key] ==> t in DigitKeys)
  {
    var x := ToneCross(initialsSource, finalsSource);
    ToneCrossShape(initialsSource, finalsSource);
    if key in x.c2m {
      forall t | t in x.c2m[key] ensures t in DigitKeys {
        ValidToneDigit(Mandarin, t);
      }
    }
    if key in x.m2c {
      forall t | t in x.m2c[key] ensures t in DigitKeys {
        ValidToneDigit(Cantonese, t);
      }
    }
  }

  // ---------------------------------------------------------------------
  // Table selection

  /** The key is present in the table `loadData` reads for this tab and
      direction. */
  predicate Present(tab: Tab, dir: Direction, key: string,
                    initialsData: Table<SourceGroup>, finalsData: Table<SourceGroup>,
                    mandarinInitialsData: Table<RevGroup>, mandarinFinalsData: Table<RevGroup>,
                    toneCrossC2M: Nested, toneCrossM2C: Nested)
  {
    match (tab, dir)
    case (TonesTab, C2M) => key in toneCrossC2M
    case (TonesTab, M2C) => key in toneCrossM2C
    case (InitialsTab, C2M) => HasKey(initialsData, key)
    case (FinalsTab, C2M) => HasKey(finalsData, key)
    case (InitialsTab, M2C) => HasKey(mandarinInitialsData, key)
    case (FinalsTab, M2C) => HasKey(mandarinFinalsData, key)
  }

  /** The tones tab reads the cross table of the direction and groups the
      clicked tone's inner buckets; the other tabs read the forward table
      (Cantonese to Mandarin) or the reverse index (Mandarin to Cantonese)
      of the tab; a key the table lacks gives "no data". */
  method LoadData(tab: Tab, key: string, dir: Direction,
                  initialsData: Table<SourceGroup>, finalsData: Table<SourceGroup>,
                  mandarinInitialsData: Table<RevGroup>, mandarinFinalsData: Table<RevGroup>,
                  toneCrossC2M: Nested, toneCrossM2C: Nested)
    returns (view: View)
    ensures view.NoData? <==> !Present(tab, dir, key, initialsData, finalsData, mandarinInitialsData,
                                        mandarinFinalsData, toneCrossC2M, toneCrossM2C)
    ensures view.ToneView? ==>
      && tab == TonesTab
      && view.heading == ToneLabel(SourceLang(dir), key)
      && view.toneGroups
        == ToneGroups((if dir == C2M then toneCrossC2M else toneCrossM2C)[key], TargetLang(dir))
    ensures view.SourceView? ==>
      && tab != TonesTab && dir == C2M && view.heading == key
      && Lookup(if tab == InitialsTab then initialsData else finalsData, key) == Some(view.sourceGroups)
    ensures view.ReverseView? ==>
      && tab != TonesTab && dir == M2C && view.heading == key
      && Lookup(if tab == InitialsTab then mandarinInitialsData else mandarinFinalsData, key)
        == Some(view.reverseGroups)
  {
    if tab == TonesTab {
      var cross := if dir == C2M then toneCrossC2M else toneCrossM2C;
      if key !in cross {
        return NoData;
      }
      var groups := BuildToneGroups(cross[key], TargetLang(dir));
      return ToneView(ToneLabel(SourceLang(dir), key), groups);
    }
    if dir == C2M {
      var data := Lookup(if tab == InitialsTab then initialsData else finalsData, key);
      LookupIffHasKey(if tab == InitialsTab then initialsData else finalsData, key);
      if data.None? {
        return NoData;
      }
      return SourceView(key, data.value);
    }
    var data := Lookup(if tab == InitialsTab then mandarinInitialsData else mandarinFinalsData, key);
    LookupIffHasKey(if tab == InitialsTab then mandarinInitialsData else mandarinFinalsData, key);
    if data.None? {
      return NoData;
    }
    return ReverseView(key, data.value);
  }
}
