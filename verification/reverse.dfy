/** `generateReverseData`: folds a Cantonese-keyed source table into a
    Mandarin-keyed reverse index, by Mandarin initial (the label each source
    group carries) or by Mandarin final (derived from each record's pinyin),
    then gives every group its share of the key's characters and orders each
    key's groups by that share, largest first. */
module Reverse {
  import opened Common
  import opened Romanization
  import opened Sorting

  /** The `dataType` argument: `'initials'`, or anything else (finals). */
  datatype Mode = ByInitials | ByFinals

  /** A group while the records are being distributed: the Cantonese key it
      came from (`cantoneseInitial` / `cantoneseFinal`) and its characters. */
  datatype Bucket = Bucket(counterpart: string, chars: seq<Record>)

  /** A finished group: as a bucket, plus `percentage` in tenths of a percent. */
  datatype RevGroup = RevGroup(counterpart: string, chars: seq<Record>, percentage: int)

  // ---------------------------------------------------------------------
  // Percentages

  /** `((n / total) * 100).toFixed(1)` as tenths of a percent, rounded to
      the nearest tenth with halves going up; 0 when the total is 0. */
  function Tenths(n: nat, total: nat): (r: int)
    ensures total == 0 ==> r == 0
    ensures total > 0 ==> 2000 * n - total < 2 * total * r <= 2000 * n + total
    ensures n <= total ==> 0 <= r <= 1000
  {
    if total > 0 then
      var d := 2 * total;
      var q := (2000 * n + total) / d;
      DivBounds(2000 * n + total, d);
      assert n <= total ==> q <= 1000 by {
        if n <= total {
          ProductBelow(q, d, 1001);
        }
      }
      q
    else 0
  }

  lemma DivBounds(a: int, d: int)
    requires d > 0
    ensures d * (a / d) <= a < d * (a / d) + d
  {
  }

  /** `q * d < k * d` forces `q < k` when `d` is positive. */
  lemma ProductBelow(q: int, d: int, k: int)
    requires d > 0 && d * q < d * k
    ensures q < k
  {
  }

  function TotalChars(bs: seq<Bucket>): nat
  {
    if bs == [] then 0 else TotalChars(bs[..|bs| - 1]) + |bs[|bs| - 1].chars|
  }

  function AnnotateWith(bs: seq<Bucket>, total: nat): (r: seq<RevGroup>)
    ensures |r| == |bs|
    ensures forall i :: 0 <= i < |bs| ==>
      r[i] == RevGroup(bs[i].counterpart, bs[i].chars, Tenths(|bs[i].chars|, total))
  {
    seq(|bs|, i requires 0 <= i < |bs| =>
      RevGroup(bs[i].counterpart, bs[i].chars, Tenths(|bs[i].chars|, total)))
  }

  /** Every group gets its share of the total over all of the key's groups. */
  function Annotate(bs: seq<Bucket>): seq<RevGroup>
  {
    AnnotateWith(bs, TotalChars(bs))
  }

  function Percentage(g: RevGroup): int { g.percentage }

  /** One key's finished list: annotated, then stably sorted by percentage,
      descending. */
  function Finish(bs: seq<Bucket>): seq<RevGroup>
  {
    SortDesc(Annotate(bs), Percentage)
  }

  function FinishAll(t: Table<Bucket>): (r: Table<RevGroup>)
    ensures |r| == |t|
    ensures forall i :: 0 <= i < |t| ==> r[i] == (t[i].0, Finish(t[i].1))
  {
    seq(|t|, i requires 0 <= i < |t| => (t[i].0, Finish(t[i].1)))
  }

  // ---------------------------------------------------------------------
  // Visiting order

  function Tag<X>(k: string, xs: seq<X>): (r: seq<(string, X)>)
    ensures |r| == |xs|
    ensures forall i :: 0 <= i < |xs| ==> r[i] == (k, xs[i])
  {
    seq(|xs|, i requires 0 <= i < |xs| => (k, xs[i]))
  }

  lemma TagAppend<X>(k: string, a: seq<X>, b: seq<X>)
    ensures Tag(k, a + b) == Tag(k, a) + Tag(k, b)
  {
  }

  /** The (Cantonese key, group) pairs in `for…in` / `forEach` order. */
  function KeyedGroups(src: Table<SourceGroup>): seq<(string, SourceGroup)>
  {
    if src == [] then []
    else KeyedGroups(src[..|src| - 1]) + Tag(src[|src| - 1].0, src[|src| - 1].1)
  }

  /** The (Cantonese key, record) pairs in visiting order. */
  function KeyedRecords(src: Table<SourceGroup>): seq<(string, Record)>
  {
    if src == [] then []
    else
      var last := src[|src| - 1];
      KeyedRecords(src[..|src| - 1]) + Tag(last.0, GroupsRecords(last.1, SourceChars))
  }

  // ---------------------------------------------------------------------
  // Distribution steps

  /** Initials mode: `targetData[group.mandarinInitial].push({key, chars})`. */
  function PushGroup(t: Table<Bucket>, key: string, g: SourceGroup): Table<Bucket>
  {
    Set(t, g.mandarinInitial, LookupOr(t, g.mandarinInitial) + [Bucket(key, g.chars)])
  }

  function CounterpartIndex(bs: seq<Bucket>, ck: string): (r: Option<nat>)
    ensures r.Some? ==> r.value < |bs| && bs[r.value].counterpart == ck
    ensures r.None? ==> forall j :: 0 <= j < |bs| ==> bs[j].counterpart != ck
  {
    if bs == [] then None
    else if bs[0].counterpart == ck then Some(0)
    else match CounterpartIndex(bs[1..], ck)
      case None => None
      case Some(j) => Some(j + 1)
  }

  /** Appends `r` to the group of Cantonese key `ck`, starting that group if
      the bucket has none. */
  function AddToBucket(bs: seq<Bucket>, ck: string, r: Record): seq<Bucket>
  {
    match CounterpartIndex(bs, ck)
    case None => bs + [Bucket(ck, [r])]
    case Some(j) => bs[j := Bucket(ck, bs[j].chars + [r])]
  }

  function MandarinFinalOf(r: Record): string
  {
    ExtractMandarinFinal(r.pinyin)
  }

  /** Finals mode, one record: dropped when its final is empty, else merged
      into the group of its Cantonese key under its Mandarin final. */
  function RouteRecord(t: Table<Bucket>, key: string, r: Record): Table<Bucket>
  {
    var f := MandarinFinalOf(r);
    if f == [] then t else Set(t, f, AddToBucket(LookupOr(t, f), key, r))
  }

  function DistInitials(kg: seq<(string, SourceGroup)>): Table<Bucket>
  {
    if kg == [] then []
    else PushGroup(DistInitials(kg[..|kg| - 1]), kg[|kg| - 1].0, kg[|kg| - 1].1)
  }

  function DistFinals(kr: seq<(string, Record)>): Table<Bucket>
  {
    if kr == [] then []
    else RouteRecord(DistFinals(kr[..|kr| - 1]), kr[|kr| - 1].0, kr[|kr| - 1].1)
  }

  function Distribute(src: Table<SourceGroup>, mode: Mode): Table<Bucket>
  {
    match mode
    case ByInitials => DistInitials(KeyedGroups(src))
    case ByFinals => DistFinals(KeyedRecords(src))
  }

  /** The reverse index `generateReverseData(src, mode)` returns. */
  function ReverseIndex(src: Table<SourceGroup>, mode: Mode): Table<RevGroup>
  {
    FinishAll(Distribute(src, mode))
  }

  // ---------------------------------------------------------------------
  // The builder

  method GenerateReverseData(sourceData: Table<SourceGroup>, dataType: Mode)
    returns (result: Table<RevGroup>)
    ensures result == ReverseIndex(sourceData, dataType)
  {
    var target := DistributeAll(sourceData, dataType);
    result := FinishTable(target);
  }

  /** The percentage loop over `targetData`, once every record has been
      distributed. */
  method FinishTable(target: Table<Bucket>) returns (result: Table<RevGroup>)
    ensures result == FinishAll(target)
  {
    result := [];
    var m := 0;
    while m < |target|
      invariant 0 <= m <= |target|
      invariant |result| == m
      invariant forall i :: 0 <= i < m ==> result[i] == (target[i].0, Finish(target[i].1))
    {
      var finished := FinishKey(target[m].1);
      result := result + [(target[m].0, finished)];
      m := m + 1;
    }
  }

  /** The two nested `for…in` / `forEach` loops that fill `targetData`. */
  method DistributeAll(sourceData: Table<SourceGroup>, dataType: Mode)
    returns (target: Table<Bucket>)
    ensures target == Distribute(sourceData, dataType)
  {
    target := [];
    var i := 0;
    while i < |sourceData|
      invariant 0 <= i <= |sourceData|
      invariant target == Distribute(sourceData[..i], dataType)
    {
      assert sourceData[..i + 1][..i] == sourceData[..i];
      target := DistributeKey(target, sourceData[i].0, sourceData[i].1, dataType,
                              KeyedGroups(sourceData[..i]), KeyedRecords(sourceData[..i]));
      i := i + 1;
    }
    assert sourceData[..i] == sourceData;
  }

  /** The state reached in either mode after visiting `kg` (initials) or
      `kr` (finals). */
  function DistributeVisited(mode: Mode, kg: seq<(string, SourceGroup)>,
                             kr: seq<(string, Record)>): Table<Bucket>
  {
    match mode
    case ByInitials => DistInitials(kg)
    case ByFinals => DistFinals(kr)
  }

  /** One Cantonese key: `sourceData[key].forEach(group => ...)`. */
  method DistributeKey(target0: Table<Bucket>, key: string, groups: seq<SourceGroup>, mode: Mode,
                       ghost kg: seq<(string, SourceGroup)>, ghost kr: seq<(string, Record)>)
    returns (target: Table<Bucket>)
    requires target0 == DistributeVisited(mode, kg, kr)
    ensures target == DistributeVisited(mode, kg + Tag(key, groups),
                                        kr + Tag(key, GroupsRecords(groups, SourceChars)))
  {
    target := target0;
    var g := 0;
    assert kg + Tag(key, groups[..0]) == kg;
    assert kr + Tag(key, GroupsRecords(groups[..0], SourceChars)) == kr;
    while g < |groups|
      invariant 0 <= g <= |groups|
      invariant target == DistributeVisited(mode, kg + Tag(key, groups[..g]),
                                            kr + Tag(key, GroupsRecords(groups[..g], SourceChars)))
    {
      GroupStep(kg, kr, key, groups, g);
      target := VisitGroup(target, key, groups[g], mode, kg + Tag(key, groups[..g]),
                           kr + Tag(key, GroupsRecords(groups[..g], SourceChars)));
      g := g + 1;
    }
    assert groups[..g] == groups;
  }

  /** The visited sequences grow by one group: the group itself in
      initials mode, its records in finals mode. */
  lemma GroupStep(kg: seq<(string, SourceGroup)>, kr: seq<(string, Record)>, key: string,
                  groups: seq<SourceGroup>, g: nat)
    requires g < |groups|
    ensures kg + Tag(key, groups[..g + 1]) == kg + Tag(key, groups[..g]) + [(key, groups[g])]
    ensures kr + Tag(key, GroupsRecords(groups[..g + 1], SourceChars))
      == kr + Tag(key, GroupsRecords(groups[..g], SourceChars)) + Tag(key, groups[g].chars)
  {
    var before := groups[..g];
    assert groups[..g + 1] == before + [groups[g]];
    TagAppend(key, before, [groups[g]]);
    var rs := GroupsRecords(before, SourceChars);
    assert (before + [groups[g]])[..|before|] == before;
    assert GroupsRecords(before + [groups[g]], SourceChars) == rs + groups[g].chars;
    TagAppend(key, rs, groups[g].chars);
  }

  /** The callback of that `forEach`, for one group: in initials mode the
      group is pushed under its Mandarin initial, in finals mode each of its
      records is routed. */
  method VisitGroup(target0: Table<Bucket>, key: string, group: SourceGroup, mode: Mode,
                    ghost kg: seq<(string, SourceGroup)>, ghost kr: seq<(string, Record)>)
    returns (target: Table<Bucket>)
    requires target0 == DistributeVisited(mode, kg, kr)
    ensures target == DistributeVisited(mode, kg + [(key, group)], kr + Tag(key, group.chars))
  {
    if mode == ByInitials {
      assert (kg + [(key, group)])[..|kg|] == kg;
      target := PushGroup(target0, key, group);
    } else {
      target := RouteGroup(target0, key, group.chars, kr);
    }
  }

  /** Finals mode, one source group: `group.chars.forEach(...)`. */
  method RouteGroup(target0: Table<Bucket>, key: string, chars: seq<Record>,
                    ghost before: seq<(string, Record)>)
    returns (target: Table<Bucket>)
    requires target0 == DistFinals(before)
    ensures target == DistFinals(before + Tag(key, chars))
  {
    target := target0;
    var c := 0;
    assert before + Tag(key, chars[..0]) == before;
    while c < |chars|
      invariant 0 <= c <= |chars|
      invariant target == DistFinals(before + Tag(key, chars[..c]))
    {
      RecordStep(before, key, chars, c);
      target := RouteRecord(target, key, chars[c]);
      c := c + 1;
    }
    assert chars[..c] == chars;
  }

  /** Routing one more record extends the visited records by it. */
  lemma RecordStep(before: seq<(string, Record)>, key: string, chars: seq<Record>, c: nat)
    requires c < |chars|
    ensures DistFinals(before + Tag(key, chars[..c + 1]))
      == RouteRecord(DistFinals(before + Tag(key, chars[..c])), key, chars[c])
  {
    var visited := before + Tag(key, chars[..c]);
    assert chars[..c + 1] == chars[..c] + [chars[c]];
    TagAppend(key, chars[..c], [chars[c]]);
    assert before + Tag(key, chars[..c + 1]) == visited + [(key, chars[c])];
    assert (visited + [(key, chars[c])])[..|visited|] == visited;
  }

  /** One Mandarin key: sum the group sizes, give each group its
      percentage, then sort the groups by it. */
  method FinishKey(groups: seq<Bucket>) returns (finished: seq<RevGroup>)
    ensures finished == Finish(groups)
  {
    var totalChars := 0;
    var j := 0;
    while j < |groups|
      invariant 0 <= j <= |groups|
      invariant totalChars == TotalChars(groups[..j])
    {
      assert groups[..j + 1][..j] == groups[..j];
      totalChars := totalChars + |groups[j].chars|;
      j := j + 1;
    }
    assert groups[..j] == groups;
    var annotated: seq<RevGroup> := [];
    j := 0;
    while j < |groups|
      invariant 0 <= j <= |groups|
      invariant annotated == AnnotateWith(groups[..j], totalChars)
    {
      var pct := Tenths(|groups[j].chars|, totalChars);
      annotated := annotated + [RevGroup(groups[j].counterpart, groups[j].chars, pct)];
      j := j + 1;
    }
    assert groups[..j] == groups;
    finished := SortDesc(annotated, Percentage);
  }

  // ---------------------------------------------------------------------
  // Initials mode: one group out per group in

  /** The groups re-keyed under Mandarin initial `m`, in visiting order,
      each tagged with its Cantonese key and carrying its own chars. */
  function Select(kg: seq<(string, SourceGroup)>, m: string): seq<Bucket>
  {
    if kg == [] then []
    else
      var last := kg[|kg| - 1];
      Select(kg[..|kg| - 1], m)
        + (if last.1.mandarinInitial == m then [Bucket(last.0, last.1.chars)] else [])
  }

  /** The list under initial `m` is exactly the groups labelled `m`, each
      once, unchanged and in visiting order; `m` is a key only if some group
      carries it. */
  lemma {:induction false} DistInitialsLookup(kg: seq<(string, SourceGroup)>, m: string)
    ensures Lookup(DistInitials(kg), m) == if Select(kg, m) == [] then None else Some(Select(kg, m))
  {
    if kg != [] {
      var prev := kg[..|kg| - 1];
      var (k, g) := kg[|kg| - 1];
      var t := DistInitials(prev);
      assert DistInitials(kg) == PushGroup(t, k, g);
      assert Select(kg, m)
        == Select(prev, m) + (if g.mandarinInitial == m then [Bucket(k, g.chars)] else []);
      DistInitialsLookup(prev, m);
      LookupSet(t, g.mandarinInitial, LookupOr(t, g.mandarinInitial) + [Bucket(k, g.chars)], m);
      if g.mandarinInitial == m {
        assert LookupOr(t, m) == Select(prev, m);
        assert PushGroup(t, k, g) == Set(t, m, Select(prev, m) + [Bucket(k, g.chars)]);
        assert Lookup(DistInitials(kg), m) == Some(Select(prev, m) + [Bucket(k, g.chars)]);
        assert Select(kg, m) == Select(prev, m) + [Bucket(k, g.chars)];
      } else {
        assert Lookup(DistInitials(kg), m) == Lookup(t, m);
        assert Select(kg, m) == Select(prev, m) + [];
        assert Select(prev, m) + [] == Select(prev, m);
      }
    }
  }

  function BucketCount(bs: seq<Bucket>): nat { |bs| }

  /** As many output groups as source groups. */
  lemma {:induction false} DistInitialsCount(kg: seq<(string, SourceGroup)>)
    ensures SumOver(DistInitials(kg), BucketCount) == |kg|
  {
    if kg != [] {
      var prev := kg[..|kg| - 1];
      var (k, g) := kg[|kg| - 1];
      var t := DistInitials(prev);
      DistInitialsCount(prev);
      SumOverSet(t, g.mandarinInitial, LookupOr(t, g.mandarinInitial) + [Bucket(k, g.chars)],
                 BucketCount);
    }
  }

  // ---------------------------------------------------------------------
  // Finals mode: one group per Cantonese key inside each Mandarin final

  /** The records of Cantonese key `ck` whose Mandarin final is `f`, in
      visiting order, repeats included. */
  function Routed(kr: seq<(string, Record)>, f: string, ck: string): seq<Record>
  {
    if kr == [] then []
    else
      var last := kr[|kr| - 1];
      Routed(kr[..|kr| - 1], f, ck)
        + (if last.0 == ck && MandarinFinalOf(last.1) == f then [last.1] else [])
  }

  /** The chars of the group of Cantonese key `ck`, or none. */
  function GroupOf(bs: seq<Bucket>, ck: string): seq<Record>
  {
    match CounterpartIndex(bs, ck)
    case None => []
    case Some(j) => bs[j].chars
  }

  /** At most one group per Cantonese key, and no empty group. */
  predicate WellFormedBuckets(bs: seq<Bucket>)
  {
    && (forall i, j :: 0 <= i < j < |bs| ==> bs[i].counterpart != bs[j].counterpart)
    && (forall i :: 0 <= i < |bs| ==> bs[i].chars != [])
  }

  /** The Cantonese keys of the groups, in the groups' order. */
  function Counterparts(bs: seq<Bucket>): (r: seq<string>)
    ensures |r| == |bs|
    ensures forall i :: 0 <= i < |bs| ==> r[i] == bs[i].counterpart
  {
    seq(|bs|, i requires 0 <= i < |bs| => bs[i].counterpart)
  }

  /** The distinct Cantonese keys of the visited records whose Mandarin
      final is `f`, each at the place where it is first visited. */
  function FirstVisits(kr: seq<(string, Record)>, f: string): seq<string>
  {
    if kr == [] then []
    else
      var prev := FirstVisits(kr[..|kr| - 1], f);
      var last := kr[|kr| - 1];
      if MandarinFinalOf(last.1) == f && last.0 !in prev then prev + [last.0] else prev
  }

  lemma CounterpartIndexAt(bs: seq<Bucket>, j: nat)
    requires WellFormedBuckets(bs) && j < |bs|
    ensures CounterpartIndex(bs, bs[j].counterpart) == Some(j)
  {
    var r := CounterpartIndex(bs, bs[j].counterpart);
    assert !(r.value < j) && !(j < r.value);
  }

  /** `find` then `push`: only the group of `ck` grows, by `r` at its end;
      the groups keep their places, and a group for a new `ck` comes last. */
  lemma AddToBucketSpec(bs: seq<Bucket>, ck: string, r: Record)
    requires WellFormedBuckets(bs)
    ensures WellFormedBuckets(AddToBucket(bs, ck, r))
    ensures forall c ::
      GroupOf(AddToBucket(bs, ck, r), c) == GroupOf(bs, c) + (if c == ck then [r] else [])
    ensures Counterparts(AddToBucket(bs, ck, r))
      == Counterparts(bs) + (if ck in Counterparts(bs) then [] else [ck])
  {
    var bs' := AddToBucket(bs, ck, r);
    forall c ensures GroupOf(bs', c) == GroupOf(bs, c) + (if c == ck then [r] else []) {
      AddToBucketGroup(bs, ck, r, c);
    }
    AddToBucketOrder(bs, ck, r);
    match CounterpartIndex(bs, ck)
    case None =>
      assert bs' == bs + [Bucket(ck, [r])];
    case Some(j) =>
      assert bs' == bs[j := Bucket(ck, bs[j].chars + [r])];
  }

  lemma AddToBucketOrder(bs: seq<Bucket>, ck: string, r: Record)
    ensures Counterparts(AddToBucket(bs, ck, r))
      == Counterparts(bs) + (if ck in Counterparts(bs) then [] else [ck])
  {
    var cs := Counterparts(bs);
    var cs' := Counterparts(AddToBucket(bs, ck, r));
    match CounterpartIndex(bs, ck)
    case None =>
      assert cs' == cs + [ck];
    case Some(j) =>
      assert cs[j] == ck;
      assert cs' == cs;
  }

  lemma AddToBucketGroup(bs: seq<Bucket>, ck: string, r: Record, c: string)
    requires WellFormedBuckets(bs)
    ensures GroupOf(AddToBucket(bs, ck, r), c) == GroupOf(bs, c) + (if c == ck then [r] else [])
  {
    var bs' := AddToBucket(bs, ck, r);
    match CounterpartIndex(bs, c)
    case None =>
      if c == ck {
        assert bs' == bs + [Bucket(ck, [r])];
        assert WellFormedBuckets(bs');
        CounterpartIndexAt(bs', |bs|);
      } else {
        assert CounterpartIndex(bs', c) == None;
      }
    case Some(j) =>
      assert WellFormedBuckets(bs');
      CounterpartIndexAt(bs', j);
  }

  /** Some visited record has Mandarin final `f`. */
  predicate HasFinal(kr: seq<(string, Record)>, f: string)
  {
    kr != [] && (HasFinal(kr[..|kr| - 1], f) || MandarinFinalOf(kr[|kr| - 1].1) == f)
  }

  /** A final is a key exactly when it is non-empty and some visited record
      has it; its list of groups is then non-empty. */
  lemma {:induction false} DistFinalsKeys(kr: seq<(string, Record)>, f: string)
    ensures Lookup(DistFinals(kr), f).Some? <==> f != [] && HasFinal(kr, f)
    ensures Lookup(DistFinals(kr), f).Some? ==> LookupOr(DistFinals(kr), f) != []
  {
    if kr != [] {
      var prev := kr[..|kr| - 1];
      var (k, r) := kr[|kr| - 1];
      var t := DistFinals(prev);
      var g := MandarinFinalOf(r);
      assert DistFinals(kr) == RouteRecord(t, k, r);
      DistFinalsKeys(prev, f);
      if g != [] {
        LookupSet(t, g, AddToBucket(LookupOr(t, g), k, r), f);
      }
    }
  }

  /** Under every final, the group of each Cantonese key holds exactly the
      records routed to it, once each and in visiting order, and no two
      groups share a Cantonese key or are empty. */
  lemma {:induction false} DistFinalsGroups(kr: seq<(string, Record)>, f: string)
    requires f != []
    ensures WellFormedBuckets(LookupOr(DistFinals(kr), f))
    ensures forall ck :: GroupOf(LookupOr(DistFinals(kr), f), ck) == Routed(kr, f, ck)
    ensures Counterparts(LookupOr(DistFinals(kr), f)) == FirstVisits(kr, f)
  {
    if kr != [] {
      var prev := kr[..|kr| - 1];
      var (k, r) := kr[|kr| - 1];
      var t := DistFinals(prev);
      var g := MandarinFinalOf(r);
      assert DistFinals(kr) == RouteRecord(t, k, r);
      DistFinalsGroups(prev, f);
      var bs := LookupOr(t, f);
      if g != [] {
        LookupSet(t, g, AddToBucket(LookupOr(t, g), k, r), f);
      }
      if g == f {
        AddToBucketSpec(bs, k, r);
      }
      forall ck ensures GroupOf(LookupOr(DistFinals(kr), f), ck) == Routed(kr, f, ck) {
        assert Routed(kr, f, ck)
          == Routed(prev, f, ck) + (if k == ck && g == f then [r] else []);
      }
    }
  }

  /** The empty final is never a key: records whose final is empty are
      dropped. */
  lemma DistFinalsNoEmptyKey(kr: seq<(string, Record)>)
    ensures Lookup(DistFinals(kr), []) == None
  {
    DistFinalsKeys(kr, []);
  }

  // ---------------------------------------------------------------------
  // Percentages and order

  lemma {:induction false} BucketBelowTotal(bs: seq<Bucket>, i: nat)
    requires i < |bs|
    ensures |bs[i].chars| <= TotalChars(bs)
  {
    if i < |bs| - 1 {
      BucketBelowTotal(bs[..|bs| - 1], i);
    }
  }

  /** Each key's finished list holds the annotated groups, every share taken
      over the key's whole total and between 0 and 100.0 percent, in
      non-increasing order of share, groups with equal shares keeping their
      distribution order. */
  lemma FinishProperties(bs: seq<Bucket>)
    ensures multiset(Finish(bs)) == multiset(Annotate(bs))
    ensures NonIncreasing(Finish(bs), Percentage)
    ensures forall v :: KeyFilter(Finish(bs), Percentage, v) == KeyFilter(Annotate(bs), Percentage, v)
    ensures forall g :: g in Finish(bs) ==>
      g.percentage == Tenths(|g.chars|, TotalChars(bs)) && 0 <= g.percentage <= 1000
  {
    SortDescSorted(Annotate(bs), Percentage);
    forall v ensures KeyFilter(Finish(bs), Percentage, v) == KeyFilter(Annotate(bs), Percentage, v) {
      SortDescStable(Annotate(bs), Percentage, v);
    }
    forall g | g in Finish(bs)
      ensures g.percentage == Tenths(|g.chars|, TotalChars(bs)) && 0 <= g.percentage <= 1000
    {
      assert g in multiset(Annotate(bs));
      var i :| 0 <= i < |bs| && Annotate(bs)[i] == g;
      BucketBelowTotal(bs, i);
    }
  }

  /** Finishing keeps every key and its place; a key's list is finished on
      its own. */
  lemma FinishAllLookup(t: Table<Bucket>, m: string)
    ensures Lookup(FinishAll(t), m)
      == match Lookup(t, m) case None => None case Some(bs) => Some(Finish(bs))
  {
    var r := FinishAll(t);
    match IndexOf(t, m)
    case None =>
    case Some(i) => IndexOfFirst(r, m, i);
  }

  // ---------------------------------------------------------------------
  // The finished index, initials mode

  /** Under Mandarin initial `m` the finished index holds exactly the source
      groups labelled `m`, each once with its chars unchanged, annotated and
      sorted; `m` is a key only if some group carries it. */
  lemma InitialsReverseIndex(src: Table<SourceGroup>, m: string)
    ensures var sel := Select(KeyedGroups(src), m);
      Lookup(ReverseIndex(src, ByInitials), m) == if sel == [] then None else Some(Finish(sel))
  {
    DistInitialsLookup(KeyedGroups(src), m);
    FinishAllLookup(Distribute(src, ByInitials), m);
  }

  /** Mandarin final `f` is a key of the finished index exactly when it is
      non-empty and some source record has it; its list is then the key's
      groups, at most one per Cantonese final and none empty, each holding
      every record of that Cantonese final with final `f`, in visiting
      order, annotated and sorted. */
  lemma FinalsReverseIndex(src: Table<SourceGroup>, f: string)
    ensures Lookup(ReverseIndex(src, ByFinals), f).Some? <==> f != [] && HasFinal(KeyedRecords(src), f)
    ensures Lookup(ReverseIndex(src, ByFinals), f).Some? ==>
      var bs := LookupOr(Distribute(src, ByFinals), f);
      && Lookup(ReverseIndex(src, ByFinals), f) == Some(Finish(bs))
      && bs != [] && WellFormedBuckets(bs)
      && (forall ck :: GroupOf(bs, ck) == Routed(KeyedRecords(src), f, ck))
      && Counterparts(bs) == FirstVisits(KeyedRecords(src), f)
  {
    var kr := KeyedRecords(src);
    var t := DistFinals(kr);
    assert Distribute(src, ByFinals) == t;
    assert ReverseIndex(src, ByFinals) == FinishAll(t);
    FinishAllLookup(t, f);
    assert Lookup(FinishAll(t), f).Some? <==> Lookup(t, f).Some?;
    DistFinalsKeys(kr, f);
    if f != [] {
      DistFinalsGroups(kr, f);
    }
  }

  // ---------------------------------------------------------------------
  // Keys

  lemma {:induction false} DistInitialsUnique(kg: seq<(string, SourceGroup)>)
    ensures UniqueKeys(DistInitials(kg))
  {
    if kg != [] {
      var t := DistInitials(kg[..|kg| - 1]);
      var (k, g) := kg[|kg| - 1];
      DistInitialsUnique(kg[..|kg| - 1]);
      SetKeeps(t, g.mandarinInitial, LookupOr(t, g.mandarinInitial) + [Bucket(k, g.chars)]);
    }
  }

  lemma {:induction false} DistFinalsUnique(kr: seq<(string, Record)>)
    ensures UniqueKeys(DistFinals(kr))
  {
    if kr != [] {
      var t := DistFinals(kr[..|kr| - 1]);
      var (k, r) := kr[|kr| - 1];
      var f := MandarinFinalOf(r);
      DistFinalsUnique(kr[..|kr| - 1]);
      if f != [] {
        SetKeeps(t, f, AddToBucket(LookupOr(t, f), k, r));
      }
    }
  }

  /** Like the JavaScript object it models, the index holds each Mandarin
      key at most once, in either mode. */
  lemma ReverseIndexUniqueKeys(src: Table<SourceGroup>, mode: Mode)
    ensures UniqueKeys(ReverseIndex(src, mode))
  {
    match mode
    case ByInitials => DistInitialsUnique(KeyedGroups(src));
    case ByFinals => DistFinalsUnique(KeyedRecords(src));
  }

  function RevGroupCount(gs: seq<RevGroup>): nat { |gs| }

  lemma {:induction false} FinishAllCount(t: Table<Bucket>)
    ensures SumOver(FinishAll(t), RevGroupCount) == SumOver(t, BucketCount)
  {
    if t != [] {
      var prev := t[..|t| - 1];
      assert FinishAll(t)[..|t| - 1] == FinishAll(prev);
      FinishAllCount(prev);
    }
  }

  /** The finished initials index has exactly as many groups as the source
      table has groups, over all keys. */
  lemma InitialsGroupCount(src: Table<SourceGroup>)
    ensures SumOver(ReverseIndex(src, ByInitials), RevGroupCount) == |KeyedGroups(src)|
  {
    DistInitialsCount(KeyedGroups(src));
    FinishAllCount(Distribute(src, ByInitials));
  }

  // ---------------------------------------------------------------------
  // Nothing but source records

  /** Every record in every bucket of `t` is in `pool`. */
  predicate BucketsFrom(t: Table<Bucket>, pool: seq<Record>)
  {
    forall i, j :: 0 <= i < |t| && 0 <= j < |t[i].1| ==>
      forall x :: x in t[i].1[j].chars ==> x in pool
  }

  lemma PushGroupFrom(t: Table<Bucket>, key: string, g: SourceGroup, pool: seq<Record>)
    requires BucketsFrom(t, pool)
    requires forall x :: x in g.chars ==> x in pool
    ensures BucketsFrom(PushGroup(t, key, g), pool)
  {
    var m := g.mandarinInitial;
    var v := LookupOr(t, m) + [Bucket(key, g.chars)];
    SetEntries(t, m, v);
    LookupOrEntry(t, m);
    var t' := Set(t, m, v);
    forall i, j | 0 <= i < |t'| && 0 <= j < |t'[i].1|
      ensures forall x :: x in t'[i].1[j].chars ==> x in pool
    {
      if t'[i] != (m, v) {
        var i' :| 0 <= i' < |t| && t[i'] == t'[i];
      } else if j < |LookupOr(t, m)| {
        var i' :| 0 <= i' < |t| && t[i'].1 == LookupOr(t, m);
        assert t'[i].1[j] == t[i'].1[j];
      }
    }
  }

  lemma {:induction false} DistInitialsFrom(kg: seq<(string, SourceGroup)>, pool: seq<Record>)
    requires forall p :: p in kg ==> forall x :: x in p.1.chars ==> x in pool
    ensures BucketsFrom(DistInitials(kg), pool)
  {
    if kg != [] {
      DistInitialsFrom(kg[..|kg| - 1], pool);
      PushGroupFrom(DistInitials(kg[..|kg| - 1]), kg[|kg| - 1].0, kg[|kg| - 1].1, pool);
    }
  }

  lemma AddToBucketFrom(bs: seq<Bucket>, ck: string, r: Record, pool: seq<Record>)
    requires forall j :: 0 <= j < |bs| ==> forall x :: x in bs[j].chars ==> x in pool
    requires r in pool
    ensures var bs' := AddToBucket(bs, ck, r);
      forall j :: 0 <= j < |bs'| ==> forall x :: x in bs'[j].chars ==> x in pool
  {
  }

  lemma RouteRecordFrom(t: Table<Bucket>, key: string, r: Record, pool: seq<Record>)
    requires BucketsFrom(t, pool) && r in pool
    ensures BucketsFrom(RouteRecord(t, key, r), pool)
  {
    var f := MandarinFinalOf(r);
    if f != [] {
      var bs := LookupOr(t, f);
      LookupOrEntry(t, f);
      assert forall j :: 0 <= j < |bs| ==> forall x :: x in bs[j].chars ==> x in pool by {
        if bs != [] {
          var i' :| 0 <= i' < |t| && t[i'].1 == bs;
        }
      }
      AddToBucketFrom(bs, key, r, pool);
      var v := AddToBucket(bs, key, r);
      SetEntries(t, f, v);
      var t' := Set(t, f, v);
      forall i, j | 0 <= i < |t'| && 0 <= j < |t'[i].1|
        ensures forall x :: x in t'[i].1[j].chars ==> x in pool
      {
        if t'[i] != (f, v) {
          var i' :| 0 <= i' < |t| && t[i'] == t'[i];
        }
      }
    }
  }

  lemma {:induction false} DistFinalsFrom(kr: seq<(string, Record)>, pool: seq<Record>)
    requires forall p :: p in kr ==> p.1 in pool
    ensures BucketsFrom(DistFinals(kr), pool)
  {
    if kr != [] {
      DistFinalsFrom(kr[..|kr| - 1], pool);
      RouteRecordFrom(DistFinals(kr[..|kr| - 1]), kr[|kr| - 1].0, kr[|kr| - 1].1, pool);
    }
  }

  lemma {:induction false} KeyedGroupsFrom(src: Table<SourceGroup>)
    ensures forall p :: p in KeyedGroups(src) ==>
      forall x :: x in p.1.chars ==> x in Flatten(src, SourceChars)
  {
    if src != [] {
      var prev := src[..|src| - 1];
      var (key, groups) := src[|src| - 1];
      KeyedGroupsFrom(prev);
      forall p, x | p in Tag(key, groups) && x in p.1.chars
        ensures x in Flatten(src, SourceChars)
      {
        var j :| 0 <= j < |groups| && Tag(key, groups)[j] == p;
        GroupsRecordsHas(groups, SourceChars, j, x);
      }
    }
  }

  lemma {:induction false} KeyedRecordsFrom(src: Table<SourceGroup>)
    ensures forall p :: p in KeyedRecords(src) ==> p.1 in Flatten(src, SourceChars)
  {
    if src != [] {
      var prev := src[..|src| - 1];
      var last := src[|src| - 1];
      KeyedRecordsFrom(prev);
      var tagged := Tag(last.0, GroupsRecords(last.1, SourceChars));
      forall p | p in tagged ensures p.1 in Flatten(src, SourceChars) {
        var j :| 0 <= j < |tagged| && tagged[j] == p;
      }
    }
  }

  function RevChars(g: RevGroup): seq<Record> { g.chars }

  lemma FinishAllFrom(t: Table<Bucket>, pool: seq<Record>, x: Record)
    requires BucketsFrom(t, pool)
    requires x in Flatten(FinishAll(t), RevChars)
    ensures x in pool
  {
    var r := FinishAll(t);
    FlattenMember(r, RevChars, x);
    var i, j :| 0 <= i < |r| && 0 <= j < |r[i].1| && x in r[i].1[j].chars;
    var g := r[i].1[j];
    assert g in multiset(Annotate(t[i].1));
    var k :| 0 <= k < |t[i].1| && Annotate(t[i].1)[k] == g;
  }

  /** Every record of a reverse index is a record of its source table: the
      index regroups records, it never makes new ones. */
  lemma ReverseIndexFrom(src: Table<SourceGroup>, mode: Mode, x: Record)
    requires x in Flatten(ReverseIndex(src, mode), RevChars)
    ensures x in Flatten(src, SourceChars)
  {
    var pool := Flatten(src, SourceChars);
    match mode
    case ByInitials =>
      KeyedGroupsFrom(src);
      DistInitialsFrom(KeyedGroups(src), pool);
      FinishAllFrom(Distribute(src, mode), pool, x);
    case ByFinals =>
      KeyedRecordsFrom(src);
      DistFinalsFrom(KeyedRecords(src), pool);
      FinishAllFrom(Distribute(src, mode), pool, x);
  }
}
