/** Shared data model of the cross-reference index: character records, the
    Cantonese-keyed source tables, and ordered string-keyed tables. */
module Common {

  datatype Option<T> = None | Some(value: T)

  /** One character entry `{char, jyutping, pinyin}`; either romanization may
      be absent. Identity inside a bucket is the `ch` string alone. */
  datatype Record = Record(ch: string, jyutping: Option<string>, pinyin: Option<string>)

  /** A group of the source tables: its Mandarin-initial label and its
      characters. */
  datatype SourceGroup = SourceGroup(mandarinInitial: string, chars: seq<Record>)

  /** A string-keyed JavaScript object of group lists, with the iteration
      order of its keys made explicit. */
  type Table<G> = seq<(string, seq<G>)>

  function SourceChars(g: SourceGroup): seq<Record> { g.chars }

  // ---------------------------------------------------------------------
  // Keyed access: the first entry with a key is the one that counts.

  function IndexOf<G>(t: Table<G>, k: string): (r: Option<nat>)
    ensures r.Some? ==> r.value < |t| && t[r.value].0 == k
    ensures r.Some? ==> forall i :: 0 <= i < r.value ==> t[i].0 != k
    ensures r.None? ==> forall i :: 0 <= i < |t| ==> t[i].0 != k
  {
    if t == [] then None
    else if t[0].0 == k then Some(0)
    else match IndexOf(t[1..], k)
      case None => None
      case Some(i) => Some(i + 1)
  }

  function Lookup<G>(t: Table<G>, k: string): Option<seq<G>>
  {
    match IndexOf(t, k)
    case None => None
    case Some(i) => Some(t[i].1)
  }

  function LookupOr<G>(t: Table<G>, k: string): seq<G>
  {
    match Lookup(t, k)
    case None => []
    case Some(v) => v
  }

  /** `t[k] = v`: replaces the entry of `k`, or appends a new key at the end. */
  function Set<G>(t: Table<G>, k: string, v: seq<G>): Table<G>
  {
    match IndexOf(t, k)
    case None => t + [(k, v)]
    case Some(i) => t[i := (k, v)]
  }

  predicate HasKey<G>(t: Table<G>, k: string)
  {
    exists i :: 0 <= i < |t| && t[i].0 == k
  }

  predicate UniqueKeys<G>(t: Table<G>)
  {
    forall i, j :: 0 <= i < j < |t| ==> t[i].0 != t[j].0
  }

  /** The index found for `k` is its first occurrence, whatever table it is. */
  lemma IndexOfFirst<G>(t: Table<G>, k: string, i: nat)
    requires i < |t| && t[i].0 == k
    requires forall j :: 0 <= j < i ==> t[j].0 != k
    ensures IndexOf(t, k) == Some(i)
  {
    var r := IndexOf(t, k);
    assert r.Some?;
    assert !(r.value < i) && !(i < r.value);
  }

  lemma LookupSet<G>(t: Table<G>, k: string, v: seq<G>, key: string)
    ensures Lookup(Set(t, k, v), key) == if key == k then Some(v) else Lookup(t, key)
  {
    var t' := Set(t, k, v);
    match IndexOf(t, k)
    case None =>
      if key == k {
        IndexOfFirst(t', key, |t|);
      } else {
        match IndexOf(t, key)
        case None =>
        case Some(i) => IndexOfFirst(t', key, i);
      }
    case Some(i) =>
      if key == k {
        IndexOfFirst(t', key, i);
      } else {
        match IndexOf(t, key)
        case None =>
        case Some(j) => IndexOfFirst(t', key, j);
      }
  }

  lemma LookupIffHasKey<G>(t: Table<G>, k: string)
    ensures Lookup(t, k).Some? <==> HasKey(t, k)
  {
  }

  lemma SetKeeps<G>(t: Table<G>, k: string, v: seq<G>)
    requires UniqueKeys(t)
    ensures UniqueKeys(Set(t, k, v))
    ensures forall key :: HasKey(Set(t, k, v), key) <==> key == k || HasKey(t, key)
  {
    var t' := Set(t, k, v);
    forall key ensures HasKey(t', key) <==> key == k || HasKey(t, key) {
      LookupSet(t, k, v, key);
      LookupIffHasKey(t, key);
      LookupIffHasKey(t', key);
    }
  }

  // ---------------------------------------------------------------------
  // Walking every record of a table in `for…in` / `forEach` order.

  function GroupsRecords<G>(gs: seq<G>, charsOf: G -> seq<Record>): seq<Record>
  {
    if gs == [] then [] else GroupsRecords(gs[..|gs| - 1], charsOf) + charsOf(gs[|gs| - 1])
  }

  function Flatten<G>(t: Table<G>, charsOf: G -> seq<Record>): seq<Record>
  {
    if t == [] then [] else Flatten(t[..|t| - 1], charsOf) + GroupsRecords(t[|t| - 1].1, charsOf)
  }

  lemma {:induction false} GroupsRecordsAppend<G>(a: seq<G>, b: seq<G>, charsOf: G -> seq<Record>)
    ensures GroupsRecords(a + b, charsOf) == GroupsRecords(a, charsOf) + GroupsRecords(b, charsOf)
    decreases |b|
  {
    if b == [] {
      assert a + b == a;
    } else {
      var b' := b[..|b| - 1];
      var last := charsOf(b[|b| - 1]);
      assert (a + b)[..|a + b| - 1] == a + b';
      assert (a + b)[|a + b| - 1] == b[|b| - 1];
      GroupsRecordsAppend(a, b', charsOf);
      assert GroupsRecords(a + b, charsOf) == GroupsRecords(a + b', charsOf) + last;
      assert GroupsRecords(b, charsOf) == GroupsRecords(b', charsOf) + last;
      assert GroupsRecords(a, charsOf) + GroupsRecords(b', charsOf) + last
        == GroupsRecords(a, charsOf) + (GroupsRecords(b', charsOf) + last);
    }
  }

  lemma {:induction false} FlattenAppend<G>(a: Table<G>, b: Table<G>, charsOf: G -> seq<Record>)
    ensures Flatten(a + b, charsOf) == Flatten(a, charsOf) + Flatten(b, charsOf)
    decreases |b|
  {
    if b == [] {
      assert a + b == a;
    } else {
      var b' := b[..|b| - 1];
      var last := GroupsRecords(b[|b| - 1].1, charsOf);
      assert (a + b)[..|a + b| - 1] == a + b';
      assert (a + b)[|a + b| - 1] == b[|b| - 1];
      FlattenAppend(a, b', charsOf);
      assert Flatten(a + b, charsOf) == Flatten(a + b', charsOf) + last;
      assert Flatten(b, charsOf) == Flatten(b', charsOf) + last;
      assert Flatten(a, charsOf) + Flatten(b', charsOf) + last
        == Flatten(a, charsOf) + (Flatten(b', charsOf) + last);
    }
  }

  // ---------------------------------------------------------------------
  // Character identity inside a bucket.

  /** The first record whose character is `c`, scanning from the front. */
  function FirstCh(rs: seq<Record>, c: string): (r: Option<Record>)
    ensures r.Some? ==> r.value in rs && r.value.ch == c
    ensures r.None? <==> forall i :: 0 <= i < |rs| ==> rs[i].ch != c
  {
    if rs == [] then None
    else if rs[0].ch == c then Some(rs[0])
    else FirstCh(rs[1..], c)
  }

  lemma {:induction false} FirstChAppend(a: seq<Record>, b: seq<Record>, c: string)
    ensures FirstCh(a + b, c) == if FirstCh(a, c).Some? then FirstCh(a, c) else FirstCh(b, c)
  {
    if a != [] {
      assert (a + b)[1..] == a[1..] + b;
      FirstChAppend(a[1..], b, c);
    } else {
      assert a + b == b;
    }
  }

  predicate HasCh(rs: seq<Record>, c: string)
  {
    FirstCh(rs, c).Some?
  }

  predicate NoDupChars(rs: seq<Record>)
  {
    forall i, j :: 0 <= i < j < |rs| ==> rs[i].ch != rs[j].ch
  }

  /** In a bucket without repeated characters, the record found for `c` is
      the only one carrying `c`. */
  lemma FirstChUnique(rs: seq<Record>, x: Record)
    requires NoDupChars(rs)
    ensures FirstCh(rs, x.ch) == Some(x) <==> x in rs
  {
    if x in rs {
      var i :| 0 <= i < |rs| && rs[i] == x;
      FirstChAt(rs, i);
    }
  }

  lemma {:induction false} FirstChAt(rs: seq<Record>, i: nat)
    requires i < |rs| && NoDupChars(rs)
    ensures FirstCh(rs, rs[i].ch) == Some(rs[i])
  {
    if i > 0 {
      assert rs[0].ch != rs[i].ch;
      assert NoDupChars(rs[1..]) by {
        forall a, b | 0 <= a < b < |rs| - 1 ensures rs[1..][a].ch != rs[1..][b].ch {
          assert rs[1..][a] == rs[a + 1] && rs[1..][b] == rs[b + 1];
        }
      }
      FirstChAt(rs[1..], i - 1);
    }
  }

  /** Appending a record whose character is new keeps the bucket free of
      repeats. */
  lemma AppendNewKeepsNoDup(rs: seq<Record>, x: Record)
    requires NoDupChars(rs) && !HasCh(rs, x.ch)
    ensures NoDupChars(rs + [x])
  {
  }

  // ---------------------------------------------------------------------
  // Sizes summed over the entries of a table.

  function SumOver<G>(t: Table<G>, w: seq<G> -> nat): nat
  {
    if t == [] then 0 else SumOver(t[..|t| - 1], w) + w(t[|t| - 1].1)
  }

  lemma {:induction false} SumOverReplace<G>(t: Table<G>, i: nat, e: (string, seq<G>), w: seq<G> -> nat)
    requires i < |t|
    ensures SumOver(t[i := e], w) + w(t[i].1) == SumOver(t, w) + w(e.1)
  {
    var n := |t| - 1;
    if i < n {
      assert t[i := e][..n] == t[..n][i := e];
      SumOverReplace(t[..n], i, e, w);
    } else {
      assert t[i := e][..n] == t[..n];
    }
  }

  /** Setting a key changes the sum by the difference of that key's lists. */
  lemma SumOverSet<G>(t: Table<G>, k: string, v: seq<G>, w: seq<G> -> nat)
    requires w([]) == 0
    ensures SumOver(Set(t, k, v), w) + w(LookupOr(t, k)) == SumOver(t, w) + w(v)
  {
    match IndexOf(t, k)
    case None =>
      assert (t + [(k, v)])[..|t|] == t;
    case Some(i) =>
      SumOverReplace(t, i, (k, v), w);
  }

  // ---------------------------------------------------------------------
  // Keeping the first record of each character.

  /** The records in order, each dropped when an earlier kept record has
      the same character. */
  function Dedup(rs: seq<Record>): seq<Record>
  {
    if rs == [] then []
    else
      var kept := Dedup(rs[..|rs| - 1]);
      var x := rs[|rs| - 1];
      if HasCh(kept, x.ch) then kept else kept + [x]
  }

  /** The kept records have distinct characters, each the first record of
      the input that carries it, and nothing else is kept. */
  lemma {:induction false} DedupSpec(rs: seq<Record>)
    ensures NoDupChars(Dedup(rs))
    ensures forall c :: FirstCh(Dedup(rs), c) == FirstCh(rs, c)
    ensures forall x :: x in Dedup(rs) ==> x in rs
  {
    if rs != [] {
      var prev := rs[..|rs| - 1];
      var x := rs[|rs| - 1];
      var kept := Dedup(prev);
      DedupSpec(prev);
      assert rs == prev + [x];
      forall c ensures FirstCh(Dedup(rs), c) == FirstCh(rs, c) {
        FirstChAppend(prev, [x], c);
        FirstChAppend(kept, [x], c);
      }
      if !HasCh(kept, x.ch) {
        AppendNewKeepsNoDup(kept, x);
      }
    }
  }

  /** Two orders of the same records without repeated characters find the
      same record for every character. */
  lemma FirstChPermutation(a: seq<Record>, b: seq<Record>, c: string)
    requires NoDupChars(a) && NoDupChars(b) && multiset(a) == multiset(b)
    ensures FirstCh(a, c) == FirstCh(b, c)
  {
    match FirstCh(a, c)
    case Some(x) =>
      assert x in multiset(b);
      FirstChUnique(b, x);
    case None =>
      forall i | 0 <= i < |b| ensures b[i].ch != c {
        assert b[i] in multiset(a);
      }
  }

  // ---------------------------------------------------------------------
  // Where the records of a table come from.

  lemma {:induction false} GroupsRecordsHas<G>(gs: seq<G>, charsOf: G -> seq<Record>, j: nat, x: Record)
    requires j < |gs| && x in charsOf(gs[j])
    ensures x in GroupsRecords(gs, charsOf)
  {
    if j < |gs| - 1 {
      GroupsRecordsHas(gs[..|gs| - 1], charsOf, j, x);
    }
  }

  lemma {:induction false} GroupsRecordsMember<G>(gs: seq<G>, charsOf: G -> seq<Record>, x: Record)
    requires x in GroupsRecords(gs, charsOf)
    ensures exists j :: 0 <= j < |gs| && x in charsOf(gs[j])
  {
    var prev := gs[..|gs| - 1];
    if x in GroupsRecords(prev, charsOf) {
      GroupsRecordsMember(prev, charsOf, x);
      var j :| 0 <= j < |prev| && x in charsOf(prev[j]);
      assert gs[j] == prev[j];
    }
  }

  /** A record of a flattened table sits in some group of some entry. */
  lemma {:induction false} FlattenMember<G>(t: Table<G>, charsOf: G -> seq<Record>, x: Record)
    requires x in Flatten(t, charsOf)
    ensures exists i, j :: 0 <= i < |t| && 0 <= j < |t[i].1| && x in charsOf(t[i].1[j])
  {
    var prev := t[..|t| - 1];
    if x in Flatten(prev, charsOf) {
      FlattenMember(prev, charsOf, x);
      var i, j :| 0 <= i < |prev| && 0 <= j < |prev[i].1| && x in charsOf(prev[i].1[j]);
      assert t[i] == prev[i];
    } else {
      GroupsRecordsMember(t[|t| - 1].1, charsOf, x);
    }
  }

  /** Every entry after `t[k] = v` is `(k, v)` or an entry of `t`. */
  lemma SetEntries<G>(t: Table<G>, k: string, v: seq<G>)
    ensures forall i :: 0 <= i < |Set(t, k, v)| ==> Set(t, k, v)[i] == (k, v) || Set(t, k, v)[i] in t
  {
  }

  /** The list found for a key is an entry's list, or empty. */
  lemma LookupOrEntry<G>(t: Table<G>, k: string)
    ensures LookupOr(t, k) == [] || exists i :: 0 <= i < |t| && t[i].1 == LookupOr(t, k)
  {
  }
}
