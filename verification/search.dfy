/** `searchChar`: the first record whose character equals the trimmed query,
    scanning the initials table, the finals table, the reverse initials
    index and the reverse finals index, in that order. */
module Search {
  import opened Common
  import opened Romanization
  import opened Reverse

  /** A record whose character is `c`, in front of anything, is the first
      one found. */
  lemma FirstChFound(pre: seq<Record>, x: Record, post: seq<Record>, c: string)
    requires FirstCh(pre, c).None? && x.ch == c
    ensures FirstCh(pre + [x] + post, c) == Some(x)
  {
    FirstChAppend(pre, [x] + post, c);
    assert pre + [x] + post == pre + ([x] + post);
  }

  /** `findIn(data)`: scans keys, groups and characters in order and stops
      at the first record whose character is `c`. */
  method FindIn<G>(data: Table<G>, charsOf: G -> seq<Record>, c: string)
    returns (found: Option<Record>)
    ensures found == FirstCh(Flatten(data, charsOf), c)
  {
    var i := 0;
    while i < |data|
      invariant 0 <= i <= |data|
      invariant FirstCh(Flatten(data[..i], charsOf), c).None?
    {
      assert data[..i + 1][..i] == data[..i];
      found := FindInGroups(data[i].1, charsOf, c);
      FirstChAppend(Flatten(data[..i], charsOf), GroupsRecords(data[i].1, charsOf), c);
      if found.Some? {
        assert data == data[..i + 1] + data[i + 1..];
        FlattenAppend(data[..i + 1], data[i + 1..], charsOf);
        FirstChAppend(Flatten(data[..i + 1], charsOf), Flatten(data[i + 1..], charsOf), c);
        return;
      }
      i := i + 1;
    }
    assert data[..i] == data;
    found := None;
  }

  /** One key's groups: `for (let i = 0; i < groups.length; i++)`. */
  method FindInGroups<G>(groups: seq<G>, charsOf: G -> seq<Record>, c: string)
    returns (found: Option<Record>)
    ensures found == FirstCh(GroupsRecords(groups, charsOf), c)
  {
    var g := 0;
    while g < |groups|
      invariant 0 <= g <= |groups|
      invariant FirstCh(GroupsRecords(groups[..g], charsOf), c).None?
    {
      assert groups[..g + 1][..g] == groups[..g];
      var chars := charsOf(groups[g]);
      found := FindInChars(chars, c);
      FirstChAppend(GroupsRecords(groups[..g], charsOf), chars, c);
      if found.Some? {
        assert groups == groups[..g + 1] + groups[g + 1..];
        GroupsRecordsAppend(groups[..g + 1], groups[g + 1..], charsOf);
        FirstChAppend(GroupsRecords(groups[..g + 1], charsOf),
                      GroupsRecords(groups[g + 1..], charsOf), c);
        return;
      }
      g := g + 1;
    }
    assert groups[..g] == groups;
    found := None;
  }

  /** One group's characters: `for (let j = 0; j < chars.length; j++)`. */
  method FindInChars(chars: seq<Record>, c: string) returns (found: Option<Record>)
    ensures found == FirstCh(chars, c)
  {
    var j := 0;
    while j < |chars|
      invariant 0 <= j <= |chars|
      invariant FirstCh(chars[..j], c).None?
    {
      if chars[j].ch == c {
        assert chars == chars[..j] + [chars[j]] + chars[j + 1..];
        FirstChFound(chars[..j], chars[j], chars[j + 1..], c);
        return Some(chars[j]);
      }
      assert chars[..j + 1] == chars[..j] + [chars[j]];
      FirstChAppend(chars[..j], [chars[j]], c);
      j := j + 1;
    }
    assert chars[..j] == chars;
    found := None;
  }

  /** Every record the four tables hold, in the order `searchChar` scans
      them. */
  function SearchOrder(initialsData: Table<SourceGroup>, finalsData: Table<SourceGroup>,
                       mandarinInitialsData: Table<RevGroup>, mandarinFinalsData: Table<RevGroup>)
    : seq<Record>
  {
    Flatten(initialsData, SourceChars) + Flatten(finalsData, SourceChars)
      + Flatten(mandarinInitialsData, RevChars) + Flatten(mandarinFinalsData, RevChars)
  }

  /** An empty query finds nothing; otherwise the result is the first record,
      in scanning order, whose character is the trimmed query, and a record
      found always carries exactly that character. */
  method SearchChar(query: string, initialsData: Table<SourceGroup>, finalsData: Table<SourceGroup>,
                    mandarinInitialsData: Table<RevGroup>, mandarinFinalsData: Table<RevGroup>)
    returns (result: Option<Record>)
    ensures query == [] ==> result.None?
    ensures query != [] ==> result == FirstCh(SearchOrder(initialsData, finalsData,
                                                          mandarinInitialsData, mandarinFinalsData),
                                              Trim(query))
    ensures result.Some? ==> result.value.ch == Trim(query)
  {
    if query == [] {
      return None;
    }
    var ch := Trim(query);
    var a := Flatten(initialsData, SourceChars);
    var b := Flatten(finalsData, SourceChars);
    var c := Flatten(mandarinInitialsData, RevChars);
    var d := Flatten(mandarinFinalsData, RevChars);
    FirstChAppend(a, b, ch);
    FirstChAppend(a + b, c, ch);
    FirstChAppend(a + b + c, d, ch);
    result := FindIn(initialsData, SourceChars, ch);
    if result.None? {
      result := FindIn(finalsData, SourceChars, ch);
    }
    if result.Some? {
      return;
    }
    result := FindIn(mandarinInitialsData, RevChars, ch);
    if result.None? {
      result := FindIn(mandarinFinalsData, RevChars, ch);
    }
  }

  /** With the reverse indexes built from the forward tables, the last two
      scans never find anything the first two missed: the search result is
      the first match in the initials table, then the finals table. */
  lemma ReverseScansAddNothing(initialsData: Table<SourceGroup>, finalsData: Table<SourceGroup>,
                               c: string)
    ensures FirstCh(SearchOrder(initialsData, finalsData,
                                ReverseIndex(initialsData, ByInitials),
                                ReverseIndex(finalsData, ByFinals)), c)
      == FirstCh(Flatten(initialsData, SourceChars) + Flatten(finalsData, SourceChars), c)
  {
    var a := Flatten(initialsData, SourceChars);
    var b := Flatten(finalsData, SourceChars);
    var c1 := Flatten(ReverseIndex(initialsData, ByInitials), RevChars);
    var d := Flatten(ReverseIndex(finalsData, ByFinals), RevChars);
    FirstChAppend(a + b, c1, c);
    FirstChAppend(a + b + c1, d, c);
    if FirstCh(a + b, c).None? {
      forall i | 0 <= i < |c1| ensures c1[i].ch != c {
        ReverseIndexFrom(initialsData, ByInitials, c1[i]);
        assert c1[i] in a + b;
      }
      forall i | 0 <= i < |d| ensures d[i].ch != c {
        ReverseIndexFrom(finalsData, ByFinals, d[i]);
        assert d[i] in a + b;
      }
    }
  }
}
