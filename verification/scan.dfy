/** The `consume(data)` closures of the tone builders: every record of every
    group of every key, in `for…in` / `forEach` order, fed to one step. */
module Scan {
  import opened Common

  /** The state after feeding `rs` to `step`, one record at a time. */
  function Fold<S>(s0: S, rs: seq<Record>, step: (S, Record) -> S): S
  {
    if rs == [] then s0 else step(Fold(s0, rs[..|rs| - 1], step), rs[|rs| - 1])
  }

  /** Feeding two runs one after the other is feeding their concatenation. */
  lemma {:induction false} FoldAppend<S>(s0: S, a: seq<Record>, b: seq<Record>, step: (S, Record) -> S)
    ensures Fold(s0, a + b, step) == Fold(Fold(s0, a, step), b, step)
    decreases |b|
  {
    if b == [] {
      assert a + b == a;
    } else {
      var b' := b[..|b| - 1];
      assert (a + b)[..|a + b| - 1] == a + b';
      FoldAppend(s0, a, b', step);
    }
  }

  /** `consume(data)`: the records of the whole table, key by key and group
      by group. */
  method Consume<S>(data: Table<SourceGroup>, s0: S, step: (S, Record) -> S) returns (s: S)
    ensures s == Fold(s0, Flatten(data, SourceChars), step)
  {
    s := s0;
    var i := 0;
    while i < |data|
      invariant 0 <= i <= |data|
      invariant s == Fold(s0, Flatten(data[..i], SourceChars), step)
    {
      assert data[..i + 1][..i] == data[..i];
      FoldAppend(s0, Flatten(data[..i], SourceChars), GroupsRecords(data[i].1, SourceChars), step);
      s := ConsumeGroups(s, data[i].1, step);
      i := i + 1;
    }
    assert data[..i] == data;
  }

  /** `data[k].forEach(group => group.chars.forEach(...))`. */
  method ConsumeGroups<S>(s0: S, groups: seq<SourceGroup>, step: (S, Record) -> S) returns (s: S)
    ensures s == Fold(s0, GroupsRecords(groups, SourceChars), step)
  {
    s := s0;
    var g := 0;
    while g < |groups|
      invariant 0 <= g <= |groups|
      invariant s == Fold(s0, GroupsRecords(groups[..g], SourceChars), step)
    {
      assert groups[..g + 1][..g] == groups[..g];
      FoldAppend(s0, GroupsRecords(groups[..g], SourceChars), groups[g].chars, step);
      var c := 0;
      ghost var start := s;
      while c < |groups[g].chars|
        invariant 0 <= c <= |groups[g].chars|
        invariant s == Fold(start, groups[g].chars[..c], step)
      {
        assert groups[g].chars[..c + 1][..c] == groups[g].chars[..c];
        s := step(s, groups[g].chars[c]);
        c := c + 1;
      }
      assert groups[g].chars[..c] == groups[g].chars;
      g := g + 1;
    }
    assert groups[..g] == groups;
  }
}
