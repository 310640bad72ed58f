/** The small regular-expression scanners applied to romanization strings,
    written out as explicit scanning functions:
    `/([a-zA-Z]+\d)/` and `/([a-zA-Z]+)(\d)/` (a letter run then a digit),
    `/\d/` (the first digit), `/\d/g` removal, `/^[^aeiou]+/` removal,
    `/[^a-zA-Z0-9]/g` removal, and `String.prototype.trim`. */
module Romanization {
  import opened Common

  predicate IsLetter(c: char) { 'a' <= c <= 'z' || 'A' <= c <= 'Z' }
  predicate IsDigit(c: char) { '0' <= c <= '9' }
  predicate IsAlnum(c: char) { IsLetter(c) || IsDigit(c) }
  predicate IsVowel(c: char) { c == 'a' || c == 'e' || c == 'i' || c == 'o' || c == 'u' }

  /** The characters JavaScript's `trim` removes: WhiteSpace and
      LineTerminator of ECMA-262. */
  predicate IsJsSpace(c: char)
  {
    c == ' ' || c == '\t' || c == '\n' || c == '\r' || c == '\U{B}' || c == '\U{C}'
    || c == '\U{A0}' || c == '\U{1680}' || ('\U{2000}' <= c <= '\U{200A}')
    || c == '\U{2028}' || c == '\U{2029}' || c == '\U{202F}' || c == '\U{205F}'
    || c == '\U{3000}' || c == '\U{FEFF}'
  }

  // ---------------------------------------------------------------------
  // A run of ASCII letters immediately followed by one digit.

  /** `s[i..j]` is a non-empty run of letters and `s[j]` a digit: the regular
      expression `[a-zA-Z]+\d` matches `s[i..j+1]` when tried at position `i`. */
  predicate TokenAt(s: string, i: int, j: int)
  {
    0 <= i < j < |s| && IsDigit(s[j]) && forall k :: i <= k < j ==> IsLetter(s[k])
  }

  /** A letter run determines where its digit is. */
  lemma TokenEndUnique(s: string, i: int, j: int, j': int)
    requires TokenAt(s, i, j) && TokenAt(s, i, j')
    ensures j == j'
  {
    assert !(j < j');
    assert !(j' < j);
  }

  /** The end of the maximal letter run that starts at `i`. */
  function RunEnd(s: string, i: nat): (j: nat)
    requires i <= |s|
    ensures i <= j <= |s|
    ensures forall k :: i <= k < j ==> IsLetter(s[k])
    ensures j == |s| || !IsLetter(s[j])
    decreases |s| - i
  {
    if i < |s| && IsLetter(s[i]) then RunEnd(s, i + 1) else i
  }

  /** Leftmost match of `[a-zA-Z]+\d` at or after `from`, as the pair
      (start of the letters, index of the digit). */
  function FindToken(s: string, from: nat): (r: Option<(nat, nat)>)
    requires from <= |s|
    ensures r.Some? ==> from <= r.value.0 && TokenAt(s, r.value.0, r.value.1)
    ensures r.Some? ==> forall i, j :: from <= i < r.value.0 ==> !TokenAt(s, i, j)
    ensures r.None? ==> forall i, j :: from <= i ==> !TokenAt(s, i, j)
    decreases |s| - from
  {
    if from == |s| then None
    else if IsLetter(s[from]) then
      var j := RunEnd(s, from);
      if j < |s| && IsDigit(s[j]) then Some((from, j))
      else
        assert forall i, j' :: from <= i < j ==> !TokenAt(s, i, j') by {
          forall i, j' | from <= i < j ensures !TokenAt(s, i, j') {
          }
        }
        FindToken(s, j)
    else FindToken(s, from + 1)
  }

  /** `extractJyut`: the audio token of a romanization field such as
      "烹(paang1)" or "paang1". */
  function ExtractJyut(s: string): (r: string)
    ensures forall k :: 0 <= k < |r| ==> IsAlnum(r[k])
    ensures s == [] ==> r == []
    ensures FindToken(s, 0).Some? ==> 2 <= |r| && IsDigit(r[|r| - 1])
    ensures FindToken(s, 0).Some? ==> forall k :: 0 <= k < |r| - 1 ==> IsLetter(r[k])
  {
    if s == [] then []
    else match FindToken(s, 0)
      case Some((i, j)) => s[i..j + 1]
      case None => KeepAlnum(s)
  }

  /** `str.replace(/[^a-zA-Z0-9]/g, '')`. */
  function KeepAlnum(s: string): (r: string)
    ensures |r| <= |s|
    ensures forall k :: 0 <= k < |r| ==> IsAlnum(r[k])
    ensures (forall k :: 0 <= k < |s| ==> IsAlnum(s[k])) ==> r == s
  {
    if s == [] then []
    else (if IsAlnum(s[0]) then [s[0]] else []) + KeepAlnum(s[1..])
  }

  /** Every letter and digit is kept as often as it occurs, and nothing
      else is. */
  lemma {:induction false} KeepAlnumCounts(s: string)
    ensures forall c :: multiset(KeepAlnum(s))[c] == if IsAlnum(c) then multiset(s)[c] else 0
  {
    if s != [] {
      assert s == [s[0]] + s[1..];
      KeepAlnumCounts(s[1..]);
    }
  }

  /** The filter works character by character: the kept characters of a
      concatenation are those of each part, in order. */
  lemma {:induction false} KeepAlnumAppend(a: string, b: string)
    ensures KeepAlnum(a + b) == KeepAlnum(a) + KeepAlnum(b)
  {
    if a != [] {
      assert (a + b)[1..] == a[1..] + b;
      KeepAlnumAppend(a[1..], b);
    } else {
      assert a + b == b;
    }
  }

  /** When some letter run is followed by a digit, the token is the first
      such run together with that one digit. */
  lemma ExtractJyutLeftmost(s: string, i: nat, j: nat)
    requires TokenAt(s, i, j)
    requires forall i', j' :: 0 <= i' < i ==> !TokenAt(s, i', j')
    ensures ExtractJyut(s) == s[i..j + 1]
  {
    var r := FindToken(s, 0);
    assert r.Some?;
    var (a, b) := r.value;
    assert !(a < i) && !(i < a);
    TokenEndUnique(s, i, j, b);
  }

  /** Without any letter run followed by a digit, every character outside
      [A-Za-z0-9] is removed and nothing else changes. */
  lemma ExtractJyutFallback(s: string)
    requires s != []
    requires forall i, j :: !TokenAt(s, i, j)
    ensures ExtractJyut(s) == KeepAlnum(s)
  {
    assert FindToken(s, 0).None?;
  }

  lemma ExtractJyutExamples()
    ensures ExtractJyut("烹(paang1)") == "paang1"
    ensures ExtractJyut("paang1") == "paang1"
    ensures ExtractJyut("ng-") == "ng"
  {
    ExtractJyutBracketed();
    ExtractJyutPlain();
    KeepAlnumNg();
  }

  lemma ExtractJyutPlain()
    ensures ExtractJyut("paang1") == "paang1"
  {
    var s := "paang1";
    assert TokenAt(s, 0, 5);
    ExtractJyutLeftmost(s, 0, 5);
    assert s[0..6] == s;
  }

  lemma ExtractJyutBracketed()
    ensures ExtractJyut("烹(paang1)") == "paang1"
  {
    var s := "烹(paang1)";
    assert !IsLetter(s[0]) && !IsLetter(s[1]);
    ExtractJyutLeftmost(s, 2, 7);
  }

  lemma KeepAlnumNg()
    ensures ExtractJyut("ng-") == "ng"
  {
    assert KeepAlnum("-") == [];
    assert KeepAlnum("g-") == "g";
    assert KeepAlnum("ng-") == "ng";
  }

  // ---------------------------------------------------------------------
  // The first digit of a field.

  /** `s[i]` is a digit and no digit comes before it. */
  predicate IsFirstDigit(s: string, i: int)
  {
    0 <= i < |s| && IsDigit(s[i]) && forall k :: 0 <= k < i ==> !IsDigit(s[k])
  }

  /** `s.match(/\d/)`: the first digit, if any. */
  function FirstDigit(s: string): (r: Option<char>)
    ensures r.Some? ==> IsDigit(r.value)
    ensures r.Some? ==> exists i :: 0 <= i < |s| && s[i] == r.value && IsFirstDigit(s, i)
    ensures r.None? <==> forall k :: 0 <= k < |s| ==> !IsDigit(s[k])
  {
    if s == [] then None
    else if IsDigit(s[0]) then Some(s[0])
    else
      var r := FirstDigit(s[1..]);
      assert r.Some? ==> exists i :: 0 <= i < |s| && s[i] == r.value && IsFirstDigit(s, i) by {
        if r.Some? {
          var i :| 0 <= i < |s[1..]| && s[1..][i] == r.value && IsFirstDigit(s[1..], i);
          assert s[i + 1] == r.value;
          assert forall k :: 0 <= k < i + 1 ==> !IsDigit(s[k]) by {
            forall k | 0 <= k < i + 1 ensures !IsDigit(s[k]) {
              if k > 0 { assert s[k] == s[1..][k - 1]; }
            }
          }
        }
      }
      r
  }

  // ---------------------------------------------------------------------
  // The Mandarin final of a pinyin syllable.

  /** `String(s).replace(/\d/g, '')`. */
  function RemoveDigits(s: string): (r: string)
    ensures |r| <= |s|
    ensures forall k :: 0 <= k < |r| ==> !IsDigit(r[k])
    ensures (forall k :: 0 <= k < |s| ==> !IsDigit(s[k])) ==> r == s
  {
    if s == [] then []
    else (if IsDigit(s[0]) then [] else [s[0]]) + RemoveDigits(s[1..])
  }

  /** Every character other than a digit is kept as often as it occurs,
      and no digit is. */
  lemma {:induction false} RemoveDigitsCounts(s: string)
    ensures forall c :: multiset(RemoveDigits(s))[c] == if IsDigit(c) then 0 else multiset(s)[c]
  {
    if s != [] {
      assert s == [s[0]] + s[1..];
      RemoveDigitsCounts(s[1..]);
    }
  }

  /** Digits are removed character by character: the rest of a
      concatenation is the rest of each part, in order. */
  lemma {:induction false} RemoveDigitsAppend(a: string, b: string)
    ensures RemoveDigits(a + b) == RemoveDigits(a) + RemoveDigits(b)
  {
    if a != [] {
      assert (a + b)[1..] == a[1..] + b;
      RemoveDigitsAppend(a[1..], b);
    } else {
      assert a + b == b;
    }
  }

  /** `s.replace(/^[^aeiou]+/, '')`: drops the maximal leading run of
      characters other than the five lower-case vowels. */
  function DropLeadingNonVowels(s: string): (r: string)
    ensures |r| <= |s| && r == s[|s| - |r|..]
    ensures r == [] || IsVowel(r[0])
    ensures forall k :: 0 <= k < |s| - |r| ==> !IsVowel(s[k])
  {
    if s == [] || IsVowel(s[0]) then s
    else
      var r := DropLeadingNonVowels(s[1..]);
      assert s[1..][|s[1..]| - |r|..] == s[|s| - |r|..];
      r
  }

  /** `extractMandarinFinal`: a missing or empty pinyin gives "", and the
      final never holds a digit and is empty or starts with a vowel. */
  function ExtractMandarinFinal(pinyin: Option<string>): (r: string)
    ensures pinyin.None? ==> r == []
    ensures forall k :: 0 <= k < |r| ==> !IsDigit(r[k])
    ensures r == [] || IsVowel(r[0])
  {
    match pinyin
    case None => []
    case Some(p) =>
      var cleaned := RemoveDigits(p);
      var r := DropLeadingNonVowels(cleaned);
      assert forall k :: 0 <= k < |r| ==> r[k] == cleaned[|cleaned| - |r| + k];
      r
  }

  /** The final is what is left of the digit-stripped pinyin once its
      maximal leading run of non-vowels is gone. */
  lemma MandarinFinalIsVowelSuffix(p: string)
    ensures var cleaned := RemoveDigits(p);
      var r := ExtractMandarinFinal(Some(p));
      && |r| <= |cleaned| && r == cleaned[|cleaned| - |r|..]
      && (forall k :: 0 <= k < |cleaned| - |r| ==> !IsVowel(cleaned[k]))
  {
  }

  lemma MandarinFinalXiang()
    ensures ExtractMandarinFinal(Some("xiang1")) == "iang"
  {
    RemoveDigitsXiang();
    DropXiang();
  }

  lemma DropXiang()
    ensures DropLeadingNonVowels("xiang") == "iang"
  {
    var s := "xiang";
    assert s[1..] == "iang";
    assert DropLeadingNonVowels("iang") == "iang";
  }

  lemma RemoveDigitsXiang()
    ensures RemoveDigits("xiang1") == "xiang"
  {
    RemoveDigitsAng();
    var s := "xiang1";
    assert s[1..] == "iang1" && s[1..][1..] == "ang1";
  }

  lemma RemoveDigitsAng()
    ensures RemoveDigits("ang1") == "ang"
  {
    var s := "ang1";
    assert s[1..] == "ng1" && s[1..][1..] == "g1" && s[1..][1..][1..] == "1";
    assert RemoveDigits("1") == "";
  }

  lemma MandarinFinalSyllabic()
    ensures ExtractMandarinFinal(Some("m2")) == ""
  {
    assert RemoveDigits("m2") == "m" by {
      var m2 := "m2";
      assert m2[1..][1..] == [];
      assert RemoveDigits(m2[1..]) == [];
    }
    assert DropLeadingNonVowels("m") == [] by {
      var m := "m";
      assert m[1..] == [];
    }
  }

  // ---------------------------------------------------------------------
  // String.prototype.trim

  /** The first index from `i` on that is not white space. */
  function SkipSpaces(s: string, i: nat): (a: nat)
    requires i <= |s|
    ensures i <= a <= |s|
    ensures forall k :: i <= k < a ==> IsJsSpace(s[k])
    ensures a == |s| || !IsJsSpace(s[a])
    decreases |s| - i
  {
    if i == |s| || !IsJsSpace(s[i]) then i else SkipSpaces(s, i + 1)
  }

  /** The end of `s[a..b]` once the white space in front of `b` is cut. */
  function BackSpaces(s: string, a: nat, b: nat): (e: nat)
    requires a <= b <= |s|
    ensures a <= e <= b
    ensures forall k :: e <= k < b ==> IsJsSpace(s[k])
    ensures e == a || !IsJsSpace(s[e - 1])
  {
    if b == a || !IsJsSpace(s[b - 1]) then b else BackSpaces(s, a, b - 1)
  }

  /** `s[a..b]` is surrounded by white space only. */
  predicate SpaceAround(s: string, a: int, b: int)
  {
    && 0 <= a <= b <= |s|
    && (forall k :: 0 <= k < a ==> IsJsSpace(s[k]))
    && (forall k :: b <= k < |s| ==> IsJsSpace(s[k]))
  }

  /** `String(ch).trim()`: `s` is the result surrounded by white space only,
      and the result neither starts nor ends with white space. */
  function Trim(s: string): (r: string)
    ensures exists a, b :: SpaceAround(s, a, b) && r == s[a..b]
    ensures r == [] || (!IsJsSpace(r[0]) && !IsJsSpace(r[|r| - 1]))
  {
    var a := SkipSpaces(s, 0);
    var b := BackSpaces(s, a, |s|);
    assert SpaceAround(s, a, b);
    s[a..b]
  }
}
