/**
  The few routines of Go's `strings` package that the control plane relies on:
  `HasPrefix` (role checks), `Index` and `Replace(s, target, "", 1)` (stripping the
  secret-generation marker), `Split` and `Count` on a one-character separator
  (splitting the key triple) and `TrimSpace` (validating key fragments).
  Strings are sequences of Unicode scalar values.
 */
module GoStrings {
  import opened Wrappers

  // ---------------------------------------------------------------------------
  // HasPrefix

  /** `strings.HasPrefix`: `prefix` is the first |prefix| characters of `s`,
      compared character by character. */
  function HasPrefix(s: string, prefix: string): (r: bool)
    ensures r <==> |prefix| <= |s| && s[..|prefix|] == prefix
    ensures r <==> prefix <= s
  {
    if prefix == [] then true
    else if s == [] then false
    else s[0] == prefix[0] && HasPrefix(s[1..], prefix[1..])
  }

  /** An id shorter than the prefix never has it. */
  lemma ShorterNeverHasPrefix(s: string, prefix: string)
    requires |s| < |prefix|
    ensures !HasPrefix(s, prefix)
  {
  }

  /** Having a prefix survives appending any suffix. */
  lemma {:induction false} HasPrefixExtends(s: string, t: string, prefix: string)
    requires HasPrefix(s, prefix)
    ensures HasPrefix(s + t, prefix)
  {
    if prefix != [] {
      assert (s + t)[1..] == s[1..] + t;
      HasPrefixExtends(s[1..], t, prefix[1..]);
    }
  }

  /** Every string has itself and the empty string as prefixes. */
  lemma HasPrefixReflexiveAndEmpty(s: string)
    ensures HasPrefix(s, s)
    ensures HasPrefix(s, "")
  {
  }

  /** A string with prefix `p` is `p` followed by the rest. */
  lemma HasPrefixSplits(s: string, prefix: string)
    requires HasPrefix(s, prefix)
    ensures s == prefix + s[|prefix|..]
  {
  }

  // ---------------------------------------------------------------------------
  // Index and Replace(s, target, replacement, 1)

  /** `strings.Index`: the position of the first occurrence of `sub` in `s`,
      None where Go returns -1. The empty string occurs at 0. */
  function Index(s: string, sub: string): (r: Option<nat>)
    ensures r.Some? ==> r.value + |sub| <= |s| && HasPrefix(s[r.value..], sub)
    ensures r.Some? ==> forall k :: 0 <= k < r.value ==> !HasPrefix(s[k..], sub)
    ensures r.None? ==> forall k :: 0 <= k <= |s| ==> !HasPrefix(s[k..], sub)
  {
    if HasPrefix(s, sub) then Some(0)
    else if s == [] then None
    else
      match Index(s[1..], sub)
      case None =>
        DropShift(s);
        None
      case Some(i) =>
        DropShift(s);
        Some(i + 1)
  }

  /** Dropping k characters of `s` is dropping k - 1 characters of its tail. */
  lemma DropShift(s: string)
    requires s != []
    ensures forall k {:trigger s[k..]} :: 1 <= k <= |s| ==> s[k..] == s[1..][k - 1..]
  {
  }

  /** `strings.Replace(s, target, replacement, 1)`: the first occurrence of
      `target` is replaced by `replacement`; an empty `target` matches at the
      beginning, so `replacement` is inserted
      in front; with no occurrence `s` is returned unchanged. */
  function ReplaceFirst(s: string, target: string, replacement: string): (r: string)
    ensures HasPrefix(s, target) ==> r == replacement + s[|target|..]
    ensures (forall k :: 0 <= k <= |s| ==> !HasPrefix(s[k..], target)) ==> r == s
  {
    match Index(s, target)
    case None => s
    case Some(i) =>
      assert HasPrefix(s[0..], target) ==> i == 0;
      s[..i] + replacement + s[i + |target|..]
  }

  // ---------------------------------------------------------------------------
  // Count, Split and Join on a one-character separator

  /** Number of occurrences of `c` in `s` (`strings.Count` for a one-character
      separator). */
  function Count(s: string, c: char): (n: nat)
    ensures n <= |s|
    ensures n == 0 <==> c !in s
  {
    if s == [] then 0
    else (if s[0] == c then 1 else 0) + Count(s[1..], c)
  }

  lemma {:induction false} CountAppend(a: string, b: string, c: char)
    ensures Count(a + b, c) == Count(a, c) + Count(b, c)
  {
    if a == [] {
      assert a + b == b;
    } else {
      assert (a + b)[1..] == a[1..] + b;
      CountAppend(a[1..], b, c);
    }
  }

  /** `strings.Split(s, sep)` for a one-character separator: the pieces between
      separators, one more piece than there are separators (so the empty string
      splits into one empty piece). */
  function Split(s: string, sep: char): (parts: seq<string>)
    ensures |parts| == Count(s, sep) + 1
  {
    if s == [] then [[]]
    else
      var rest := Split(s[1..], sep);
      if s[0] == sep then [[]] + rest
      else [[s[0]] + rest[0]] + rest[1..]
  }

  /** No piece of a split holds the separator. */
  lemma {:induction false} SplitPiecesFree(s: string, sep: char)
    ensures forall i :: 0 <= i < |Split(s, sep)| ==> sep !in Split(s, sep)[i]
  {
    if s != [] {
      SplitPiecesFree(s[1..], sep);
      var rest := Split(s[1..], sep);
      if s[0] != sep {
        assert sep !in [s[0]] + rest[0];
      }
    }
  }

  /** `strings.Join(parts, sep)` for a one-character separator. */
  function Join(parts: seq<string>, sep: char): (s: string)
    ensures |parts| > 0 ==> Count(s, sep) >= |parts| - 1
  {
    if |parts| == 0 then []
    else if |parts| == 1 then parts[0]
    else
      var tail := Join(parts[1..], sep);
      CountAppend(parts[0] + [sep], tail, sep);
      CountAppend(parts[0], [sep], sep);
      parts[0] + [sep] + tail
  }

  /** Joining the pieces of a split gives back the string. */
  lemma {:induction false} JoinOfSplit(s: string, sep: char)
    ensures Join(Split(s, sep), sep) == s
  {
    if s != [] {
      var rest := Split(s[1..], sep);
      JoinOfSplit(s[1..], sep);
      if s[0] == sep {
        assert Split(s, sep) == [[]] + rest;
        assert ([[]] + rest)[1..] == rest;
        assert s == [] + [sep] + s[1..];
      } else {
        var parts := Split(s, sep);
        assert parts == [[s[0]] + rest[0]] + rest[1..];
        if |rest| == 1 {
          assert Join(rest, sep) == rest[0];
        } else {
          assert parts[1..] == rest[1..];
          assert Join(rest, sep) == rest[0] + [sep] + Join(rest[1..], sep);
        }
      }
    }
  }

  /** A string without the separator splits into itself. */
  lemma {:induction false} SplitWithoutSeparator(a: string, sep: char)
    requires sep !in a
    ensures Split(a, sep) == [a]
  {
    if a != [] {
      SplitWithoutSeparator(a[1..], sep);
      assert [a[0]] + a[1..] == a;
    }
  }

  /** A separator-free piece followed by the separator splits off as the first
      piece. */
  lemma {:induction false} SplitAfterPiece(a: string, sep: char, rest: string)
    requires sep !in a
    ensures Split(a + [sep] + rest, sep) == [a] + Split(rest, sep)
  {
    if a == [] {
      assert a + [sep] + rest == [sep] + rest;
      assert ([sep] + rest)[1..] == rest;
    } else {
      var s := a + [sep] + rest;
      assert s[0] == a[0] != sep;
      assert s[1..] == a[1..] + [sep] + rest;
      SplitAfterPiece(a[1..], sep, rest);
      var tail := Split(s[1..], sep);
      assert tail == [a[1..]] + Split(rest, sep);
      assert Split(s, sep) == [[s[0]] + tail[0]] + tail[1..];
      assert [a[0]] + a[1..] == a;
    }
  }

  /** The join of three pieces, written out. */
  lemma JoinThree(parts: seq<string>, sep: char)
    requires |parts| == 3
    ensures Join(parts, sep) == parts[0] + [sep] + parts[1] + [sep] + parts[2]
  {
    assert parts[1..][1..] == [parts[2]];
    assert Join(parts[1..], sep) == parts[1] + [sep] + parts[2];
  }

  /** Splitting a join of separator-free pieces gives the pieces back. */
  lemma {:induction false} SplitOfJoin(parts: seq<string>, sep: char)
    requires |parts| > 0
    requires forall i :: 0 <= i < |parts| ==> sep !in parts[i]
    ensures Split(Join(parts, sep), sep) == parts
  {
    if |parts| == 1 {
      SplitWithoutSeparator(parts[0], sep);
    } else {
      SplitOfJoin(parts[1..], sep);
      SplitAfterPiece(parts[0], sep, Join(parts[1..], sep));
      assert [parts[0]] + parts[1..] == parts;
    }
  }

  // ---------------------------------------------------------------------------
  // TrimSpace

  /** Unicode's White_Space property as Go's `unicode.White_Space` table
      lists it: inclusive ranges of code points, in increasing order. */
  const WhiteSpaceTable: seq<(char, char)> := [
    ('\t', '\r'), (' ', ' '), ('\U{0085}', '\U{0085}'), ('\U{00A0}', '\U{00A0}'),
    ('\U{1680}', '\U{1680}'), ('\U{2000}', '\U{200A}'), ('\U{2028}', '\U{2029}'),
    ('\U{202F}', '\U{202F}'), ('\U{205F}', '\U{205F}'), ('\U{3000}', '\U{3000}')]

  /** `c` lies in one of the ranges of the White_Space table. */
  predicate InWhiteSpaceTable(c: char) {
    exists k :: 0 <= k < |WhiteSpaceTable| && WhiteSpaceTable[k].0 <= c <= WhiteSpaceTable[k].1
  }

  /** The Latin-1 switch of `unicode.IsSpace`. */
  predicate LatinSpace(c: char) {
    c == '\t' || c == '\n' || c == '\U{000B}' || c == '\U{000C}' || c == '\r' || c == ' '
    || c == '\U{0085}' || c == '\U{00A0}'
  }

  /** In the Latin-1 range the switch and the table agree. */
  lemma LatinSwitchMatchesTable(c: char)
    requires c <= '\U{00FF}'
    ensures LatinSpace(c) <==> InWhiteSpaceTable(c)
  {
    var t := WhiteSpaceTable;
    if LatinSpace(c) {
      if c <= '\r' { assert t[0].0 <= c <= t[0].1; }
      else if c == ' ' { assert t[1].0 <= c <= t[1].1; }
      else if c == '\U{0085}' { assert t[2].0 <= c <= t[2].1; }
      else { assert t[3].0 <= c <= t[3].1; }
    } else {
      forall k | 0 <= k < |t|
        ensures !(t[k].0 <= c <= t[k].1)
      {
        if k >= 4 { assert t[k].0 >= '\U{1680}'; }
      }
    }
  }

  /** `unicode.IsSpace`: a switch over the Latin-1 spaces, and a lookup in the
      White_Space table above Latin-1. Either way it is exactly the
      White_Space property. */
  function IsSpace(c: char): (r: bool)
    ensures r <==> InWhiteSpaceTable(c)
  {
    if c <= '\U{00FF}' then
      LatinSwitchMatchesTable(c);
      LatinSpace(c)
    else InWhiteSpaceTable(c)
  }

  /** Every character of `s` is a space (vacuously so for the empty string). */
  predicate AllSpace(s: string) {
    forall i :: 0 <= i < |s| ==> IsSpace(s[i])
  }

  /** Neither end of `s` is a space. */
  predicate Trimmed(s: string) {
    s != [] ==> !IsSpace(s[0]) && !IsSpace(s[|s| - 1])
  }

  /** Leading spaces removed. */
  function TrimLeft(s: string): (r: string)
    ensures |r| <= |s|
  {
    if s != [] && IsSpace(s[0]) then TrimLeft(s[1..]) else s
  }

  /** What `TrimLeft` removes: it returns a suffix of `s`, everything dropped is
      a space, and the result does not start with one. */
  lemma {:induction false} TrimLeftSpec(s: string)
    ensures var r := TrimLeft(s);
      && r == s[|s| - |r|..]
      && AllSpace(s[..|s| - |r|])
      && (r != [] ==> !IsSpace(r[0]))
  {
    if s != [] && IsSpace(s[0]) {
      TrimLeftSpec(s[1..]);
      var r := TrimLeft(s[1..]);
      assert s[1..][|s| - 1 - |r|..] == s[|s| - |r|..];
      assert forall i :: 1 <= i < |s| - |r| ==> s[i] == s[1..][..|s| - 1 - |r|][i - 1];
    }
  }

  /** Trailing spaces removed. */
  function TrimRight(s: string): (r: string)
    ensures |r| <= |s|
  {
    if s != [] && IsSpace(s[|s| - 1]) then TrimRight(s[..|s| - 1]) else s
  }

  /** What `TrimRight` removes: it returns a prefix of `s`, everything dropped
      is a space, and the result does not end with one. */
  lemma {:induction false} TrimRightSpec(s: string)
    ensures var r := TrimRight(s);
      && r == s[..|r|]
      && AllSpace(s[|r|..])
      && (r != [] ==> !IsSpace(r[|r| - 1]))
  {
    if s != [] && IsSpace(s[|s| - 1]) {
      TrimRightSpec(s[..|s| - 1]);
      var r := TrimRight(s[..|s| - 1]);
      assert s[..|s| - 1][..|r|] == s[..|r|];
      assert forall i :: |r| <= i < |s| - 1 ==> s[i] == s[..|s| - 1][|r|..][i - |r|];
    }
  }

  /** `strings.TrimSpace`: leading and trailing spaces removed; neither end of
      the result is a space. */
  function TrimSpace(s: string): (r: string)
    ensures |r| <= |s| && Trimmed(r)
  {
    var l := TrimLeft(s);
    var r := TrimRight(l);
    TrimLeftSpec(s);
    TrimRightSpec(l);
    assert r != [] ==> r[0] == l[0];
    r
  }

  /** The trimmed string is a slice of the input bounded by spaces only. */
  lemma TrimSpaceIsCore(s: string)
    ensures var r := TrimSpace(s);
      exists i :: 0 <= i <= |s| - |r| && s[i..i + |r|] == r
        && AllSpace(s[..i]) && AllSpace(s[i + |r|..])
  {
    var l := TrimLeft(s);
    var r := TrimRight(l);
    TrimLeftSpec(s);
    TrimRightSpec(l);
    var i := |s| - |l|;
    assert s[i..i + |r|] == l[..|r|];
    assert s[i + |r|..] == l[|r|..];
  }

  /** Leading-space removal consumes a string of spaces entirely. */
  lemma {:induction false} TrimLeftOfSpaces(s: string)
    requires AllSpace(s)
    ensures TrimLeft(s) == []
  {
    if s != [] {
      assert IsSpace(s[0]);
      TrimLeftOfSpaces(s[1..]);
    }
  }

  /** A fragment trims to the empty string exactly when it is all spaces. */
  lemma TrimSpaceEmptyIff(s: string)
    ensures TrimSpace(s) == [] <==> AllSpace(s)
  {
    var l := TrimLeft(s);
    if AllSpace(s) {
      TrimLeftOfSpaces(s);
    }
    if TrimSpace(s) == [] {
      TrimLeftSpec(s);
      TrimRightSpec(l);
      assert AllSpace(l[0..]);
      assert s == s[..|s| - |l|] + l;
    }
  }

  /** A string whose ends are not spaces is left alone. */
  lemma TrimSpaceOfTrimmed(s: string)
    requires Trimmed(s)
    ensures TrimSpace(s) == s
  {
  }

  /** Trimming twice is trimming once. */
  lemma TrimSpaceIdempotent(s: string)
    ensures TrimSpace(TrimSpace(s)) == TrimSpace(s)
  {
    TrimSpaceOfTrimmed(TrimSpace(s));
  }
}
