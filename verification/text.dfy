/** The Python 2 string operations the script relies on: substring tests
    (`t in s`), `str.split`, `str.strip`, `str.lower` and `file.readlines`,
    each given a reference characterisation and the laws the probes need. */
module Text {

  /** `t` occurs in `s` starting at index `i`. */
  predicate OccursAt(s: string, t: string, i: int) {
    0 <= i && i + |t| <= |s| && s[i..i + |t|] == t
  }

  /** Python's `t in s` on strings: a contiguous occurrence anywhere. */
  function Contains(s: string, t: string): bool
    decreases |s|
  {
    if t <= s then true
    else if |s| == 0 then false
    else Contains(s[1..], t)
  }

  lemma {:induction false} ContainsIffOccurs(s: string, t: string)
    ensures Contains(s, t) <==> exists i :: OccursAt(s, t, i)
    decreases |s|
  {
    if t <= s {
      assert OccursAt(s, t, 0) by { assert s[0..|t|] == t; }
    } else if |s| > 0 {
      ContainsIffOccurs(s[1..], t);
      ContainsStep(s, t);
    }
  }

  /** Away from the front, occurrences in `s` are occurrences in `s[1..]`
      one place earlier. */
  lemma ContainsStep(s: string, t: string)
    requires |s| > 0 && !(t <= s)
    requires Contains(s[1..], t) <==> exists i :: OccursAt(s[1..], t, i)
    ensures Contains(s, t) <==> exists i :: OccursAt(s, t, i)
  {
    if Contains(s[1..], t) {
      var i :| OccursAt(s[1..], t, i);
      OccursShift(s, t, i + 1);
    } else {
      forall i ensures !OccursAt(s, t, i) {
        if i == 0 && |t| <= |s| {
          assert s[..|t|] == s[0..|t|];
        } else if i > 0 {
          OccursShift(s, t, i);
        }
      }
    }
  }

  lemma OccursShift(s: string, t: string, i: int)
    requires |s| > 0 && 0 < i
    ensures OccursAt(s, t, i) <==> OccursAt(s[1..], t, i - 1)
  {
    if i + |t| <= |s| {
      assert s[1..][i - 1..i - 1 + |t|] == s[i..i + |t|];
    }
  }

  lemma SliceOfSlice(s: string, a: int, b: int, i: int, j: int)
    requires 0 <= a <= b <= |s| && 0 <= i <= j <= b - a
    ensures s[a..b][i..j] == s[a + i..a + j]
  {
    assert forall k :: 0 <= k < j - i ==> s[a..b][i..j][k] == s[a + i + k];
  }

  lemma ContainsAt(s: string, t: string, i: int)
    requires OccursAt(s, t, i)
    ensures Contains(s, t)
  {
    ContainsIffOccurs(s, t);
  }

  /** An occurrence in either half is an occurrence in the concatenation. */
  lemma ContainsConcat(a: string, b: string, t: string)
    requires Contains(a, t) || Contains(b, t)
    ensures Contains(a + b, t)
  {
    ContainsIffOccurs(a, t);
    ContainsIffOccurs(b, t);
    if Contains(a, t) {
      var i :| OccursAt(a, t, i);
      assert (a + b)[i..i + |t|] == a[i..i + |t|];
      ContainsAt(a + b, t, i);
    } else {
      var i :| OccursAt(b, t, i);
      assert (a + b)[|a| + i..|a| + i + |t|] == b[i..i + |t|];
      ContainsAt(a + b, t, |a| + i);
    }
  }

  /** Substring containment is transitive. */
  lemma ContainsTransitive(a: string, b: string, c: string)
    requires Contains(a, b) && Contains(b, c)
    ensures Contains(a, c)
  {
    ContainsIffOccurs(a, b);
    ContainsIffOccurs(b, c);
    var i :| OccursAt(a, b, i);
    var j :| OccursAt(b, c, j);
    SliceOfSlice(a, i, i + |b|, j, j + |c|);
    ContainsAt(a, c, i + j);
  }

  /** No non-empty string occurs in the empty string: the default `''` of the
      skip and force options matches no step name. */
  lemma NothingInEmpty(t: string)
    requires t != ""
    ensures !Contains("", t)
  {
  }

  // ---------------------------------------------------------------- split

  /** Python's `s.split(sep)` for a non-empty separator: the pieces between
      the non-overlapping occurrences of `sep`, scanned left to right. */
  function Split(s: string, sep: string): (r: seq<string>)
    requires sep != ""
    ensures |r| >= 1
    ensures r[0] <= s
    decreases |s|
  {
    if sep <= s then [""] + Split(s[|sep|..], sep)
    else if |s| == 0 then [""]
    else
      var rest := Split(s[1..], sep);
      [[s[0]] + rest[0]] + rest[1..]
  }

  /** The first piece ends where the first separator starts, or is the whole
      string when there is none. */
  lemma {:induction false} SplitHeadEndsAtSeparator(s: string, sep: string)
    requires sep != ""
    ensures Split(s, sep)[0] == s || sep <= s[|Split(s, sep)[0]|..]
    decreases |s|
  {
    if !(sep <= s) && |s| > 0 {
      var h := Split(s[1..], sep)[0];
      SplitHeadEndsAtSeparator(s[1..], sep);
      assert Split(s, sep)[0] == [s[0]] + h;
      assert s[1..][|h|..] == s[1 + |h|..];
    }
  }

  /** The first piece stops at the FIRST occurrence: no occurrence of the
      separator starts inside it. */
  lemma {:induction false} SplitHeadFirst(s: string, sep: string)
    requires sep != ""
    ensures forall i :: 0 <= i < |Split(s, sep)[0]| ==> !OccursAt(s, sep, i)
    decreases |s|
  {
    if !(sep <= s) && |s| > 0 {
      var h := Split(s[1..], sep)[0];
      SplitHeadFirst(s[1..], sep);
      assert Split(s, sep)[0] == [s[0]] + h;
      forall i | 0 <= i < 1 + |h| ensures !OccursAt(s, sep, i) {
        if i > 0 && i + |sep| <= |s| {
          assert s[1..][i - 1..i - 1 + |sep|] == s[i..i + |sep|];
          assert !OccursAt(s[1..], sep, i - 1);
        }
      }
    }
  }

  /** A string with no separator is a split of one piece. */
  lemma {:induction false} SplitWithoutSeparator(s: string, sep: string)
    requires sep != "" && !Contains(s, sep)
    ensures Split(s, sep) == [s]
    decreases |s|
  {
    if |s| > 0 {
      SplitWithoutSeparator(s[1..], sep);
      assert s == [s[0]] + s[1..];
    }
  }

  /** Splitting at the first occurrence of the separator: the first piece
      is everything before it, and the remaining pieces are the split of
      everything after it. With SplitHeadFirst, SplitHeadEndsAtSeparator and
      the separator-free case this pins down every piece. */
  lemma {:induction false} SplitAt(s: string, sep: string, i: nat)
    requires sep != ""
    requires OccursAt(s, sep, i)
    requires forall j :: 0 <= j < i ==> !OccursAt(s, sep, j)
    ensures Split(s, sep)[0] == s[..i]
    ensures Split(s, sep)[1..] == Split(s[i + |sep|..], sep)
    decreases i, 1
  {
    if i == 0 {
      SplitAtSeparator(s, sep);
    } else {
      SplitAtStep(s, sep, i);
    }
  }

  /** The case of `SplitAt` where `s` starts with the separator. */
  lemma SplitAtSeparator(s: string, sep: string)
    requires sep != "" && OccursAt(s, sep, 0)
    ensures Split(s, sep)[0] == s[..0]
    ensures Split(s, sep)[1..] == Split(s[|sep|..], sep)
  {
    assert sep <= s by { assert s[0..|sep|] == sep; }
    var r := Split(s, sep);
    assert r == [""] + Split(s[|sep|..], sep);
    assert r[1..] == Split(s[|sep|..], sep);
  }

  /** Occurrences in `s` at and before `i` are occurrences in `s[1..]` one
      place earlier. */
  lemma ShiftOccurrences(s: string, sep: string, i: nat)
    requires sep != "" && 0 < i && OccursAt(s, sep, i)
    requires forall j :: 0 <= j < i ==> !OccursAt(s, sep, j)
    ensures !(sep <= s) && |s| > 0
    ensures OccursAt(s[1..], sep, i - 1)
    ensures forall j :: 0 <= j < i - 1 ==> !OccursAt(s[1..], sep, j)
  {
    assert !OccursAt(s, sep, 0);
    assert !(sep <= s) by {
      if |sep| <= |s| { assert s[0..|sep|] == s[..|sep|]; }
    }
    assert s[1..][i - 1..i - 1 + |sep|] == s[i..i + |sep|];
    forall j | 0 <= j < i - 1 ensures !OccursAt(s[1..], sep, j) {
      assert s[1..][j..j + |sep|] == s[j + 1..j + 1 + |sep|];
      assert !OccursAt(s, sep, j + 1);
    }
  }

  /** The inductive step of `SplitAt`: prepending a character that starts no
      separator grows the first piece and leaves the rest alone. */
  lemma {:induction false} SplitAtStep(s: string, sep: string, i: nat)
    requires sep != "" && 0 < i && OccursAt(s, sep, i)
    requires forall j :: 0 <= j < i ==> !OccursAt(s, sep, j)
    ensures Split(s, sep)[0] == s[..i]
    ensures Split(s, sep)[1..] == Split(s[i + |sep|..], sep)
    decreases i, 0
  {
    var t := s[1..];
    assert !(sep <= s) && |s| > 0 && i - 1 + |sep| <= |t| &&
      Split(t, sep)[0] == t[..i - 1] &&
      Split(t, sep)[1..] == Split(t[i - 1 + |sep|..], sep) by {
      ShiftOccurrences(s, sep, i);
      SplitAt(t, sep, i - 1);
    }
    assert t[i - 1 + |sep|..] == s[i + |sep|..];
    SplitAtChar(s, sep);
    PrefixCons(s, i);
  }

  /** One unfolding of Split when `s` starts with an ordinary character. */
  lemma SplitAtChar(s: string, sep: string)
    requires sep != "" && !(sep <= s) && |s| > 0
    ensures Split(s, sep)[0] == [s[0]] + Split(s[1..], sep)[0]
    ensures Split(s, sep)[1..] == Split(s[1..], sep)[1..]
  {
    var rest := Split(s[1..], sep);
    var r := Split(s, sep);
    assert r == [[s[0]] + rest[0]] + rest[1..];
    assert r[1..] == rest[1..];
  }

  lemma PrefixCons(s: string, i: nat)
    requires 0 < i <= |s|
    ensures [s[0]] + s[1..][..i - 1] == s[..i]
  {
  }

  /** Python's `sep.join(parts)`. */
  function JoinWith(parts: seq<string>, sep: string): string
    decreases |parts|
  {
    if |parts| == 0 then ""
    else if |parts| == 1 then parts[0]
    else parts[0] + sep + JoinWith(parts[1..], sep)
  }

  lemma JoinWithExtendHead(c: char, parts: seq<string>, sep: string)
    requires |parts| >= 1
    ensures JoinWith([[c] + parts[0]] + parts[1..], sep) == [c] + JoinWith(parts, sep)
  {
    var q := [[c] + parts[0]] + parts[1..];
    assert q[1..] == parts[1..];
  }

  /** Joining the pieces with the separator gives back the original. */
  lemma {:induction false} JoinSplit(s: string, sep: string)
    requires sep != ""
    ensures JoinWith(Split(s, sep), sep) == s
    decreases |s|
  {
    if sep <= s {
      JoinSplit(s[|sep|..], sep);
      JoinSplitAtSeparator(s, sep);
    } else if |s| > 0 {
      JoinSplit(s[1..], sep);
      JoinSplitAtChar(s, sep);
    }
  }

  lemma JoinSplitAtSeparator(s: string, sep: string)
    requires sep != "" && sep <= s
    requires JoinWith(Split(s[|sep|..], sep), sep) == s[|sep|..]
    ensures JoinWith(Split(s, sep), sep) == s
  {
    var rest := Split(s[|sep|..], sep);
    assert Split(s, sep) == [""] + rest;
    JoinAfterEmpty(rest, sep);
    assert s == sep + s[|sep|..];
  }

  lemma JoinAfterEmpty(parts: seq<string>, sep: string)
    requires |parts| >= 1
    ensures JoinWith([""] + parts, sep) == sep + JoinWith(parts, sep)
  {
    var r := [""] + parts;
    assert r[1..] == parts;
    assert r[0] + sep == sep;
  }

  lemma JoinSplitAtChar(s: string, sep: string)
    requires sep != "" && !(sep <= s) && |s| > 0
    requires JoinWith(Split(s[1..], sep), sep) == s[1..]
    ensures JoinWith(Split(s, sep), sep) == s
  {
    var rest := Split(s[1..], sep);
    assert JoinWith(Split(s, sep), sep) == [s[0]] + JoinWith(rest, sep) by {
      assert Split(s, sep) == [[s[0]] + rest[0]] + rest[1..];
      JoinWithExtendHead(s[0], rest, sep);
    }
    assert s == [s[0]] + s[1..];
  }

  /** The first piece of a split never contains the separator. */
  lemma SplitHeadFree(s: string, sep: string)
    requires sep != ""
    ensures !Contains(Split(s, sep)[0], sep)
  {
    var h := Split(s, sep)[0];
    SplitHeadFirst(s, sep);
    ContainsIffOccurs(h, sep);
    forall i ensures !OccursAt(h, sep, i) {
      if 0 <= i && i + |sep| <= |h| {
        assert h[i..i + |sep|] == s[i..i + |sep|];
        assert !OccursAt(s, sep, i);
      }
    }
  }

  /** No piece of a split contains the separator. */
  lemma {:induction false} SplitPiecesFree(s: string, sep: string)
    requires sep != ""
    ensures forall k :: 0 <= k < |Split(s, sep)| ==> !Contains(Split(s, sep)[k], sep)
    decreases |s|
  {
    var r := Split(s, sep);
    SplitHeadFree(s, sep);
    if sep <= s {
      var rest := Split(s[|sep|..], sep);
      SplitPiecesFree(s[|sep|..], sep);
      assert r == [""] + rest;
      forall k | 1 <= k < |r| ensures !Contains(r[k], sep) {
        assert r[k] == rest[k - 1];
      }
    } else if |s| > 0 {
      var rest := Split(s[1..], sep);
      SplitPiecesFree(s[1..], sep);
      assert r == [[s[0]] + rest[0]] + rest[1..];
      forall k | 1 <= k < |r| ensures !Contains(r[k], sep) {
        assert r[k] == rest[k];
      }
    }
  }

  // ---------------------------------------------------------------- strip

  /** The characters Python 2's `str.strip()` removes: space, tab, newline,
      vertical tab, form feed and carriage return. */
  predicate IsSpace(c: char) {
    c == ' ' || ('\t' <= c <= '\r')
  }

  /** Neither end of `s` is whitespace. */
  predicate IsStripped(s: string) {
    s == [] || (!IsSpace(s[0]) && !IsSpace(s[|s| - 1]))
  }

  /** `r` is `s[a..a + |r|]` and everything cut off on either side is whitespace. */
  predicate TrimmedAt(s: string, r: string, a: int) {
    && 0 <= a && a + |r| <= |s|
    && s[a..a + |r|] == r
    && (forall k :: 0 <= k < a ==> IsSpace(s[k]))
    && (forall k :: a + |r| <= k < |s| ==> IsSpace(s[k]))
  }

  function TrimLeft(s: string): (r: string)
    ensures |r| <= |s| && r == s[|s| - |r|..]
    ensures forall k :: 0 <= k < |s| - |r| ==> IsSpace(s[k])
    ensures r == [] || !IsSpace(r[0])
    decreases |s|
  {
    if |s| > 0 && IsSpace(s[0]) then TrimLeft(s[1..]) else s
  }

  function TrimRight(s: string): (r: string)
    ensures |r| <= |s| && r == s[..|r|]
    ensures forall k :: |r| <= k < |s| ==> IsSpace(s[k])
    ensures r == [] || !IsSpace(r[|r| - 1])
    decreases |s|
  {
    if |s| > 0 && IsSpace(s[|s| - 1]) then TrimRight(s[..|s| - 1]) else s
  }

  /** Python 2's `s.strip()`. */
  function Strip(s: string): (r: string)
    ensures IsStripped(r)
    ensures exists a :: TrimmedAt(s, r, a)
  {
    var l := TrimLeft(s);
    var r := TrimRight(l);
    StripTrims(s, l, r);
    r
  }

  /** Trimming the left and then the right cuts only whitespace: the
      contracts of TrimLeft (for `l`) and TrimRight (for `r`) combined. */
  lemma StripTrims(s: string, l: string, r: string)
    requires |l| <= |s| && l == s[|s| - |l|..]
    requires forall k :: 0 <= k < |s| - |l| ==> IsSpace(s[k])
    requires l == [] || !IsSpace(l[0])
    requires |r| <= |l| && r == l[..|r|]
    requires forall k :: |r| <= k < |l| ==> IsSpace(l[k])
    requires r == [] || !IsSpace(r[|r| - 1])
    ensures IsStripped(r)
    ensures TrimmedAt(s, r, |s| - |l|)
  {
    var a := |s| - |l|;
    assert r == [] || r[0] == l[0];
    assert s[a..a + |r|] == r by { assert s[a..a + |r|] == l[..|r|]; }
    forall k | a + |r| <= k < |s| ensures IsSpace(s[k]) {
      assert s[k] == l[k - a];
    }
  }

  /** Stripping is idempotent. */
  lemma StripStripped(s: string)
    requires IsStripped(s)
    ensures Strip(s) == s
  {
  }

  /** A block cut out of a string without the separator lacks it too. */
  lemma NotContainsSlice(s: string, t: string, a: int, b: int)
    requires 0 <= a <= b <= |s|
    requires !Contains(s, t)
    ensures !Contains(s[a..b], t)
  {
    ContainsIffOccurs(s, t);
    ContainsIffOccurs(s[a..b], t);
    forall i | 0 <= i && i + |t| <= b - a ensures !OccursAt(s[a..b], t, i) {
      SliceOfSlice(s, a, b, i, i + |t|);
      assert !OccursAt(s, t, a + i);
    }
  }

  // ---------------------------------------------------------------- lower

  /** Python 2's `str.lower()` on one byte: only A-Z change. */
  function LowerChar(c: char): char {
    if 'A' <= c <= 'Z' then (c as int - 'A' as int + 'a' as int) as char else c
  }

  function Lower(s: string): (r: string)
    ensures |r| == |s|
    ensures forall i :: 0 <= i < |s| ==> r[i] == LowerChar(s[i])
  {
    seq(|s|, i requires 0 <= i < |s| => LowerChar(s[i]))
  }

  predicate IsLower(s: string) {
    forall i :: 0 <= i < |s| ==> LowerChar(s[i]) == s[i]
  }

  lemma LowerIsLower(s: string)
    ensures IsLower(Lower(s))
  {
  }

  lemma LowerOfLower(s: string)
    requires IsLower(s)
    ensures Lower(s) == s
  {
  }

  /** Lower-casing neither creates nor removes whitespace at the ends. */
  lemma LowerKeepsStripped(s: string)
    requires IsStripped(s)
    ensures IsStripped(Lower(s))
  {
  }

  /** Lower-casing cannot create an occurrence of `==`. */
  lemma LowerKeepsNoEquals(s: string)
    requires !Contains(s, "==")
    ensures !Contains(Lower(s), "==")
  {
    ContainsIffOccurs(s, "==");
    ContainsIffOccurs(Lower(s), "==");
    forall i | 0 <= i && i + 2 <= |s| ensures !OccursAt(Lower(s), "==", i) {
      assert !OccursAt(s, "==", i);
      assert s[i..i + 2] == [s[i], s[i + 1]];
      assert Lower(s)[i..i + 2] == [LowerChar(s[i]), LowerChar(s[i + 1])];
    }
  }

  // ------------------------------------------------------------ readlines

  /** Python's `f.readlines()` on contents `s`: the lines, each keeping its
      terminating newline; only the last may lack one. */
  function ReadLines(s: string): (r: seq<string>)
    ensures forall i :: 0 <= i < |r| ==> r[i] != ""
    ensures forall i :: 0 <= i < |r| - 1 ==> r[i][|r[i]| - 1] == '\n'
    ensures forall i, k :: 0 <= i < |r| && 0 <= k < |r[i]| - 1 ==> r[i][k] != '\n'
    decreases |s|
  {
    if |s| == 0 then []
    else if s[0] == '\n' then ["\n"] + ReadLines(s[1..])
    else
      var rest := ReadLines(s[1..]);
      if rest == [] then [s]
      else [[s[0]] + rest[0]] + rest[1..]
  }

  function Concat(lines: seq<string>): string
    decreases |lines|
  {
    if |lines| == 0 then "" else lines[0] + Concat(lines[1..])
  }

  /** Reading the lines loses nothing: they concatenate back to the contents. */
  lemma {:induction false} ReadLinesConcat(s: string)
    ensures Concat(ReadLines(s)) == s
    decreases |s|
  {
    if |s| == 0 {
    } else if s[0] == '\n' {
      ReadLinesConcat(s[1..]);
      var r := ["\n"] + ReadLines(s[1..]);
      assert r[1..] == ReadLines(s[1..]);
      assert s == "\n" + s[1..];
    } else {
      var rest := ReadLines(s[1..]);
      ReadLinesConcat(s[1..]);
      if rest == [] {
        assert s == [s[0]];
      } else {
        var r := [[s[0]] + rest[0]] + rest[1..];
        assert r[1..] == rest[1..];
        assert Concat(rest) == rest[0] + Concat(rest[1..]);
        assert s == [s[0]] + s[1..];
      }
    }
  }

  // ---------------------------------------------------------- sequences

  /** Concatenation regroups freely. */
  lemma AppendAssoc<T>(x: seq<T>, y: seq<T>, z: seq<T>)
    ensures x + (y + z) == (x + y) + z
  {
  }
}
