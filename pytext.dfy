/**
 * The handful of Python string builtins the translator relies on, with the
 * semantics CPython gives them: `str.split` on one separator character,
 * `str.endswith`, `str.strip(chars)`, `str.replace`, `str(int)` and the
 * ordering `<` on `str` (code point by code point).
 */
module PyText {

  /** `s.endswith(suffix)`. */
  predicate EndsWith(s: string, suffix: string)
  {
    |suffix| <= |s| && s[|s| - |suffix|..] == suffix
  }

  /** A copy of `sub` starts at position `i` of `s`. */
  predicate OccursAt(s: string, sub: string, i: int)
  {
    0 <= i <= |s| - |sub| && s[i..i + |sub|] == sub
  }

  /** `sub in s`: some position of `s` starts a copy of `sub`. */
  ghost predicate Contains(s: string, sub: string)
  {
    exists i :: OccursAt(s, sub, i)
  }

  // ---------------------------------------------------------------------
  // str.split(sep) for a one-character separator, and its inverse str.join

  /** `s.split(sep)`: the pieces between separators; never empty. */
  function Split(s: string, sep: char): (parts: seq<string>)
    ensures |parts| >= 1
    decreases |s|
  {
    if s == [] then [[]]
    else
      var rest := Split(s[1..], sep);
      if s[0] == sep then [[]] + rest
      else [[s[0]] + rest[0]] + rest[1..]
  }

  /** `sep.join(parts)`. */
  function Join(parts: seq<string>, sep: char): string
    decreases |parts|
  {
    if parts == [] then []
    else if |parts| == 1 then parts[0]
    else parts[0] + [sep] + Join(parts[1..], sep)
  }

  /** Joining the pieces of a split gives the string back. */
  lemma {:induction false} JoinSplit(s: string, sep: char)
    ensures Join(Split(s, sep), sep) == s
    decreases |s|
  {
    if s != [] {
      JoinSplit(s[1..], sep);
      var rest := Split(s[1..], sep);
      if s[0] == sep {
        assert Split(s, sep) == [[]] + rest;
        assert Join([[]] + rest, sep) == [] + [sep] + Join(rest, sep) by {
          assert ([[]] + rest)[1..] == rest;
        }
      } else {
        var parts := Split(s, sep);
        assert parts == [[s[0]] + rest[0]] + rest[1..];
        if |rest| == 1 {
          assert Join(parts, sep) == [s[0]] + rest[0];
        } else {
          assert parts[1..] == rest[1..];
          assert Join(rest, sep) == rest[0] + [sep] + Join(rest[1..], sep);
          assert Join(parts, sep) == [s[0]] + rest[0] + [sep] + Join(rest[1..], sep);
        }
      }
    }
  }

  /** No piece of a split contains the separator. */
  lemma {:induction false} SplitPiecesFree(s: string, sep: char)
    ensures forall k, j :: 0 <= k < |Split(s, sep)| && 0 <= j < |Split(s, sep)[k]| ==> Split(s, sep)[k][j] != sep
    decreases |s|
  {
    if s != [] {
      SplitPiecesFree(s[1..], sep);
    }
  }

  /** Splitting what was joined from separator-free pieces gives the pieces back. */
  lemma {:induction false} SplitJoin(parts: seq<string>, sep: char)
    requires |parts| >= 1
    requires forall k, j :: 0 <= k < |parts| && 0 <= j < |parts[k]| ==> parts[k][j] != sep
    ensures Split(Join(parts, sep), sep) == parts
    decreases |parts|, |parts[0]|
  {
    if |parts| == 1 {
      SplitOfFree(parts[0], sep);
    } else if parts[0] == [] {
      var tail := Join(parts[1..], sep);
      assert Join(parts, sep) == [sep] + tail;
      assert ([sep] + tail)[1..] == tail;
      SplitJoin(parts[1..], sep);
      assert parts == [[]] + parts[1..];
    } else {
      var smaller := [parts[0][1..]] + parts[1..];
      assert smaller[1..] == parts[1..];
      SplitJoin(smaller, sep);
      var whole := Join(parts, sep);
      assert whole == [parts[0][0]] + Join(smaller, sep) by {
        assert Join(smaller, sep) == parts[0][1..] + [sep] + Join(parts[1..], sep);
        assert parts[0] == [parts[0][0]] + parts[0][1..];
      }
      assert whole[1..] == Join(smaller, sep);
      assert [parts[0][0]] + smaller[0] == parts[0];
      assert parts == [parts[0]] + parts[1..];
    }
  }

  lemma {:induction false} SplitOfFree(s: string, sep: char)
    requires forall j :: 0 <= j < |s| ==> s[j] != sep
    ensures Split(s, sep) == [s]
    decreases |s|
  {
    if s != [] {
      SplitOfFree(s[1..], sep);
      assert s[0] != sep;
      assert Split(s, sep) == [[s[0]] + s[1..]];
      assert [s[0]] + s[1..] == s;
    }
  }

  /** `s.split(sep)[-1]`: the text after the last separator, or all of `s`. */
  function LastPiece(s: string, sep: char): (r: string)
  {
    var parts := Split(s, sep);
    parts[|parts| - 1]
  }

  lemma {:induction false} JoinLength(parts: seq<string>, sep: char)
    requires |parts| >= 1
    ensures |Join(parts, sep)| >= |parts[|parts| - 1]| + |parts| - 1
    decreases |parts|
  {
    if |parts| > 1 {
      JoinLength(parts[1..], sep);
    }
  }

  /** The last piece is a separator-free suffix of `s` that starts right after a separator or at 0. */
  lemma LastPieceIsTail(s: string, sep: char)
    ensures EndsWith(s, LastPiece(s, sep))
    ensures forall j :: 0 <= j < |LastPiece(s, sep)| ==> LastPiece(s, sep)[j] != sep
    ensures |LastPiece(s, sep)| < |s| ==> s[|s| - |LastPiece(s, sep)| - 1] == sep
  {
    SplitPiecesFree(s, sep);
    LastPieceSuffix(s, sep);
  }

  lemma LastPieceStep(s: string, sep: char)
    requires s != []
    ensures LastPiece(s, sep) == if s[0] != sep && |Split(s[1..], sep)| == 1 then [s[0]] + Split(s[1..], sep)[0] else LastPiece(s[1..], sep)
  {
  }

  lemma {:induction false} LastPieceSuffix(s: string, sep: char)
    ensures EndsWith(s, LastPiece(s, sep))
    ensures |LastPiece(s, sep)| < |s| ==> s[|s| - |LastPiece(s, sep)| - 1] == sep
    decreases |s|
  {
    if s != [] {
      var t := s[1..];
      LastPieceSuffix(t, sep);
      var rest := Split(t, sep);
      var last := LastPiece(t, sep);
      LastPieceStep(s, sep);
      if s[0] != sep && |rest| == 1 {
        JoinSplit(t, sep);
        assert rest[0] == t;
        assert LastPiece(s, sep) == [s[0]] + t == s;
      } else {
        assert LastPiece(s, sep) == last;
        assert t[|t| - |last|..] == s[|s| - |last|..];
        if |last| < |t| {
          assert t[|t| - |last| - 1] == s[|s| - |last| - 1];
        } else if s[0] != sep {
          JoinSplit(t, sep);
          JoinLength(rest, sep);
          assert false;
        }
      }
    }
  }

  // ---------------------------------------------------------------------
  // str.strip(chars)

  /** `s.lstrip(chars)`. */
  function StripLeft(s: string, chars: set<char>): (r: string)
    ensures |r| <= |s| && r == s[|s| - |r|..]
    ensures r != [] ==> r[0] !in chars
    ensures forall j :: 0 <= j < |s| - |r| ==> s[j] in chars
    decreases |s|
  {
    if s != [] && s[0] in chars then
      var r := StripLeft(s[1..], chars);
      assert s[1..][|s| - 1 - |r|..] == s[|s| - |r|..];
      assert forall j :: 1 <= j < |s| - |r| ==> s[j] == s[1..][j - 1];
      r
    else s
  }

  /** `s.rstrip(chars)`. */
  function StripRight(s: string, chars: set<char>): (r: string)
    ensures |r| <= |s| && r == s[..|r|]
    ensures r != [] ==> r[|r| - 1] !in chars
    ensures forall j :: |r| <= j < |s| ==> s[j] in chars
    decreases |s|
  {
    if s != [] && s[|s| - 1] in chars then
      var r := StripRight(s[..|s| - 1], chars);
      assert s[..|s| - 1][..|r|] == s[..|r|];
      assert forall j :: |r| <= j < |s| - 1 ==> s[j] == s[..|s| - 1][j];
      r
    else s
  }

  /** `s.strip(chars)`: drop every leading and trailing character that is in `chars`. */
  function Strip(s: string, chars: set<char>): string
  {
    StripRight(StripLeft(s, chars), chars)
  }

  /** The bounds of what `strip` keeps. */
  lemma StripBounds(s: string, chars: set<char>) returns (i: nat, j: nat)
    ensures i <= j <= |s| && Strip(s, chars) == s[i..j]
    ensures forall k :: 0 <= k < i ==> s[k] in chars
    ensures forall k :: j <= k < |s| ==> s[k] in chars
  {
    var l := StripLeft(s, chars);
    var r := StripRight(l, chars);
    i := |s| - |l|;
    j := i + |r|;
    assert r == s[i..j] by {
      assert l[..|r|] == s[i..][..|r|];
    }
    forall k | j <= k < |s| ensures s[k] in chars {
      assert s[k] == l[k - i];
    }
  }

  /**
   * What `strip` keeps is one contiguous slice of `s`, neither of whose ends is
   * in `chars`, and everything it drops is in `chars`.
   */
  lemma StripIsInnerSlice(s: string, chars: set<char>)
    ensures exists i, j ::
              && 0 <= i <= j <= |s| && Strip(s, chars) == s[i..j]
              && (forall k :: 0 <= k < i ==> s[k] in chars)
              && (forall k :: j <= k < |s| ==> s[k] in chars)
    ensures Strip(s, chars) != [] ==> Strip(s, chars)[0] !in chars
    ensures Strip(s, chars) != [] ==> Strip(s, chars)[|Strip(s, chars)| - 1] !in chars
  {
    var i, j := StripBounds(s, chars);
    var l := StripLeft(s, chars);
    var r := StripRight(l, chars);
    if r != [] {
      assert r[0] == l[0];
    }
  }

  // ---------------------------------------------------------------------
  // str.replace(target, repl)

  /** `repl` before every character of `s` and once more at its end: `"ab".replace("", "X") == "XaXbX"`. */
  function Interleave(s: string, repl: string): string
    decreases |s|
  {
    if s == [] then repl else repl + [s[0]] + Interleave(s[1..], repl)
  }

  /** `s.replace(target, repl)`: every occurrence of `target`, found left to right without overlap, becomes `repl`. */
  function Replace(s: string, target: string, repl: string): string
    decreases |s|
  {
    if target == [] then Interleave(s, repl)
    else if |s| < |target| then s
    else if s[..|target|] == target then repl + Replace(s[|target|..], target, repl)
    else [s[0]] + Replace(s[1..], target, repl)
  }

  /** `s.count(target)`: the occurrences that `replace` rewrites. */
  function Count(s: string, target: string): nat
    decreases |s|
  {
    if target == [] then |s| + 1
    else if |s| < |target| then 0
    else if s[..|target|] == target then 1 + Count(s[|target|..], target)
    else Count(s[1..], target)
  }

  /** Each rewritten occurrence changes the length by `|repl| - |target|`. */
  lemma {:induction false} ReplaceLength(s: string, target: string, repl: string)
    ensures |Replace(s, target, repl)| == |s| + Count(s, target) * (|repl| - |target|)
    decreases |s|
  {
    var d := |repl| - |target|;
    if target == [] {
      InterleaveLength(s, repl);
    } else if |s| < |target| {
    } else if s[..|target|] == target {
      var t := s[|target|..];
      ReplaceLength(t, target, repl);
      var c := Count(t, target);
      assert |Replace(s, target, repl)| == |repl| + |Replace(t, target, repl)|;
      assert Count(s, target) == 1 + c;
      Distribute(c, d);
    } else {
      ReplaceLength(s[1..], target, repl);
    }
  }

  lemma Distribute(c: int, d: int)
    ensures (1 + c) * d == d + c * d
  {
  }

  lemma {:induction false} InterleaveLength(s: string, repl: string)
    ensures |Interleave(s, repl)| == |s| + (|s| + 1) * |repl|
    decreases |s|
  {
    if s != [] {
      InterleaveLength(s[1..], repl);
      assert (|s| + 1) * |repl| == |repl| + |s| * |repl|;
    }
  }

  /** Replacing a text that does not occur changes nothing. */
  lemma {:induction false} ReplaceAbsent(s: string, target: string, repl: string)
    requires target != [] && !Contains(s, target)
    ensures Replace(s, target, repl) == s
    decreases |s|
  {
    if |s| >= |target| {
      assert !OccursAt(s, target, 0);
      assert s[0..|target|] == s[..|target|];
      forall i | OccursAt(s[1..], target, i) ensures OccursAt(s, target, i + 1) {
        assert s[1..][i..i + |target|] == s[i + 1..i + 1 + |target|];
      }
      assert !Contains(s[1..], target);
      ReplaceAbsent(s[1..], target, repl);
      assert s == [s[0]] + s[1..];
    }
  }

  /** Replacing a text by itself changes nothing. */
  lemma {:induction false} ReplaceSelf(s: string, target: string)
    ensures Replace(s, target, target) == s
    decreases |s|
  {
    if target == [] {
      InterleaveEmpty(s);
    } else if |s| < |target| {
    } else if s[..|target|] == target {
      ReplaceSelf(s[|target|..], target);
      assert s == s[..|target|] + s[|target|..];
    } else {
      ReplaceSelf(s[1..], target);
      assert s == [s[0]] + s[1..];
    }
  }

  lemma {:induction false} InterleaveEmpty(s: string)
    ensures Interleave(s, []) == s
    decreases |s|
  {
    if s != [] {
      InterleaveEmpty(s[1..]);
      assert s == [s[0]] + s[1..];
    }
  }

  /** When `target` occurs in `s`, the replacement `repl` occurs in the result. */
  lemma {:induction false} ReplaceIntroduces(s: string, target: string, repl: string)
    requires target != [] && Contains(s, target)
    ensures Contains(Replace(s, target, repl), repl)
    decreases |s|
  {
    var i :| OccursAt(s, target, i);
    var r := Replace(s, target, repl);
    if s[..|target|] == target {
      assert r[0..|repl|] == repl;
      assert OccursAt(r, repl, 0);
    } else {
      assert s[..|target|] == s[0..|target|];
      assert i > 0;
      assert s[1..][i - 1..i - 1 + |target|] == s[i..i + |target|];
      assert OccursAt(s[1..], target, i - 1);
      ReplaceIntroduces(s[1..], target, repl);
      var rest := Replace(s[1..], target, repl);
      var j :| OccursAt(rest, repl, j);
      assert r == [s[0]] + rest;
      assert r[j + 1..j + 1 + |repl|] == rest[j..j + |repl|];
      assert OccursAt(r, repl, j + 1);
    }
  }

  /** Removing every copy of one character (`s.replace(c, "")`) leaves none of it. */
  lemma {:induction false} RemoveCharLeavesNone(s: string, c: char)
    ensures forall j :: 0 <= j < |Replace(s, [c], [])| ==> Replace(s, [c], [])[j] != c
    decreases |s|
  {
    if s != [] {
      RemoveCharLeavesNone(s[1..], c);
      assert s[..1] == [s[0]];
    }
  }

  /** Removing a character never touches any other character: the other characters stay, in order. */
  lemma {:induction false} RemoveCharKeepsOthers(s: string, c: char)
    requires forall j :: 0 <= j < |s| ==> s[j] != c
    ensures Replace(s, [c], []) == s
    decreases |s|
  {
    if s != [] {
      RemoveCharKeepsOthers(s[1..], c);
      assert s[..1] == [s[0]];
    }
  }

  // ---------------------------------------------------------------------
  // str(n) for a natural number, and the ordering of str

  function DigitChar(d: nat): char
    requires d < 10
  {
    ['0', '1', '2', '3', '4', '5', '6', '7', '8', '9'][d]
  }

  predicate IsDigit(c: char)
  {
    '0' <= c <= '9'
  }

  /** `str(n)` for `n >= 0`: its decimal digits, without leading zeros. */
  function NatToString(n: nat): (r: string)
    ensures r != []
    ensures forall j :: 0 <= j < |r| ==> IsDigit(r[j])
    decreases n
  {
    if n < 10 then [DigitChar(n)] else NatToString(n / 10) + [DigitChar(n % 10)]
  }

  function DigitValue(c: char): (d: nat)
    requires IsDigit(c)
    ensures d < 10
  {
    c as int - '0' as int
  }

  /** `int(s)` for a string of decimal digits. */
  function DigitsValue(s: string): nat
    requires forall j :: 0 <= j < |s| ==> IsDigit(s[j])
    decreases |s|
  {
    if s == [] then 0 else DigitsValue(s[..|s| - 1]) * 10 + DigitValue(s[|s| - 1])
  }

  /** Reading back the digits of `str(n)` gives `n`. */
  lemma {:induction false} NatToStringRoundTrip(n: nat)
    ensures DigitsValue(NatToString(n)) == n
    decreases n
  {
    if n >= 10 {
      NatToStringRoundTrip(n / 10);
      var s := NatToString(n);
      assert s[..|s| - 1] == NatToString(n / 10);
    }
  }

  /** Different numbers print differently. */
  lemma NatToStringInjective(a: nat, b: nat)
    requires NatToString(a) == NatToString(b)
    ensures a == b
  {
    NatToStringRoundTrip(a);
    NatToStringRoundTrip(b);
  }

  /** `a < b` on Python strings: lexicographic on code points, a proper prefix first. */
  predicate Less(a: string, b: string)
    decreases |a|
  {
    if a == [] then b != []
    else if b == [] then false
    else if a[0] != b[0] then a[0] < b[0]
    else Less(a[1..], b[1..])
  }

  lemma {:induction false} LessIrreflexive(a: string)
    ensures !Less(a, a)
    decreases |a|
  {
    if a != [] { LessIrreflexive(a[1..]); }
  }

  lemma {:induction false} LessTransitive(a: string, b: string, c: string)
    requires Less(a, b) && Less(b, c)
    ensures Less(a, c)
    decreases |a|
  {
    if a != [] && b != [] && c != [] && a[0] == b[0] && b[0] == c[0] {
      LessTransitive(a[1..], b[1..], c[1..]);
    }
  }

  /** Two different strings are ordered one way or the other. */
  lemma {:induction false} LessTotal(a: string, b: string)
    requires a != b
    ensures Less(a, b) || Less(b, a)
    decreases |a|
  {
    if a != [] && b != [] && a[0] == b[0] {
      assert a == [a[0]] + a[1..] && b == [b[0]] + b[1..];
      LessTotal(a[1..], b[1..]);
    }
  }
}
