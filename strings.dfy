/** The conventional optional-value datatype, standing for Python's None and JavaScript's undefined. */
module Wrappers {
  datatype Option<T> = None | Some(value: T)
}

/**
 * String operations shared by the deploy server (Python) and the page script (JavaScript):
 * substring search, prefix tests, `split`, `trim` and the decimal rendering of integers.
 * A string is a sequence of characters; both languages index strings by position.
 */
module Strings {

  /** `sub` occurs in `s` starting at position `i`. */
  predicate OccursAt(s: string, sub: string, i: int) {
    0 <= i && i + |sub| <= |s| && s[i..i + |sub|] == sub
  }

  /** First occurrence of `sub` in `s` at or after position `i`, or -1. */
  function IndexFrom(s: string, sub: string, i: nat): (r: int)
    requires i <= |s|
    decreases |s| - i
    ensures r == -1 || (i <= r && OccursAt(s, sub, r))
    ensures r == -1 ==> forall j :: i <= j <= |s| ==> !OccursAt(s, sub, j)
    ensures r != -1 ==> forall j :: i <= j < r ==> !OccursAt(s, sub, j)
  {
    if i + |sub| > |s| then -1
    else if s[i..i + |sub|] == sub then i
    else if i == |s| then -1
    else IndexFrom(s, sub, i + 1)
  }

  /** JavaScript's `s.indexOf(sub)`: the first position where `sub` occurs, or -1 when it does not. */
  function IndexOf(s: string, sub: string): (r: int)
    ensures r == -1 <==> forall j :: 0 <= j <= |s| ==> !OccursAt(s, sub, j)
    ensures r != -1 ==> OccursAt(s, sub, r) && forall j :: 0 <= j < r ==> !OccursAt(s, sub, j)
  {
    IndexFrom(s, sub, 0)
  }

  /** Python's `sub in s` and JavaScript's `s.indexOf(sub) !== -1`. */
  predicate Contains(s: string, sub: string) {
    IndexOf(s, sub) != -1
  }

  lemma ContainsIff(s: string, sub: string)
    ensures Contains(s, sub) <==> exists j :: 0 <= j <= |s| && OccursAt(s, sub, j)
  {
    if !Contains(s, sub) {
      assert forall j :: 0 <= j <= |s| ==> !OccursAt(s, sub, j);
    } else {
      var j := IndexOf(s, sub);
      assert 0 <= j <= |s| && OccursAt(s, sub, j);
    }
  }

  /** Python's `s.startswith(p)`. */
  predicate StartsWith(s: string, p: string) {
    |p| <= |s| && s[..|p|] == p
  }

  /** JavaScript's `s.split(sep)[0]`: the text before the first occurrence of `sep`, all of `s` if none. */
  function PrefixBefore(s: string, sep: string): (r: string)
    requires sep != []
    ensures StartsWith(s, r)
    ensures !Contains(r, sep)
    ensures |r| == |s| || OccursAt(s, sep, |r|)
    ensures forall j :: 0 <= j < |r| ==> !OccursAt(s, sep, j)
  {
    var i := IndexOf(s, sep);
    if i == -1 then s
    else
      var r := s[..i];
      assert forall j :: 0 <= j <= |r| ==> !OccursAt(r, sep, j) by {
        forall j | 0 <= j <= |r| ensures !OccursAt(r, sep, j) {
          if OccursAt(r, sep, j) {
            assert r[j..j + |sep|] == s[j..j + |sep|];
            assert OccursAt(s, sep, j);
          }
        }
      }
      r
  }

  // ---------------------------------------------------------------------------
  // split on a single character, and its inverse

  /** JavaScript's `s.split(sep)` for a one-character separator. */
  function Split(s: string, sep: char): (parts: seq<string>)
    ensures |parts| >= 1
    ensures forall k :: 0 <= k < |parts| ==> sep !in parts[k]
  {
    if s == [] then [[]]
    else
      var rest := Split(s[1..], sep);
      if s[0] == sep then [[]] + rest
      else [[s[0]] + rest[0]] + rest[1..]
  }

  /** `parts.join(sep)`. */
  function Join(parts: seq<string>, sep: char): string
    requires |parts| >= 1
  {
    if |parts| == 1 then parts[0] else parts[0] + [sep] + Join(parts[1..], sep)
  }

  /** Joining the pieces of a split gives back the original string. */
  lemma {:induction false} JoinSplit(s: string, sep: char)
    ensures Join(Split(s, sep), sep) == s
  {
    if s != [] {
      var rest := Split(s[1..], sep);
      JoinSplit(s[1..], sep);
      if s[0] == sep {
        assert Split(s, sep) == [[]] + rest;
        assert Split(s, sep)[1..] == rest;
      } else {
        var parts := Split(s, sep);
        assert parts == [[s[0]] + rest[0]] + rest[1..];
        if |rest| == 1 {
          assert Join(parts, sep) == [s[0]] + rest[0];
        } else {
          assert parts[1..] == rest[1..];
          assert Join(rest, sep) == rest[0] + [sep] + Join(rest[1..], sep);
        }
      }
    }
  }

  /** Splitting a join of separator-free pieces gives back the pieces. */
  lemma {:induction false} SplitJoin(parts: seq<string>, sep: char)
    requires |parts| >= 1
    requires forall k :: 0 <= k < |parts| ==> sep !in parts[k]
    ensures Split(Join(parts, sep), sep) == parts
  {
    if |parts| == 1 {
      SplitNoSeparator(parts[0], sep);
    } else {
      SplitJoin(parts[1..], sep);
      SplitAfterPiece(parts[0], sep, Join(parts[1..], sep));
      assert Join(parts, sep) == parts[0] + ([sep] + Join(parts[1..], sep));
      assert [parts[0]] + parts[1..] == parts;
    }
  }

  lemma {:induction false} SplitNoSeparator(s: string, sep: char)
    requires sep !in s
    ensures Split(s, sep) == [s]
  {
    if s != [] {
      SplitNoSeparator(s[1..], sep);
      assert [s[0]] + s[1..] == s;
    }
  }

  lemma {:induction false} SplitAfterPiece(piece: string, sep: char, tail: string)
    requires sep !in piece
    ensures Split(piece + [sep] + tail, sep) == [piece] + Split(tail, sep)
  {
    var s := piece + [sep] + tail;
    if piece == [] {
      assert s[1..] == tail;
    } else {
      assert s[1..] == piece[1..] + [sep] + tail;
      SplitAfterPiece(piece[1..], sep, tail);
      assert [piece[0]] + piece[1..] == piece;
    }
  }

  // ---------------------------------------------------------------------------
  // trim

  /** The characters JavaScript's `String.prototype.trim` removes: white space and line terminators. */
  predicate IsSpace(c: char) {
    c == ' ' || c == '\t' || c == '\n' || c == '\r' || c == '\U{000B}' || c == '\U{000C}'
    || c == '\U{00A0}' || c == '\U{1680}' || ('\U{2000}' <= c <= '\U{200A}')
    || c == '\U{2028}' || c == '\U{2029}' || c == '\U{202F}' || c == '\U{205F}'
    || c == '\U{3000}' || c == '\U{FEFF}'
  }

  function TrimStart(s: string): (r: string)
    ensures |r| <= |s| && r == s[|s| - |r|..]
    ensures forall k :: 0 <= k < |s| - |r| ==> IsSpace(s[k])
    ensures r == [] || !IsSpace(r[0])
  {
    if s != [] && IsSpace(s[0]) then TrimStart(s[1..]) else s
  }

  function TrimEnd(s: string): (r: string)
    ensures |r| <= |s| && r == s[..|r|]
    ensures forall k :: |r| <= k < |s| ==> IsSpace(s[k])
    ensures r == [] || !IsSpace(r[|r| - 1])
  {
    if s != [] && IsSpace(s[|s| - 1]) then TrimEnd(s[..|s| - 1]) else s
  }

  /** `r` is the slice of `s` starting at `a`, and everything outside it is white space. */
  predicate IsTrimAt(s: string, r: string, a: int) {
    && 0 <= a <= |s| - |r|
    && r == s[a..a + |r|]
    && (forall k :: 0 <= k < a ==> IsSpace(s[k]))
    && (forall k :: a + |r| <= k < |s| ==> IsSpace(s[k]))
  }

  /** A slice of a suffix of `s`, with white space before the suffix and after the slice, is a trim of `s`. */
  lemma {:induction false} SliceIsTrim(s: string, a: nat, t: string, r: string)
    requires a <= |s| && t == s[a..]
    requires |r| <= |t| && r == t[..|r|]
    requires forall k :: 0 <= k < a ==> IsSpace(s[k])
    requires forall k :: |r| <= k < |t| ==> IsSpace(t[k])
    ensures IsTrimAt(s, r, a)
  {
    assert r == s[a..a + |r|];
    forall k | a + |r| <= k < |s| ensures IsSpace(s[k]) {
      assert s[k] == t[k - a];
    }
  }

  /** `s` with leading and trailing white space removed, as `s.trim()`. */
  function Trim(s: string): (r: string)
    ensures exists a :: IsTrimAt(s, r, a)
    ensures r == [] || (!IsSpace(r[0]) && !IsSpace(r[|r| - 1]))
  {
    var t := TrimStart(s);
    var r := TrimEnd(t);
    SliceIsTrim(s, |s| - |t|, t, r);
    assert r != [] ==> r[0] == t[0];
    r
  }

  /** A string with no white space at either end is left as it is. */
  lemma TrimFixed(s: string)
    requires s == [] || (!IsSpace(s[0]) && !IsSpace(s[|s| - 1]))
    ensures Trim(s) == s
  {
  }

  /** Trimming twice is trimming once. */
  lemma TrimIdempotent(s: string)
    ensures Trim(Trim(s)) == Trim(s)
  {
    TrimFixed(Trim(s));
  }

  /** The trimmed string is empty exactly when the input holds only white space. */
  lemma TrimEmptyIff(s: string)
    ensures Trim(s) == [] <==> forall k :: 0 <= k < |s| ==> IsSpace(s[k])
  {
    var r := Trim(s);
    var a :| IsTrimAt(s, r, a);
    if r != [] {
      assert r[0] == s[a];
    }
  }

  /** Leading white space is dropped up to the first other character. */
  lemma {:induction false} TrimStartAfterSpaces(before: string, rest: string)
    requires forall k :: 0 <= k < |before| ==> IsSpace(before[k])
    requires rest == [] || !IsSpace(rest[0])
    ensures TrimStart(before + rest) == rest
  {
    if before != [] {
      assert (before + rest)[1..] == before[1..] + rest;
      TrimStartAfterSpaces(before[1..], rest);
    }
  }

  /** Trailing white space is dropped back to the last other character. */
  lemma {:induction false} TrimEndBeforeSpaces(rest: string, after: string)
    requires forall k :: 0 <= k < |after| ==> IsSpace(after[k])
    requires rest == [] || !IsSpace(rest[|rest| - 1])
    ensures TrimEnd(rest + after) == rest
  {
    if after != [] {
      assert (rest + after)[..|rest + after| - 1] == rest + after[..|after| - 1];
      TrimEndBeforeSpaces(rest, after[..|after| - 1]);
    }
  }

  /** Trimming white space added around an already trimmed string gives that string back. */
  lemma TrimOfPadded(before: string, q: string, after: string)
    requires forall k :: 0 <= k < |before| ==> IsSpace(before[k])
    requires forall k :: 0 <= k < |after| ==> IsSpace(after[k])
    requires q == [] || (!IsSpace(q[0]) && !IsSpace(q[|q| - 1]))
    ensures Trim(before + q + after) == q
  {
    assert before + q + after == before + (q + after);
    if q == [] {
      TrimStartAfterSpaces(before + after, []);
      assert before + after + [] == before + after;
    } else {
      TrimStartAfterSpaces(before, q + after);
      TrimEndBeforeSpaces(q, after);
    }
  }

  // ---------------------------------------------------------------------------
  // decimal rendering of non-negative integers

  predicate IsDigit(c: char) { '0' <= c <= '9' }

  function DigitChar(d: nat): (c: char)
    requires d < 10
    ensures IsDigit(c)
  {
    ['0', '1', '2', '3', '4', '5', '6', '7', '8', '9'][d]
  }

  function DigitValue(c: char): (d: nat)
    requires IsDigit(c)
    ensures d < 10
  {
    c as int - '0' as int
  }

  /** Python's `str(n)` and JavaScript's `String(n)` for a non-negative integer. */
  function NatToString(n: nat): (s: string)
    ensures |s| >= 1 && forall k :: 0 <= k < |s| ==> IsDigit(s[k])
    ensures s[0] == '0' ==> n == 0
  {
    if n < 10 then [DigitChar(n)] else NatToString(n / 10) + [DigitChar(n % 10)]
  }

  /** The value of a string of decimal digits. */
  function ParseNat(s: string): nat
    requires forall k :: 0 <= k < |s| ==> IsDigit(s[k])
  {
    if s == [] then 0 else ParseNat(s[..|s| - 1]) * 10 + DigitValue(s[|s| - 1])
  }

  /** Reading back a rendered number gives the number. */
  lemma {:induction false} ParseNatToString(n: nat)
    ensures ParseNat(NatToString(n)) == n
  {
    var s := NatToString(n);
    if n < 10 {
      assert s[..0] == [];
    } else {
      ParseNatToString(n / 10);
      assert s[..|s| - 1] == NatToString(n / 10);
    }
  }

  /** Distinct numbers render as distinct strings. */
  lemma NatToStringInjective(m: nat, n: nat)
    requires NatToString(m) == NatToString(n)
    ensures m == n
  {
    ParseNatToString(m);
    ParseNatToString(n);
  }
}
