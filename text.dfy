/**
 * The Python `str` operations the resume pipeline is built from, over
 * `string` (a sequence of Unicode scalar values, as a Python `str` is a
 * sequence of code points). Whitespace is Python's full `str.isspace` set;
 * case mapping and digits are those of ASCII.
 */
module Text {

  /** Python's `str.isspace` on one character (the set `strip` and `split` use). */
  predicate IsSpace(c: char)
  {
    ('\t' <= c <= '\r') || ('\U{1C}' <= c <= ' ') || c == '\U{85}' || c == '\U{A0}'
    || c == '\U{1680}' || ('\U{2000}' <= c <= '\U{200A}') || c == '\U{2028}' || c == '\U{2029}'
    || c == '\U{202F}' || c == '\U{205F}' || c == '\U{3000}'
  }

  predicate IsUpperChar(c: char) { 'A' <= c <= 'Z' }

  predicate IsLowerChar(c: char) { 'a' <= c <= 'z' }

  /** A cased character, in the sense of Python's `str.title`. */
  predicate IsCased(c: char) { IsUpperChar(c) || IsLowerChar(c) }

  predicate IsDigit(c: char) { '0' <= c <= '9' }

  function LowerChar(c: char): (r: char)
    ensures !IsUpperChar(r)
  {
    if IsUpperChar(c) then (c as int + 32) as char else c
  }

  function UpperChar(c: char): (r: char)
    ensures !IsLowerChar(r)
  {
    if IsLowerChar(c) then (c as int - 32) as char else c
  }

  /** `s.lower()` */
  function Lower(s: string): string
  {
    seq(|s|, i requires 0 <= i < |s| => LowerChar(s[i]))
  }

  /** `s.upper()` */
  function Upper(s: string): string
  {
    seq(|s|, i requires 0 <= i < |s| => UpperChar(s[i]))
  }

  /**
   * `s.title()`: a character that follows a cased character is lowered,
   * every other one is raised.
   */
  function Title(s: string): string
  {
    seq(|s|, i requires 0 <= i < |s| =>
      if i > 0 && IsCased(s[i - 1]) then LowerChar(s[i]) else UpperChar(s[i]))
  }

  function TrimLeft(s: string): (r: string)
    ensures |r| <= |s| && r == s[|s| - |r|..]
  {
    if |s| > 0 && IsSpace(s[0]) then TrimLeft(s[1..]) else s
  }

  function TrimRight(s: string): (r: string)
    ensures |r| <= |s| && r == s[..|r|]
  {
    if |s| > 0 && IsSpace(s[|s| - 1]) then TrimRight(s[..|s| - 1]) else s
  }

  /** `TrimLeft` cuts off whitespace only, and all of it. */
  lemma {:induction false} TrimLeftCutsSpace(s: string)
    ensures forall i :: 0 <= i < |s| - |TrimLeft(s)| ==> IsSpace(s[i])
    ensures TrimLeft(s) != [] ==> !IsSpace(TrimLeft(s)[0])
    decreases |s|
  {
    if |s| > 0 && IsSpace(s[0]) {
      var rest := s[1..];
      assert TrimLeft(s) == TrimLeft(rest);
      var n := |rest| - |TrimLeft(rest)|;
      TrimLeftCutsSpace(rest);
      forall i | 1 <= i < 1 + n ensures IsSpace(s[i]) {
        assert s[i] == rest[i - 1];
      }
    }
  }

  /** `TrimRight` cuts off whitespace only, and all of it. */
  lemma {:induction false} TrimRightCutsSpace(s: string)
    ensures forall i :: |TrimRight(s)| <= i < |s| ==> IsSpace(s[i])
    ensures TrimRight(s) != [] ==> !IsSpace(TrimRight(s)[|TrimRight(s)| - 1])
    decreases |s|
  {
    if |s| > 0 && IsSpace(s[|s| - 1]) {
      TrimRightCutsSpace(s[..|s| - 1]);
      forall i | |TrimRight(s)| <= i < |s| - 1 ensures IsSpace(s[i]) {
        assert s[i] == s[..|s| - 1][i];
      }
    }
  }

  /** `s.strip()` */
  function Strip(s: string): string
  {
    TrimRight(TrimLeft(s))
  }

  /**
   * `s.strip()` is the slice `s[i..j]` left once leading and trailing
   * whitespace is cut off.
   */
  lemma StripIsTrimmedSlice(s: string) returns (i: nat, j: nat)
    ensures i <= j <= |s| && Strip(s) == s[i..j]
    ensures forall k :: 0 <= k < i ==> IsSpace(s[k])
    ensures forall k :: j <= k < |s| ==> IsSpace(s[k])
  {
    var l := TrimLeft(s);
    var r := TrimRight(l);
    i := |s| - |l|;
    j := i + |r|;
    TrimLeftCutsSpace(s);
    StripTail(s);
    assert l == s[i..] && r == l[..|r|];
    assert s[i..][..|r|] == s[i..j];
  }

  lemma StripTail(s: string)
    ensures forall k :: |s| - |TrimLeft(s)| + |Strip(s)| <= k < |s| ==> IsSpace(s[k])
  {
    var l := TrimLeft(s);
    var i, n := |s| - |l|, |TrimRight(l)|;
    assert l == s[i..] && Strip(s) == TrimRight(l);
    TrimRightCutsSpace(l);
    forall k | i + n <= k < |s| ensures IsSpace(s[k]) {
      assert s[k] == l[k - i] && n <= k - i < |l|;
    }
  }

  /** `s.strip()` neither begins nor ends with whitespace. */
  lemma StripEdges(s: string)
    ensures Strip(s) != [] ==> !IsSpace(Strip(s)[0]) && !IsSpace(Strip(s)[|Strip(s)| - 1])
  {
    var l := TrimLeft(s);
    var r := TrimRight(l);
    TrimLeftCutsSpace(s);
    TrimRightCutsSpace(l);
    if r != [] {
      assert r[0] == l[0];
    }
  }

  /** A string is blank, in `if not line.strip()`, exactly when all of it is whitespace. */
  lemma StripEmptyIffBlank(s: string)
    ensures Strip(s) == [] <==> forall k :: 0 <= k < |s| ==> IsSpace(s[k])
  {
    var i, j := StripIsTrimmedSlice(s);
    StripEdges(s);
    if i < j {
      assert Strip(s)[0] == s[i];
    }
  }

  /** `len(s.split())`: the number of maximal runs of non-whitespace. */
  function WordCount(s: string): nat
  {
    if |s| == 0 then 0
    else (if !IsSpace(s[0]) && (|s| == 1 || IsSpace(s[1])) then 1 else 0) + WordCount(s[1..])
  }

  /** `any(c.isdigit() for c in s)` */
  predicate HasDigit(s: string)
  {
    exists i :: 0 <= i < |s| && IsDigit(s[i])
  }

  /** `any(c.isupper() for c in s)` */
  predicate HasUpper(s: string)
  {
    exists i :: 0 <= i < |s| && IsUpperChar(s[i])
  }

  predicate StartsWith(s: string, p: string)
  {
    |p| <= |s| && s[..|p|] == p
  }

  predicate EndsWith(s: string, p: string)
  {
    |p| <= |s| && s[|s| - |p|..] == p
  }

  /** Python's `t in s` on strings. */
  predicate Contains(s: string, t: string)
    decreases |s|
  {
    if |t| > |s| then false
    else if s[..|t|] == t then true
    else |s| > 0 && Contains(s[1..], t)
  }

  /** `t` occurs in `s` starting at position `i`. */
  predicate OccursAt(s: string, t: string, i: int)
  {
    0 <= i <= |s| - |t| && s[i..i + |t|] == t
  }

  /** `t in s` holds exactly when `t` occurs in `s` at some position. */
  lemma {:induction false} ContainsIff(s: string, t: string)
    ensures Contains(s, t) <==> exists i :: OccursAt(s, t, i)
    decreases |s|
  {
    if |t| > |s| {
    } else if s[..|t|] == t {
      assert OccursAt(s, t, 0);
    } else {
      assert |s| > 0;
      forall i | OccursAt(s[1..], t, i) ensures OccursAt(s, t, i + 1) {
        assert s[i + 1..i + 1 + |t|] == s[1..][i..i + |t|];
      }
      forall i | OccursAt(s, t, i) ensures i > 0 && OccursAt(s[1..], t, i - 1) {
        assert s[i..i + |t|] == s[1..][i - 1..i - 1 + |t|];
      }
      ContainsIff(s[1..], t);
    }
  }

  /** `any(t in s for t in ts)`: the source's keyword alternations. */
  predicate ContainsAny(s: string, ts: seq<string>)
  {
    exists k :: 0 <= k < |ts| && Contains(s, ts[k])
  }

  /** Python's `s.split(sep)` for a one-character separator. */
  function Split(s: string, sep: char): (parts: seq<string>)
    ensures |parts| >= 1
    ensures forall k :: 0 <= k < |parts| ==> sep !in parts[k]
    decreases |s|
  {
    if |s| == 0 then [""]
    else if s[0] == sep then [""] + Split(s[1..], sep)
    else
      var rest := Split(s[1..], sep);
      [[s[0]] + rest[0]] + rest[1..]
  }

  /** Python's `sep.join(parts)`. */
  function Join(parts: seq<string>, sep: string): string
  {
    if |parts| == 0 then ""
    else if |parts| == 1 then parts[0]
    else parts[0] + sep + Join(parts[1..], sep)
  }

  /** Joining the pieces of a split with the separator gives back the text. */
  lemma {:induction false} JoinSplit(s: string, sep: char)
    ensures Join(Split(s, sep), [sep]) == s
    decreases |s|
  {
    if |s| == 0 {
    } else if s[0] == sep {
      JoinSplit(s[1..], sep);
      assert Split(s, sep) == [""] + Split(s[1..], sep);
      assert s == [sep] + s[1..];
    } else {
      var rest := Split(s[1..], sep);
      JoinSplit(s[1..], sep);
      var parts := [[s[0]] + rest[0]] + rest[1..];
      assert parts[1..] == rest[1..];
      if |rest| == 1 {
        assert s == [s[0]] + s[1..];
      } else {
        assert Join(rest, [sep]) == rest[0] + [sep] + Join(rest[1..], [sep]);
        assert s == [s[0]] + s[1..];
      }
    }
  }

  /** Joining two non-empty lists is joining each, with the separator between. */
  lemma {:induction false} JoinAppend(a: seq<string>, b: seq<string>, sep: string)
    requires |a| > 0 && |b| > 0
    ensures Join(a + b, sep) == Join(a, sep) + sep + Join(b, sep)
  {
    if |a| == 1 {
      assert (a + b)[1..] == b;
    } else {
      assert (a + b)[1..] == a[1..] + b;
      JoinAppend(a[1..], b, sep);
    }
  }

  /** A join of more than three lines starts with the first three, each followed by the separator. */
  lemma JoinStartsWith3(lines: seq<string>, sep: string)
    requires |lines| > 3
    ensures StartsWith(Join(lines, sep), lines[0] + sep + lines[1] + sep + lines[2] + sep)
  {
    var j1, j2, j3 := Join(lines[1..], sep), Join(lines[2..], sep), Join(lines[3..], sep);
    assert lines[1..][1..] == lines[2..];
    assert lines[2..][1..] == lines[3..];
    assert Join(lines, sep) == lines[0] + sep + j1;
    assert j1 == lines[1] + sep + j2;
    assert j2 == lines[2] + sep + j3;
    var p := lines[0] + sep + lines[1] + sep + lines[2] + sep;
    assert Join(lines, sep) == p + j3;
    assert (p + j3)[..|p|] == p;
  }

  /** A join of more than three lines ends with the separator and the last three, separated. */
  lemma JoinEndsWith3(lines: seq<string>, sep: string)
    requires |lines| > 3
    ensures var n := |lines|;
      EndsWith(Join(lines, sep), sep + lines[n - 3] + sep + lines[n - 2] + sep + lines[n - 1])
  {
    var n := |lines|;
    var front, last := lines[..n - 3], lines[n - 3..];
    assert lines == front + last;
    JoinAppend(front, last, sep);
    assert last[1..][1..] == [lines[n - 1]];
    var x, y, z := lines[n - 3], lines[n - 2], lines[n - 1];
    assert Join(last[1..], sep) == y + sep + z;
    assert Join(last, sep) == x + sep + (y + sep + z);
    var q := sep + x + sep + y + sep + z;
    var f := Join(front, sep);
    assert Join(lines, sep) == f + q;
    assert (f + q)[|f + q| - |q|..] == q;
  }

  /** The text `''.join(l + '\n' for l in lines)` that appending line by line builds. */
  function Terminated(lines: seq<string>): string
  {
    if lines == [] then "" else Terminated(lines[..|lines| - 1]) + lines[|lines| - 1] + "\n"
  }

  /** `c * n` for a one-character string `c`. */
  function Repeat(c: char, n: nat): (r: string)
    ensures |r| == n && forall i :: 0 <= i < n ==> r[i] == c
  {
    seq(n, _ => c)
  }
}
