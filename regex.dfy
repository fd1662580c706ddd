/**
 * The fragment of Python's `re` that the contact patterns are written in:
 * single-character classes, optional groups (`?`), greedy repetition of a
 * class (`*`, and `+` as one then `*`), and the word boundary `\b`.
 *
 * `Match` tries the alternatives in the order Python's backtracking engine
 * does (an optional group before skipping it, the longest repetition first),
 * which is what makes the end it returns the end of the match `re.search`
 * reports at that position; for a trailing repetition this is proved by
 * `StarGreedy`. `Accepts` says which spans the pattern can match at all;
 * the two agree by `MatchSound` and `MatchComplete`.
 */
module Regex {
  import opened Wrappers
  import opened Text

  /** A character class. */
  datatype Class =
    | Char(c: char)              // a literal character
    | AnyCase(c: char)           // a literal character under `re.IGNORECASE`
    | Digit                      // `0-9`
    | Letter                     // `A-Za-z`
    | Word                       // `\w`
    | Space                      // `\s`
    | OneOf(chars: string)       // the characters listed
    | Either(a: Class, b: Class) // the union of two classes

  /** A character `\w` matches. */
  predicate IsWordChar(c: char)
  {
    IsCased(c) || IsDigit(c) || c == '_'
  }

  predicate InClass(k: Class, c: char)
  {
    match k
    case Char(d) => c == d
    case AnyCase(d) => LowerChar(c) == LowerChar(d)
    case Digit => IsDigit(c)
    case Letter => IsCased(c)
    case Word => IsWordChar(c)
    case Space => IsSpace(c)
    case OneOf(s) => c in s
    case Either(a, b) => InClass(a, c) || InClass(b, c)
  }

  /** One element of a pattern, read left to right. */
  datatype Elem =
    | One(k: Class)              // exactly one character of the class
    | Maybe(group: seq<Elem>)    // `(group)?`
    | Star(k: Class)             // `k*`, greedy
    | Boundary                   // `\b`

  function Size(p: seq<Elem>): nat
    decreases p, 1
  {
    if p == [] then 0 else ElemSize(p[0]) + Size(p[1..])
  }

  function ElemSize(x: Elem): (n: nat)
    ensures n >= 1
    decreases x, 0
  {
    match x
    case Maybe(q) => 1 + Size(q)
    case _ => 1
  }

  lemma {:induction false} SizeAppend(a: seq<Elem>, b: seq<Elem>)
    ensures Size(a + b) == Size(a) + Size(b)
  {
    if a != [] {
      assert (a + b)[0] == a[0];
      assert (a + b)[1..] == a[1..] + b;
      SizeAppend(a[1..], b);
    } else {
      assert a + b == b;
    }
  }

  /** Entering an optional group makes the pattern smaller. */
  lemma MaybeShrinks(p: seq<Elem>, q: seq<Elem>)
    requires p != [] && p[0] == Maybe(q)
    ensures Size(q + p[1..]) < Size(p)
  {
    SizeAppend(q, p[1..]);
  }

  /** `\b` at position `i`: a word character on exactly one side. */
  predicate AtBoundary(text: string, i: nat)
    requires i <= |text|
  {
    (i > 0 && IsWordChar(text[i - 1])) != (i < |text| && IsWordChar(text[i]))
  }

  /** The end of the match of `p` at position `i`, in backtracking order. */
  function Match(p: seq<Elem>, text: string, i: nat): (r: Option<nat>)
    requires i <= |text|
    ensures r.Some? ==> i <= r.value <= |text|
    decreases |text| - i, Size(p)
  {
    if p == [] then Some(i)
    else
      match p[0]
      case One(k) =>
        if i < |text| && InClass(k, text[i]) then Match(p[1..], text, i + 1) else None
      case Maybe(q) =>
        MaybeShrinks(p, q);
        var r := Match(q + p[1..], text, i);
        if r.Some? then r else Match(p[1..], text, i)
      case Star(k) =>
        var r := if i < |text| && InClass(k, text[i]) then Match(p, text, i + 1) else None;
        if r.Some? then r else Match(p[1..], text, i)
      case Boundary =>
        if AtBoundary(text, i) then Match(p[1..], text, i) else None
  }

  /** `p` can match exactly the span `text[i..e]`. */
  predicate Accepts(p: seq<Elem>, text: string, i: nat, e: nat)
    requires i <= e <= |text|
    decreases e - i, Size(p)
  {
    if p == [] then i == e
    else
      match p[0]
      case One(k) => i < e && InClass(k, text[i]) && Accepts(p[1..], text, i + 1, e)
      case Maybe(q) =>
        MaybeShrinks(p, q);
        Accepts(q + p[1..], text, i, e) || Accepts(p[1..], text, i, e)
      case Star(k) =>
        || Accepts(p[1..], text, i, e)
        || (i < e && InClass(k, text[i]) && Accepts(p, text, i + 1, e))
      case Boundary => AtBoundary(text, i) && Accepts(p[1..], text, i, e)
  }

  /** The span `Match` reports is one the pattern matches. */
  lemma {:induction false} MatchSound(p: seq<Elem>, text: string, i: nat)
    requires i <= |text|
    ensures Match(p, text, i).Some? ==> Accepts(p, text, i, Match(p, text, i).value)
    decreases |text| - i, Size(p)
  {
    if p != [] {
      match p[0]
      case One(k) =>
        if i < |text| && InClass(k, text[i]) {
          MatchSound(p[1..], text, i + 1);
        }
      case Maybe(q) =>
        MaybeShrinks(p, q);
        MatchSound(q + p[1..], text, i);
        MatchSound(p[1..], text, i);
      case Star(k) =>
        if i < |text| && InClass(k, text[i]) {
          MatchSound(p, text, i + 1);
        }
        MatchSound(p[1..], text, i);
      case Boundary =>
        MatchSound(p[1..], text, i);
    }
  }

  /** Wherever the pattern can match some span, `Match` reports a match. */
  lemma {:induction false} MatchComplete(p: seq<Elem>, text: string, i: nat, e: nat)
    requires i <= e <= |text| && Accepts(p, text, i, e)
    ensures Match(p, text, i).Some?
    decreases e - i, Size(p)
  {
    if p != [] {
      match p[0]
      case One(k) =>
        MatchComplete(p[1..], text, i + 1, e);
      case Maybe(q) =>
        MaybeShrinks(p, q);
        if Accepts(q + p[1..], text, i, e) {
          MatchComplete(q + p[1..], text, i, e);
        } else {
          MatchComplete(p[1..], text, i, e);
        }
      case Star(k) =>
        if Accepts(p[1..], text, i, e) {
          MatchComplete(p[1..], text, i, e);
        } else {
          MatchComplete(p, text, i + 1, e);
        }
      case Boundary =>
        MatchComplete(p[1..], text, i, e);
    }
  }

  /** `re.search` from position `i`: the leftmost position with a match, and its end. */
  function Search(p: seq<Elem>, text: string, i: nat): (r: Option<(nat, nat)>)
    requires i <= |text|
    ensures r.Some? ==> i <= r.value.0 <= r.value.1 <= |text| && Match(p, text, r.value.0) == Some(r.value.1)
    ensures r.Some? ==> forall j :: i <= j < r.value.0 ==> Match(p, text, j).None?
    ensures r.None? ==> forall j :: i <= j <= |text| ==> Match(p, text, j).None?
    decreases |text| - i
  {
    match Match(p, text, i)
    case Some(e) => Some((i, e))
    case None => if i == |text| then None else Search(p, text, i + 1)
  }

  /** `m.group()` of `re.search(p, text)`, or `''` when there is no match. */
  function FirstMatch(p: seq<Elem>, text: string): string
  {
    match Search(p, text, 0)
    case Some((s, e)) => text[s..e]
    case None => ""
  }

  /**
   * A non-empty first match is a span the pattern matches, and no span
   * starting further left is one.
   */
  lemma FirstMatchIsLeftmost(p: seq<Elem>, text: string) returns (s: nat, e: nat)
    requires FirstMatch(p, text) != ""
    ensures s <= e <= |text| && FirstMatch(p, text) == text[s..e] && Accepts(p, text, s, e)
    ensures forall j, f :: 0 <= j < s && j <= f <= |text| ==> !Accepts(p, text, j, f)
  {
    var r := Search(p, text, 0);
    s, e := r.value.0, r.value.1;
    MatchSound(p, text, s);
    forall j, f | 0 <= j < s && j <= f <= |text| ensures !Accepts(p, text, j, f) {
      if Accepts(p, text, j, f) {
        MatchComplete(p, text, j, f);
      }
    }
  }

  /** No span of the text, empty or not, is matched by `p`. */
  predicate MatchesNowhere(p: seq<Elem>, text: string)
  {
    forall j, f :: 0 <= j <= f <= |text| ==> !Accepts(p, text, j, f)
  }

  /**
   * For a pattern that never matches the empty span, the first match is
   * empty exactly when the pattern matches no span of the text.
   */
  lemma FirstMatchEmpty(p: seq<Elem>, text: string)
    requires forall j :: 0 <= j <= |text| ==> !Accepts(p, text, j, j)
    ensures FirstMatch(p, text) == "" ==> MatchesNowhere(p, text)
    ensures MatchesNowhere(p, text) ==> FirstMatch(p, text) == ""
  {
    var r := Search(p, text, 0);
    if r.Some? {
      var s, e := r.value.0, r.value.1;
      MatchSound(p, text, s);
      assert Accepts(p, text, s, e) && s != e;
      assert |FirstMatch(p, text)| == e - s > 0;
    } else {
      forall j, f | 0 <= j <= f <= |text| ensures !Accepts(p, text, j, f) {
        if Accepts(p, text, j, f) {
          MatchComplete(p, text, j, f);
        }
      }
    }
  }

  // ---------------------------------------------------------------------------
  // Building blocks

  /** A literal string under `re.IGNORECASE`. */
  function Literal(s: string): (p: seq<Elem>)
    ensures |p| == |s|
  {
    seq(|s|, i requires 0 <= i < |s| => One(AnyCase(s[i])))
  }

  /** `k+` */
  function Plus(k: Class): seq<Elem>
  {
    [One(k), Star(k)]
  }

  /** A span matched by a case-insensitive literal and then `rest`. */
  lemma {:induction false} AcceptsLiteral(s: string, rest: seq<Elem>, text: string, i: nat, e: nat)
    requires i <= e <= |text| && Accepts(Literal(s) + rest, text, i, e)
    ensures i + |s| <= e
    ensures forall k :: 0 <= k < |s| ==> LowerChar(text[i + k]) == LowerChar(s[k])
    ensures Accepts(rest, text, i + |s|, e)
    decreases |s|
  {
    if s != [] {
      var p := Literal(s) + rest;
      assert p[0] == One(AnyCase(s[0]));
      assert p[1..] == Literal(s[1..]) + rest;
      AcceptsLiteral(s[1..], rest, text, i + 1, e);
      forall k | 1 <= k < |s| ensures LowerChar(text[i + k]) == LowerChar(s[k]) {
        assert s[1..][k - 1] == s[k];
      }
    } else {
      assert Literal(s) + rest == rest;
    }
  }

  /** A span matched by `k*` holds characters of `k` only. */
  lemma {:induction false} AcceptsStar(k: Class, text: string, i: nat, e: nat)
    requires i <= e <= |text| && Accepts([Star(k)], text, i, e)
    ensures forall j :: i <= j < e ==> InClass(k, text[j])
    decreases e - i
  {
    assert [Star(k)][1..] == [];
    if i < e {
      AcceptsStar(k, text, i + 1, e);
    }
  }

  /** A span matched by `k+` is non-empty and holds characters of `k` only. */
  lemma AcceptsPlus(k: Class, text: string, i: nat, e: nat)
    requires i <= e <= |text| && Accepts(Plus(k), text, i, e)
    ensures i < e && forall j :: i <= j < e ==> InClass(k, text[j])
  {
    assert Plus(k)[1..] == [Star(k)];
    AcceptsStar(k, text, i + 1, e);
  }

  /** A span matched by `a + b` splits into a span of `a` and then one of `b`. */
  lemma {:induction false} AcceptsSplit(a: seq<Elem>, b: seq<Elem>, text: string, i: nat, e: nat) returns (m: nat)
    requires i <= e <= |text| && Accepts(a + b, text, i, e)
    ensures i <= m <= e && Accepts(a, text, i, m) && Accepts(b, text, m, e)
    decreases e - i, Size(a)
  {
    if a == [] {
      assert a + b == b;
      m := i;
    } else {
      var p := a + b;
      assert p[0] == a[0] && p[1..] == a[1..] + b;
      match a[0]
      case One(k) =>
        m := AcceptsSplit(a[1..], b, text, i + 1, e);
      case Maybe(q) =>
        MaybeShrinks(a, q);
        MaybeShrinks(p, q);
        assert q + p[1..] == (q + a[1..]) + b;
        if Accepts(q + p[1..], text, i, e) {
          m := AcceptsSplit(q + a[1..], b, text, i, e);
        } else {
          m := AcceptsSplit(a[1..], b, text, i, e);
        }
      case Star(k) =>
        if Accepts(p[1..], text, i, e) {
          m := AcceptsSplit(a[1..], b, text, i, e);
        } else {
          m := AcceptsSplit(a, b, text, i + 1, e);
        }
      case Boundary =>
        m := AcceptsSplit(a[1..], b, text, i, e);
    }
  }

  /** A span matched by a pattern with a single-character element at its top level is not empty. */
  lemma AcceptsOneInside(a: seq<Elem>, k: Class, b: seq<Elem>, text: string, i: nat, e: nat)
    requires i <= e <= |text|
    ensures Accepts(a + ([One(k)] + b), text, i, e) ==> i < e
  {
    if Accepts(a + ([One(k)] + b), text, i, e) {
      var m := AcceptsSplit(a, [One(k)] + b, text, i, e);
      var n := AcceptsSplit([One(k)], b, text, m, e);
      AcceptsOne(k, text, m, n);
    }
  }

  /** A pattern with a single-character element at its top level never matches the empty span. */
  lemma NeverEmpty(p: seq<Elem>, n: nat, text: string)
    requires n < |p| && p[n].One?
    ensures forall j :: 0 <= j <= |text| ==> !Accepts(p, text, j, j)
  {
    assert p == p[..n] + ([One(p[n].k)] + p[n + 1..]);
    forall j | 0 <= j <= |text| ensures !Accepts(p, text, j, j) {
      AcceptsOneInside(p[..n], p[n].k, p[n + 1..], text, j, j);
    }
  }

  /** A trailing `k*` runs as far as the text has characters of `k`. */
  lemma {:induction false} StarGreedy(k: Class, text: string, i: nat)
    requires i <= |text|
    ensures Match([Star(k)], text, i).Some?
    ensures var e := Match([Star(k)], text, i).value; e == |text| || !InClass(k, text[e])
    decreases |text| - i
  {
    assert [Star(k)][1..] == [];
    if i < |text| && InClass(k, text[i]) {
      StarGreedy(k, text, i + 1);
    }
  }

  /** Matching a case-insensitive literal and then `rest` is matching `rest` after the literal. */
  lemma {:induction false} MatchLiteral(s: string, rest: seq<Elem>, text: string, i: nat)
    requires i <= |text|
    ensures Match(Literal(s) + rest, text, i).Some? ==>
      i + |s| <= |text| && Match(Literal(s) + rest, text, i) == Match(rest, text, i + |s|)
    decreases |s|
  {
    if s != [] {
      var p := Literal(s) + rest;
      assert p[0] == One(AnyCase(s[0]));
      assert p[1..] == Literal(s[1..]) + rest;
      if i < |text| {
        MatchLiteral(s[1..], rest, text, i + 1);
      }
    } else {
      assert Literal(s) + rest == rest;
    }
  }

  /** A match of `k+` after a literal ends where the run of characters of `k` ends. */
  lemma LiteralPlusGreedy(s: string, k: Class, text: string, i: nat)
    requires i <= |text| && Match(Literal(s) + Plus(k), text, i).Some?
    ensures var e := Match(Literal(s) + Plus(k), text, i).value; e == |text| || !InClass(k, text[e])
  {
    MatchLiteral(s, Plus(k), text, i);
    var j := i + |s|;
    assert Plus(k)[1..] == [Star(k)];
    StarGreedy(k, text, j + 1);
  }

  /** A span matched by a single class is one character of it. */
  lemma AcceptsOne(k: Class, text: string, i: nat, e: nat)
    requires i <= e <= |text| && Accepts([One(k)], text, i, e)
    ensures e == i + 1 && InClass(k, text[i])
  {
    assert [One(k)][1..] == [];
  }
}
