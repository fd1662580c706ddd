/**
 * `extract_contact_info`: the first match of each of four patterns, and a
 * name guessed from the first five lines. The `location` field is never
 * filled in.
 */
module Contact {
  import opened Text
  import opened Lists
  import opened Regex

  /** The dictionary `extract_contact_info` returns, one field per key. */
  datatype ContactInfo = ContactInfo(
    name: string, email: string, phone: string, location: string, linkedin: string, github: string)

  const Alnum: Class := Either(Letter, Digit)

  /** `[A-Z|a-z]`: the bar is one of the listed characters. */
  const DomainEnd: Class := Either(Letter, OneOf("|"))

  /** `\b[A-Za-z0-9._%+-]+@[A-Za-z0-9.-]+\.[A-Z|a-z]{2,}\b` */
  const EmailPattern: seq<Elem> :=
    [Boundary] + Plus(Either(Alnum, OneOf("._%+-"))) + [One(Char('@'))]
    + (Plus(Either(Alnum, OneOf(".-"))) + [One(Char('.')), One(DomainEnd), One(DomainEnd), Star(DomainEnd), Boundary])

  /** `[-.\s]` */
  const Separator: Class := Either(OneOf("-."), Space)

  /** `(\+?1[-.\s]?)?\(?([0-9]{3})\)?[-.\s]?([0-9]{3})[-.\s]?` */
  const PhonePrefix: seq<Elem> := [
    Maybe([Maybe([One(Char('+'))]), One(Char('1')), Maybe([One(Separator)])]),
    Maybe([One(Char('('))]), One(Digit), One(Digit), One(Digit), Maybe([One(Char(')'))]),
    Maybe([One(Separator)]), One(Digit), One(Digit), One(Digit), Maybe([One(Separator)])
  ]

  /** `([0-9]{4})`, the last group of the phone pattern. */
  const FourDigits: seq<Elem> := [One(Digit), One(Digit), One(Digit), One(Digit)]

  const PhonePattern: seq<Elem> := PhonePrefix + FourDigits

  /** `[\w-]` */
  const Handle: Class := Either(Word, OneOf("-"))

  const LinkedInPrefix: string := "linkedin.com/in/"

  /** `linkedin\.com/in/[\w-]+`, searched with `re.IGNORECASE` */
  const LinkedInPattern: seq<Elem> := Literal(LinkedInPrefix) + Plus(Handle)

  const GitHubPrefix: string := "github.com/"

  /** `github\.com/[\w-]+`, searched with `re.IGNORECASE` */
  const GitHubPattern: seq<Elem> := Literal(GitHubPrefix) + Plus(Handle)

  /** Only this many leading lines are looked at for the name. */
  const NameLines: nat := 5

  /** A name has at most this many words. */
  const MaxNameWords: nat := 4

  /** A stripped line that can be taken for the name. */
  predicate IsNameLine(line: string)
  {
    && line != ""
    && WordCount(line) <= MaxNameWords
    && !HasDigit(line)
    && '@' !in line
    && !Contains(Lower(line), "http")
  }

  /** The first of `lines` that, stripped, can be taken for the name; `''` if none can. */
  function NameIn(lines: seq<string>): (name: string)
    ensures name == "" || IsNameLine(name)
  {
    if lines == [] then ""
    else if IsNameLine(Strip(lines[0])) then Strip(lines[0])
    else NameIn(lines[1..])
  }

  /** The name `extract_contact_info` reports for `text`. */
  function NameOf(text: string): string
  {
    NameIn(Take(Split(text, '\n'), NameLines))
  }

  /** The dictionary `extract_contact_info` returns for `text`. */
  function ContactOf(text: string): ContactInfo
  {
    ContactInfo(
      NameOf(text),
      FirstMatch(EmailPattern, text),
      FirstMatch(PhonePattern, text),
      "",
      FirstMatch(LinkedInPattern, text),
      FirstMatch(GitHubPattern, text))
  }

  /** `extract_contact_info(text)` */
  method ExtractContactInfo(text: string) returns (info: ContactInfo)
    ensures info == ContactOf(text)
    ensures info.location == ""
  {
    info := ContactInfo("", "", "", "", "", "");
    var email := FirstMatch(EmailPattern, text);
    if email != "" {
      info := info.(email := email);
    }
    var phone := FirstMatch(PhonePattern, text);
    if phone != "" {
      info := info.(phone := phone);
    }
    var linkedin := FirstMatch(LinkedInPattern, text);
    if linkedin != "" {
      info := info.(linkedin := linkedin);
    }
    var github := FirstMatch(GitHubPattern, text);
    if github != "" {
      info := info.(github := github);
    }
    var name := ExtractName(text);
    info := info.(name := name);
  }

  /** The name scan of `extract_contact_info`: the first qualifying line among the first five. */
  method ExtractName(text: string) returns (name: string)
    ensures name == NameOf(text)
  {
    name := "";
    var lines := Take(Split(text, '\n'), NameLines);
    var i := 0;
    while i < |lines|
      invariant 0 <= i <= |lines|
      invariant name == "" && NameIn(lines) == NameIn(lines[i..])
    {
      var line := Strip(lines[i]);
      if line != "" && WordCount(line) <= MaxNameWords && !HasDigit(line) {
        if '@' !in line && !Contains(Lower(line), "http") {
          assert IsNameLine(line) && lines[i..][0] == lines[i];
          name := line;
          break;
        }
      }
      assert !IsNameLine(line) && lines[i..][0] == lines[i];
      assert lines[i..][1..] == lines[i + 1..];
      i := i + 1;
    }
    assert i == |lines| ==> lines[i..] == [];
  }

  // ---------------------------------------------------------------------------
  // The name

  /** The name is the first qualifying line. */
  lemma {:induction false} NameIsFirstQualifying(lines: seq<string>, k: nat)
    requires k < |lines| && IsNameLine(Strip(lines[k]))
    requires forall j :: 0 <= j < k ==> !IsNameLine(Strip(lines[j]))
    ensures NameIn(lines) == Strip(lines[k])
  {
    if k > 0 {
      assert lines[1..][k - 1] == lines[k];
      forall j | 0 <= j < k - 1 ensures !IsNameLine(Strip(lines[1..][j])) {
        assert lines[1..][j] == lines[j + 1];
      }
      NameIsFirstQualifying(lines[1..], k - 1);
    }
  }

  /** The name is empty exactly when no line qualifies. */
  lemma {:induction false} NameEmptyIffNone(lines: seq<string>)
    ensures NameIn(lines) == "" <==> forall j :: 0 <= j < |lines| ==> !IsNameLine(Strip(lines[j]))
  {
    if lines != [] && !IsNameLine(Strip(lines[0])) {
      NameEmptyIffNone(lines[1..]);
      forall j | 0 < j < |lines| ensures lines[j] == lines[1..][j - 1] { }
    }
  }

  /** A non-empty name is the stripped form of one of the lines it was chosen from. */
  lemma {:induction false} NameLineIndex(lines: seq<string>) returns (k: nat)
    requires NameIn(lines) != ""
    ensures k < |lines| && NameIn(lines) == Strip(lines[k]) && IsNameLine(Strip(lines[k]))
  {
    if IsNameLine(Strip(lines[0])) {
      k := 0;
    } else {
      var j := NameLineIndex(lines[1..]);
      k := j + 1;
      assert lines[1..][j] == lines[k];
    }
  }

  /** Only the first five lines count: a line further down never gives the name. */
  lemma NameFromFirstLines(text: string)
    ensures NameOf(text) != "" ==> exists k :: && 0 <= k < NameLines && k < |Split(text, '\n')|
                                               && NameOf(text) == Strip(Split(text, '\n')[k])
                                               && IsNameLine(Strip(Split(text, '\n')[k]))
  {
    var lines := Take(Split(text, '\n'), NameLines);
    if NameIn(lines) != "" {
      var k := NameLineIndex(lines);
      assert lines[k] == Split(text, '\n')[k];
    }
  }

  // ---------------------------------------------------------------------------
  // The patterns

  /**
   * A link found by a case-insensitive prefix followed by `[\w-]+` is the
   * prefix, in any case, then a non-empty handle.
   */
  lemma LinkShape(prefix: string, text: string)
    requires Lower(prefix) == prefix
    ensures var g := FirstMatch(Literal(prefix) + Plus(Handle), text);
      g != "" ==> && |g| > |prefix|
                  && Lower(g[..|prefix|]) == prefix
                  && forall k :: |prefix| <= k < |g| ==> IsWordChar(g[k]) || g[k] == '-'
  {
    var p := Literal(prefix) + Plus(Handle);
    var g := FirstMatch(p, text);
    if g != "" {
      var s, e := FirstMatchIsLeftmost(p, text);
      AcceptsLiteral(prefix, Plus(Handle), text, s, e);
      AcceptsPlus(Handle, text, s + |prefix|, e);
      forall k | 0 <= k < |prefix| ensures Lower(g[..|prefix|])[k] == prefix[k] {
        assert g[k] == text[s + k];
        assert LowerChar(prefix[k]) == Lower(prefix)[k];
      }
      forall k | |prefix| <= k < |g| ensures IsWordChar(g[k]) || g[k] == '-' {
        assert g[k] == text[s + k];
        assert InClass(Handle, g[k]);
        assert InClass(Word, g[k]) || InClass(OneOf("-"), g[k]);
        assert g[k] in "-" ==> g[k] == '-';
      }
    }
  }

  /** The LinkedIn entry is empty or a `linkedin.com/in/` link, in any case, with a handle. */
  lemma LinkedInShape(text: string)
    ensures var g := ContactOf(text).linkedin;
      g != "" ==> && |g| > |LinkedInPrefix|
                  && Lower(g[..|LinkedInPrefix|]) == LinkedInPrefix
                  && forall k :: |LinkedInPrefix| <= k < |g| ==> IsWordChar(g[k]) || g[k] == '-'
  {
    assert Lower(LinkedInPrefix) == LinkedInPrefix;
    LinkShape(LinkedInPrefix, text);
  }

  /** The GitHub entry is empty or a `github.com/` link, in any case, with a handle. */
  lemma GitHubShape(text: string)
    ensures var g := ContactOf(text).github;
      g != "" ==> && |g| > |GitHubPrefix|
                  && Lower(g[..|GitHubPrefix|]) == GitHubPrefix
                  && forall k :: |GitHubPrefix| <= k < |g| ==> IsWordChar(g[k]) || g[k] == '-'
  {
    assert Lower(GitHubPrefix) == GitHubPrefix;
    LinkShape(GitHubPrefix, text);
  }

  /** Each contact field is empty exactly when its pattern matches nowhere in the text. */
  lemma FieldEmptyIffNoMatch(text: string)
    ensures ContactOf(text).email == "" <==> MatchesNowhere(EmailPattern, text)
    ensures ContactOf(text).phone == "" <==> MatchesNowhere(PhonePattern, text)
    ensures ContactOf(text).linkedin == "" <==> MatchesNowhere(LinkedInPattern, text)
    ensures ContactOf(text).github == "" <==> MatchesNowhere(GitHubPattern, text)
  {
    NeverEmpty(EmailPattern, 1, text);
    FirstMatchEmpty(EmailPattern, text);
    NeverEmpty(PhonePattern, 2, text);
    FirstMatchEmpty(PhonePattern, text);
    NeverEmpty(LinkedInPattern, 0, text);
    FirstMatchEmpty(LinkedInPattern, text);
    NeverEmpty(GitHubPattern, 0, text);
    FirstMatchEmpty(GitHubPattern, text);
  }

  /** A found link takes the whole handle: the character after it is not `[\w-]`. */
  lemma LinkGreedy(prefix: string, text: string)
    ensures var r := Search(Literal(prefix) + Plus(Handle), text, 0);
      r.Some? ==> r.value.1 == |text| || !(IsWordChar(text[r.value.1]) || text[r.value.1] == '-')
  {
    var r := Search(Literal(prefix) + Plus(Handle), text, 0);
    if r.Some? {
      LiteralPlusGreedy(prefix, Handle, text, r.value.0);
    }
  }

  /** The LinkedIn and GitHub entries end where their handles end. */
  lemma LinksGreedy(text: string)
    ensures var r := Search(LinkedInPattern, text, 0);
      r.Some? ==> r.value.1 == |text| || !(IsWordChar(text[r.value.1]) || text[r.value.1] == '-')
    ensures var r := Search(GitHubPattern, text, 0);
      r.Some? ==> r.value.1 == |text| || !(IsWordChar(text[r.value.1]) || text[r.value.1] == '-')
  {
    LinkGreedy(LinkedInPrefix, text);
    LinkGreedy(GitHubPrefix, text);
  }

  /** A found e-mail address contains an `@` after a non-empty user part. */
  lemma EmailHasAt(text: string)
    ensures var g := ContactOf(text).email;
      g != "" ==> exists k :: 0 < k < |g| && g[k] == '@'
  {
    var g := ContactOf(text).email;
    if g != "" {
      var s, e := FirstMatchIsLeftmost(EmailPattern, text);
      var user := [Boundary] + Plus(Either(Alnum, OneOf("._%+-")));
      var rest := Plus(Either(Alnum, OneOf(".-"))) + [One(Char('.')), One(DomainEnd), One(DomainEnd), Star(DomainEnd), Boundary];
      assert EmailPattern == user + ([One(Char('@'))] + rest);
      var m := AcceptsSplit(user, [One(Char('@'))] + rest, text, s, e);
      var n := AcceptsSplit([One(Char('@'))], rest, text, m, e);
      AcceptsOne(Char('@'), text, m, n);
      assert user == [Boundary] + Plus(Either(Alnum, OneOf("._%+-")));
      assert AtBoundary(text, s) && Accepts(Plus(Either(Alnum, OneOf("._%+-"))), text, s, m);
      AcceptsPlus(Either(Alnum, OneOf("._%+-")), text, s, m);
      assert g[m - s] == text[m];
    }
  }

  /** A span of `a` followed by four digits ends in four digits. */
  lemma EndsInFourDigits(a: seq<Elem>, text: string, i: nat, e: nat)
    requires i <= e <= |text| && Accepts(a + FourDigits, text, i, e)
    ensures i + 4 <= e && forall k :: e - 4 <= k < e ==> IsDigit(text[k])
  {
    var m := AcceptsSplit(a, FourDigits, text, i, e);
    var d := [One(Digit)];
    assert FourDigits == d + (d + (d + d));
    var m1 := AcceptsSplit(d, d + (d + d), text, m, e);
    AcceptsOne(Digit, text, m, m1);
    var m2 := AcceptsSplit(d, d + d, text, m1, e);
    AcceptsOne(Digit, text, m1, m2);
    var m3 := AcceptsSplit(d, d, text, m2, e);
    AcceptsOne(Digit, text, m2, m3);
    AcceptsOne(Digit, text, m3, e);
  }

  /** A found phone number ends in four digits. */
  lemma PhoneEndsInFourDigits(text: string)
    ensures var g := ContactOf(text).phone;
      g != "" ==> |g| >= 4 && forall k :: |g| - 4 <= k < |g| ==> IsDigit(g[k])
  {
    var g := ContactOf(text).phone;
    if g != "" {
      var s, e := FirstMatchIsLeftmost(PhonePattern, text);
      EndsInFourDigits(PhonePrefix, text, s, e);
      forall k | |g| - 4 <= k < |g| ensures IsDigit(g[k]) {
        assert g[k] == text[s + k];
      }
    }
  }
}
